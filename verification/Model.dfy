/** The object model the renderer, the simulator, the apply pipeline and the backup share:
    tables with chains, chains with rules, rules with matches and statements; and the named
    address lists. A value is kept as the tokens it splits into, each with its text and with
    what Go's address and number parsers make of that text. */
module Model {
  import opened Wrappers
  import opened Addresses
  import opened Strings

  /** What a piece of text parses to. */
  datatype Literal =
    | Host(addr: Addr)                 // 203.0.113.4
    | Cidr(net: Addr, bits: nat)       // 203.0.113.0/24
    | Span(lo: Addr, hi: Addr)         // 203.0.113.4-203.0.113.9
    | Number(n: int)                   // 443
    | NumberRange(first: int, last: int)
    | Opaque(text: string)             // anything else

  datatype Token = Token(text: string, lit: Literal)

  /** A condition. `number` is what its whole value reads as, when that is one decimal. */
  datatype Match = Match(key: string, op: string, value: seq<Token>, number: Option<int>)

  datatype Statement = Statement(key: string, params: map<string, string>)

  datatype Rule = Rule(
    comment: string,
    enabled: bool,
    raw: string,
    tags: string,
    matches: seq<Match>,
    statements: seq<Statement>)

  datatype Priority =
    | Absolute(n: int)                             // "-150"
    | Keyword(word: string)                        // "filter"
    | Offset(word: string, plus: bool, amount: int) // "filter + 10", "srcnat - 5"
    | Unreadable(text: string)

  datatype Chain = Chain(
    name: string,
    kind: string,
    hook: string,
    chainType: string,
    priority: Priority,
    policy: string,
    device: string,
    rules: seq<Rule>)

  datatype Flowtable = Flowtable(name: string, priority: Priority, devices: seq<string>, offload: bool)

  datatype Table = Table(
    family: string,
    name: string,
    comment: string,
    flowtables: seq<Flowtable>,
    chains: seq<Chain>)

  /** A named set declared in a table, with its elements in listing order. */
  datatype SetDef = SetDef(name: string, fam: Family, elements: seq<Literal>)

  /** A ban set: declared empty, filled by the kernel as rules fire. */
  datatype DynSetDef = DynSetDef(name: string, fam: Family)

  /** A table together with the sets resolved for it. */
  datatype TableTree = TableTree(table: Table, dynSets: seq<DynSetDef>, sets: seq<SetDef>)

  datatype Entry = Entry(id: nat, listId: nat, cidr: Literal, note: string)

  datatype NamedList = NamedList(name: string, entries: seq<Entry>)

  predicate IsBase(c: Chain) {
    c.kind == "base"
  }

  predicate IsRaw(r: Rule) {
    TrimSpace(r.raw) != ""
  }

  function Param(st: Statement, key: string): (v: string) {
    if key in st.params then st.params[key] else ""
  }

  // EntryPrefix: a bare address is a full-length prefix, a CIDR is itself.
  function EntryPrefix(l: Literal): (r: Option<Prefix>)
    ensures r.Some? ==> ValidPrefix(r.value)
  {
    match l
    case Host(a) => if ValidAddr(a) then Some(Prefix(a, Width(a.fam))) else None
    case Cidr(a, bits) => if ValidAddr(a) && bits <= Width(a.fam) then Some(Prefix(a, bits)) else None
    case _ => None
  }

  // prefixString: a single host prints bare, everything else with its length.
  function PrefixLiteral(p: Prefix): (l: Literal) {
    if p.bits == Width(p.addr.fam) then Host(p.addr) else Cidr(p.addr, p.bits)
  }

  /** Printing and parsing a prefix is a round trip. */
  lemma PrefixLiteralRoundTrip(p: Prefix)
    requires ValidPrefix(p)
    ensures EntryPrefix(PrefixLiteral(p)) == Some(p)
  {}
}
