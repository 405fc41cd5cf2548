/** The simulator's three-valued conditions (internal/simulate/match.go), and what the same
    conditions mean for a fully known packet. */
module Matching {
  import opened Wrappers
  import opened Addresses
  import opened Strings
  import opened Model

  datatype Tri = No | Yes | Unknown

  /** The packet to trace; empty fields are unspecified. */
  datatype Packet = Packet(
    proto: string,
    src: Option<Addr>,
    dst: Option<Addr>,
    sport: nat,
    dport: nat,
    iif: string,
    oif: string,
    ctState: string)

  function Is(b: bool): (t: Tri) {
    if b then Yes else No
  }

  function ApplyNeg(hit: Tri, neg: bool): (t: Tri) {
    if hit.Unknown? || !neg then hit else if hit.Yes? then No else Yes
  }

  // netip.Addr.Compare over the two bounds of a range.
  predicate Between(lo: Addr, a: Addr, hi: Addr) {
    !AddrLess(a, lo) && !AddrLess(hi, a)
  }

  // addrTokenContains: one address, prefix or range; anything else cannot be read.
  function AddrTokenContains(l: Literal, a: Addr): (t: Tri) {
    match l
    case Span(lo, hi) => Is(Between(lo, a, hi))
    case Cidr(net, bits) => if bits <= Width(net.fam) then Is(Contains(Prefix(net, bits), a)) else Unknown
    case Host(h) => Is(h == a)
    case _ => Unknown
  }

  // The scan of a set's elements: only a definite hit counts.
  function ElementsContain(els: seq<Literal>, a: Addr): (t: Tri) {
    if els == [] then No
    else if AddrTokenContains(els[0], a).Yes? then Yes
    else ElementsContain(els[1..], a)
  }

  // setContains: the first set of that name decides; without one nothing is known.
  function SetContains(sets: seq<SetDef>, name: string, a: Addr): (t: Tri) {
    if sets == [] then Unknown
    else if sets[0].name == name then ElementsContain(sets[0].elements, a)
    else SetContains(sets[1..], name, a)
  }

  function TokenContains(tok: Token, a: Addr, sets: seq<SetDef>): (t: Tri) {
    if HasAt(tok.text) then SetContains(sets, tok.text[1..], a) else AddrTokenContains(tok.lit, a)
  }

  // addrInValue: the first token that is not a miss decides.
  function AddrInValue(a: Addr, value: seq<Token>, sets: seq<SetDef>): (t: Tri) {
    if value == [] then No
    else if TokenContains(value[0], a, sets).No? then AddrInValue(a, value[1..], sets)
    else TokenContains(value[0], a, sets)
  }

  function Unquoted(s: string): (t: string)
    decreases |s|
  {
    if s != "" && s[0] == '"' then Unquoted(s[1..])
    else if s != "" && s[|s| - 1] == '"' then Unquoted(s[..|s| - 1])
    else s
  }

  predicate IfaceIn(name: string, value: seq<Token>) {
    exists tok :: tok in value && Unquoted(tok.text) == name
  }

  predicate TokenIn(t: string, value: seq<Token>) {
    exists tok :: tok in value && tok.text == t
  }

  predicate PortHit(tok: Token, port: nat) {
    match tok.lit
    case Number(n) => n == port
    case NumberRange(lo, hi) => lo <= port <= hi
    case _ => false
  }

  predicate PortInValue(value: seq<Token>, port: nat) {
    exists tok :: tok in value && PortHit(tok, port)
  }

  predicate IsComparison(op: string) {
    op == "<" || op == ">" || op == "<=" || op == ">="
  }

  predicate Compare(port: nat, op: string, n: int) {
    if op == "<" then port < n
    else if op == ">" then port > n
    else if op == "<=" then port <= n
    else port >= n
  }

  predicate Negated(m: Match) {
    m.op == "!="
  }

  // addrMatch: the family is a hard gate that != does not negate.
  function AddrMatch(sets: seq<SetDef>, addr: Option<Addr>, want: Family, m: Match): (t: Tri) {
    if addr.None? then Unknown
    else if addr.value.fam != want then No
    else ApplyNeg(AddrInValue(addr.value, m.value, sets), Negated(m))
  }

  // portMatch: the protocol is a hard gate too; comparisons are never negated.
  function PortMatch(pktProto: string, proto: string, port: nat, m: Match): (t: Tri) {
    if pktProto == "" || port == 0 then Unknown
    else if pktProto != proto then No
    else if IsComparison(m.op) then
      (if m.number.None? then Unknown else Is(Compare(port, m.op, m.number.value)))
    else ApplyNeg(Is(PortInValue(m.value, port)), Negated(m))
  }

  datatype Field =
    | Interface(incoming: bool)
    | Address(source: bool, fam: Family)
    | Protocol
    | Port(proto: string, source: bool)
    | State
    | Unmodelled

  function FieldOf(key: string): (f: Field) {
    if key == "meta.iifname" then Interface(true)
    else if key == "meta.oifname" then Interface(false)
    else if key == "ip.saddr" then Address(true, V4)
    else if key == "ip.daddr" then Address(false, V4)
    else if key == "ip6.saddr" then Address(true, V6)
    else if key == "ip6.daddr" then Address(false, V6)
    else if key == "meta.l4proto" then Protocol
    else if key == "tcp.dport" then Port("tcp", false)
    else if key == "tcp.sport" then Port("tcp", true)
    else if key == "udp.dport" then Port("udp", false)
    else if key == "udp.sport" then Port("udp", true)
    else if key == "ct.state" then State
    else Unmodelled
  }

  function AddressOf(p: Packet, source: bool): (a: Option<Addr>) {
    if source then p.src else p.dst
  }

  function PortOf(p: Packet, source: bool): (n: nat) {
    if source then p.sport else p.dport
  }

  function InterfaceOf(p: Packet, incoming: bool): (s: string) {
    if incoming then p.iif else p.oif
  }

  // matchOne
  function MatchOne(sets: seq<SetDef>, p: Packet, m: Match): (t: Tri) {
    match FieldOf(m.key)
    case Interface(i) =>
      if InterfaceOf(p, i) == "" then Unknown else ApplyNeg(Is(IfaceIn(InterfaceOf(p, i), m.value)), Negated(m))
    case Address(s, fam) => AddrMatch(sets, AddressOf(p, s), fam, m)
    case Protocol => if p.proto == "" then Unknown else ApplyNeg(Is(TokenIn(p.proto, m.value)), Negated(m))
    case Port(proto, s) => PortMatch(p.proto, proto, PortOf(p, s), m)
    case State => if p.ctState == "" then Unknown else ApplyNeg(Is(TokenIn(p.ctState, m.value)), Negated(m))
    case Unmodelled => Unknown
  }

  // matchRule: a definite failure wins over anything unknown.
  function MatchRule(sets: seq<SetDef>, p: Packet, ms: seq<Match>): (t: Tri) {
    if ms == [] then Yes
    else
      match MatchOne(sets, p, ms[0])
      case No => No
      case Unknown => if MatchRule(sets, p, ms[1..]).No? then No else Unknown
      case Yes => MatchRule(sets, p, ms[1..])
  }

  // ── The same conditions with everything known ─────────────────────────────

  /** A full packet and a meaning for everything the simulator does not model: odd conditions,
      elements and sets it cannot read, port names, statements that gate, and raw rules. */
  datatype World = World(
    pkt: Packet,
    odd: Match -> bool,
    element: (Literal, Addr) -> bool,
    dangling: (string, Addr) -> bool,
    service: (string, nat) -> bool,
    gate: Statement -> Gate,
    raw: Rule -> Ruling)

  /** How a statement that may stop a rule turns out: go on, or end the rule with a ruling. */
  datatype Gate = Passes | Ends(ruling: Ruling)

  datatype Ruling = Accept | Drop | Reject | Return | Jump(target: string) | Goto(target: string) | GoOn

  predicate TrueElement(element: (Literal, Addr) -> bool, l: Literal, a: Addr) {
    AddrTokenContains(l, a).Yes? || (AddrTokenContains(l, a).Unknown? && element(l, a))
  }

  predicate TrueElements(element: (Literal, Addr) -> bool, els: seq<Literal>, a: Addr) {
    exists l :: l in els && TrueElement(element, l, a)
  }

  predicate TrueSet(w: World, sets: seq<SetDef>, name: string, a: Addr) {
    if sets == [] then w.dangling(name, a)
    else if sets[0].name == name then TrueElements(w.element, sets[0].elements, a)
    else TrueSet(w, sets[1..], name, a)
  }

  predicate TrueToken(w: World, tok: Token, a: Addr, sets: seq<SetDef>) {
    if HasAt(tok.text) then TrueSet(w, sets, tok.text[1..], a) else TrueElement(w.element, tok.lit, a)
  }

  predicate TrueAddr(w: World, a: Addr, value: seq<Token>, sets: seq<SetDef>) {
    exists tok :: tok in value && TrueToken(w, tok, a, sets)
  }

  predicate TruePortHit(service: (string, nat) -> bool, tok: Token, port: nat) {
    match tok.lit
    case Number(n) => n == port
    case NumberRange(lo, hi) => lo <= port <= hi
    case _ => service(tok.text, port)
  }

  predicate TruePort(service: (string, nat) -> bool, value: seq<Token>, port: nat) {
    exists tok :: tok in value && TruePortHit(service, tok, port)
  }

  predicate Flip(b: bool, neg: bool) {
    b != neg
  }

  predicate Complete(p: Packet) {
    p.src.Some? && p.dst.Some?
  }

  predicate TrueMatch(w: World, sets: seq<SetDef>, m: Match)
    requires Complete(w.pkt)
  {
    match FieldOf(m.key)
    case Interface(i) => Flip(IfaceIn(InterfaceOf(w.pkt, i), m.value), Negated(m))
    case Address(s, fam) =>
      var a := AddressOf(w.pkt, s).value;
      a.fam == fam && Flip(TrueAddr(w, a, m.value, sets), Negated(m))
    case Protocol => Flip(TokenIn(w.pkt.proto, m.value), Negated(m))
    case Port(proto, s) =>
      && w.pkt.proto == proto
      && (if IsComparison(m.op) then (if m.number.None? then w.odd(m) else Compare(PortOf(w.pkt, s), m.op, m.number.value))
          else Flip(TruePort(w.service, m.value, PortOf(w.pkt, s)), Negated(m)))
    case State => Flip(TokenIn(w.pkt.ctState, m.value), Negated(m))
    case Unmodelled => w.odd(m)
  }

  predicate RuleHolds(w: World, sets: seq<SetDef>, ms: seq<Match>)
    requires Complete(w.pkt)
  {
    forall m :: m in ms ==> TrueMatch(w, sets, m)
  }

  predicate Fits<T(==)>(part: T, whole: T, unspecified: T) {
    part == unspecified || part == whole
  }

  /** The second packet specifies everything the first does, and the same way. */
  predicate Extends(p: Packet, q: Packet) {
    && Fits(p.proto, q.proto, "") && Fits(p.src, q.src, None) && Fits(p.dst, q.dst, None)
    && Fits(p.sport, q.sport, 0) && Fits(p.dport, q.dport, 0)
    && Fits(p.iif, q.iif, "") && Fits(p.oif, q.oif, "") && Fits(p.ctState, q.ctState, "")
  }

  // ── When the readings are right ───────────────────────────────────────────

  predicate Readable(l: Literal, a: Addr) {
    !AddrTokenContains(l, a).Unknown?
  }

  predicate SetReadable(sets: seq<SetDef>, name: string, a: Addr) {
    if sets == [] then true
    else if sets[0].name == name then forall l :: l in sets[0].elements ==> Readable(l, a)
    else SetReadable(sets[1..], name, a)
  }

  /** A definite set or value reading cannot be wrong: it is a hit, or no referenced set holds an
      element that cannot be read. */
  predicate AddrSure(a: Addr, value: seq<Token>, sets: seq<SetDef>) {
    || AddrInValue(a, value, sets).Yes?
    || forall tok :: tok in value && HasAt(tok.text) ==> SetReadable(sets, tok.text[1..], a)
  }

  predicate IsNumeric(l: Literal) {
    l.Number? || l.NumberRange?
  }

  predicate PortSure(value: seq<Token>, port: nat) {
    PortInValue(value, port) || forall tok :: tok in value ==> IsNumeric(tok.lit)
  }

  predicate MatchSure(sets: seq<SetDef>, p: Packet, m: Match) {
    match FieldOf(m.key)
    case Address(s, fam) =>
      AddressOf(p, s).Some? && AddressOf(p, s).value.fam == fam ==> AddrSure(AddressOf(p, s).value, m.value, sets)
    case Port(proto, s) =>
      p.proto == proto && !IsComparison(m.op) ==> PortSure(m.value, PortOf(p, s))
    case _ => true
  }

  lemma {:induction false} ElementsAgree(element: (Literal, Addr) -> bool, els: seq<Literal>, a: Addr)
    ensures ElementsContain(els, a).Yes? ==> TrueElements(element, els, a)
    ensures !ElementsContain(els, a).Yes? && (forall l :: l in els ==> Readable(l, a)) ==> !TrueElements(element, els, a)
    ensures !ElementsContain(els, a).Unknown?
    ensures ElementsContain(els, a).No? ==> forall l :: l in els ==> !AddrTokenContains(l, a).Yes?
  {
    if els != [] {
      ElementsAgree(element, els[1..], a);
      assert els == [els[0]] + els[1..];
      if AddrTokenContains(els[0], a).Yes? {
        assert els[0] in els && TrueElement(element, els[0], a);
      } else if ElementsContain(els[1..], a).Yes? {
        var l :| l in els[1..] && TrueElement(element, l, a);
        assert l in els;
      }
    }
  }

  lemma {:induction false} SetAgrees(w: World, sets: seq<SetDef>, name: string, a: Addr)
    ensures SetContains(sets, name, a).Yes? ==> TrueSet(w, sets, name, a)
    ensures SetContains(sets, name, a).No? && SetReadable(sets, name, a) ==> !TrueSet(w, sets, name, a)
  {
    if sets != [] {
      if sets[0].name == name {
        ElementsAgree(w.element, sets[0].elements, a);
      } else {
        SetAgrees(w, sets[1..], name, a);
      }
    }
  }

  lemma TokenAgrees(w: World, tok: Token, a: Addr, sets: seq<SetDef>)
    ensures TokenContains(tok, a, sets).Yes? ==> TrueToken(w, tok, a, sets)
    ensures TokenContains(tok, a, sets).No? && (HasAt(tok.text) ==> SetReadable(sets, tok.text[1..], a)) ==> !TrueToken(w, tok, a, sets)
  {
    if HasAt(tok.text) {
      SetAgrees(w, sets, tok.text[1..], a);
    }
  }

  lemma {:induction false} AddrScan(a: Addr, value: seq<Token>, sets: seq<SetDef>)
    ensures AddrInValue(a, value, sets).No? ==> forall tok :: tok in value ==> TokenContains(tok, a, sets).No?
    ensures AddrInValue(a, value, sets).Yes? ==> exists tok :: tok in value && TokenContains(tok, a, sets).Yes?
  {
    hide TokenContains;
    if value != [] {
      AddrScan(a, value[1..], sets);
      assert value == [value[0]] + value[1..];
      assert value[0] in value;
    }
  }

  // A world in which every unreadable element holds every address.
  function Adversary(w: World): (v: World) {
    w.(element := (l: Literal, a: Addr) => true, service := (s: string, n: nat) => true)
  }

  lemma {:induction false} UnreadableSetWrong(w: World, sets: seq<SetDef>, name: string, a: Addr)
    requires SetContains(sets, name, a).No? && !SetReadable(sets, name, a)
    ensures TrueSet(Adversary(w), sets, name, a)
  {
    if sets[0].name == name {
      var l :| l in sets[0].elements && !Readable(l, a);
      assert TrueElement(Adversary(w).element, l, a);
    } else {
      UnreadableSetWrong(w, sets[1..], name, a);
    }
  }

  /** A definite address reading is right in every world exactly when it is sure: otherwise there
      is a world in which it is wrong. */
  lemma AddrReadExactly(w: World, a: Addr, value: seq<Token>, sets: seq<SetDef>)
    requires !AddrInValue(a, value, sets).Unknown?
    ensures AddrSure(a, value, sets) ==> (TrueAddr(w, a, value, sets) <==> AddrInValue(a, value, sets).Yes?)
    ensures !AddrSure(a, value, sets) ==> !(TrueAddr(Adversary(w), a, value, sets) <==> AddrInValue(a, value, sets).Yes?)
  {
    hide TokenContains, TrueToken, SetReadable;
    AddrScan(a, value, sets);
    forall tok | tok in value
      ensures TokenContains(tok, a, sets).Yes? ==> TrueToken(w, tok, a, sets)
      ensures TokenContains(tok, a, sets).No? && (HasAt(tok.text) ==> SetReadable(sets, tok.text[1..], a)) ==> !TrueToken(w, tok, a, sets)
    {
      TokenAgrees(w, tok, a, sets);
    }
    if !AddrSure(a, value, sets) {
      var tok :| tok in value && HasAt(tok.text) && !SetReadable(sets, tok.text[1..], a);
      UnreadableTokenWrong(w, tok, a, sets);
    }
  }

  lemma UnreadableTokenWrong(w: World, tok: Token, a: Addr, sets: seq<SetDef>)
    requires HasAt(tok.text) && TokenContains(tok, a, sets).No? && !SetReadable(sets, tok.text[1..], a)
    ensures TrueToken(Adversary(w), tok, a, sets)
  {
    UnreadableSetWrong(w, sets, tok.text[1..], a);
  }

  /** A port reading is right in every world exactly when it is sure: a hit on a number, or no
      port names at all. */
  lemma PortReadExactly(w: World, value: seq<Token>, port: nat)
    ensures PortSure(value, port) ==> (TruePort(w.service, value, port) <==> PortInValue(value, port))
    ensures !PortSure(value, port) ==> !(TruePort(Adversary(w).service, value, port) <==> PortInValue(value, port))
  {
    if PortInValue(value, port) {
      var tok :| tok in value && PortHit(tok, port);
      assert TruePortHit(w.service, tok, port);
    } else if !PortSure(value, port) {
      var tok :| tok in value && !IsNumeric(tok.lit);
      assert TruePortHit(Adversary(w).service, tok, port);
    }
  }

  /** A definite, sure reading of a condition is what the condition means for every completion. */
  lemma MatchAgrees(w: World, p: Packet, sets: seq<SetDef>, m: Match)
    requires Complete(w.pkt) && Extends(p, w.pkt)
    requires !MatchOne(sets, p, m).Unknown? && MatchSure(sets, p, m)
    ensures MatchOne(sets, p, m).Yes? <==> TrueMatch(w, sets, m)
  {
    hide AddrInValue, TrueAddr, PortInValue, TruePort, IfaceIn, TokenIn, AddrSure, PortSure;
    match FieldOf(m.key)
    case Address(s, fam) =>
      var a := AddressOf(p, s).value;
      if a.fam == fam {
        AddrReadExactly(w, a, m.value, sets);
      }
    case Port(proto, s) =>
      PortReadExactly(w, m.value, PortOf(p, s));
    case _ =>
  }

  /** And one that is not sure is wrong where every unreadable element and port name is a hit. */
  lemma MatchMisread(w: World, p: Packet, sets: seq<SetDef>, m: Match)
    requires Complete(w.pkt) && Extends(p, w.pkt)
    requires !MatchOne(sets, p, m).Unknown? && !MatchSure(sets, p, m)
    ensures !(MatchOne(sets, p, m).Yes? <==> TrueMatch(Adversary(w), sets, m))
  {
    hide AddrInValue, TrueAddr, PortInValue, TruePort, IfaceIn, TokenIn, AddrSure, PortSure;
    match FieldOf(m.key)
    case Address(s, fam) => AddrReadExactly(w, AddressOf(p, s).value, m.value, sets);
    case Port(proto, s) => PortReadExactly(w, m.value, PortOf(p, s));
    case _ =>
  }

  /** The reading of a rule rests on sure conditions: all of them when it matches, one that fails
      when it does not. */
  predicate RuleSure(sets: seq<SetDef>, p: Packet, ms: seq<Match>) {
    if MatchRule(sets, p, ms).No? then exists m :: m in ms && MatchOne(sets, p, m).No? && MatchSure(sets, p, m)
    else forall m :: m in ms ==> MatchSure(sets, p, m)
  }

  lemma {:induction false} RuleReading(sets: seq<SetDef>, p: Packet, ms: seq<Match>)
    ensures MatchRule(sets, p, ms).Yes? ==> forall m :: m in ms ==> MatchOne(sets, p, m).Yes?
    ensures MatchRule(sets, p, ms).No? ==> exists m :: m in ms && MatchOne(sets, p, m).No?
  {
    hide MatchOne;
    if ms != [] {
      RuleReading(sets, p, ms[1..]);
      assert ms == [ms[0]] + ms[1..] && ms[0] in ms;
    }
  }

  /** So is a definite reading of a whole rule, whatever its unknown conditions are. */
  lemma RuleAgrees(w: World, p: Packet, sets: seq<SetDef>, ms: seq<Match>)
    requires Complete(w.pkt) && Extends(p, w.pkt)
    requires RuleSure(sets, p, ms) && !MatchRule(sets, p, ms).Unknown?
    ensures MatchRule(sets, p, ms).Yes? <==> RuleHolds(w, sets, ms)
  {
    hide MatchOne, MatchRule, MatchSure, TrueMatch, Extends;
    RuleReading(sets, p, ms);
    if MatchRule(sets, p, ms).Yes? {
      forall m | m in ms ensures TrueMatch(w, sets, m) {
        MatchAgrees(w, p, sets, m);
      }
    } else {
      var m :| m in ms && MatchOne(sets, p, m).No? && MatchSure(sets, p, m);
      MatchAgrees(w, p, sets, m);
    }
  }

  /** A rule read as matching is read rightly in every world exactly when it is sure. */
  lemma RuleMisread(w: World, p: Packet, sets: seq<SetDef>, ms: seq<Match>)
    requires Complete(w.pkt) && Extends(p, w.pkt)
    requires MatchRule(sets, p, ms).Yes? && !RuleSure(sets, p, ms)
    ensures !RuleHolds(Adversary(w), sets, ms)
  {
    hide MatchOne, MatchRule, MatchSure, TrueMatch, Extends;
    RuleReading(sets, p, ms);
    var m :| m in ms && !MatchSure(sets, p, m);
    MatchMisread(w, p, sets, m);
  }

  /** Specifying more of the packet never changes a definite reading of a condition. */
  lemma MatchMonotone(p: Packet, q: Packet, sets: seq<SetDef>, m: Match)
    requires Extends(p, q) && !MatchOne(sets, p, m).Unknown?
    ensures MatchOne(sets, q, m) == MatchOne(sets, p, m)
  {
    hide AddrInValue, PortInValue, IfaceIn, TokenIn;
  }

  lemma {:induction false} RuleMonotone(p: Packet, q: Packet, sets: seq<SetDef>, ms: seq<Match>)
    requires Extends(p, q) && !MatchRule(sets, p, ms).Unknown?
    ensures MatchRule(sets, q, ms) == MatchRule(sets, p, ms)
  {
    hide MatchOne, Extends;
    if ms != [] {
      if !MatchOne(sets, p, ms[0]).Unknown? {
        MatchMonotone(p, q, sets, ms[0]);
      }
      if !MatchOne(sets, p, ms[0]).No? {
        RuleMonotone(p, q, sets, ms[1..]);
      }
    }
  }
}
