/** Resolving the sets a table declares: ban sets from its ban statements, then named
    address lists from the @references in its matches (internal/render/sets.go). */
module Sets {
  import opened Wrappers
  import opened Addresses
  import opened Strings
  import opened Model

  // ── Which rules and tokens count ──────────────────────────────────────────

  function EnabledOf(rules: seq<Rule>): (r: seq<Rule>) {
    if rules == [] then []
    else if rules[0].enabled then [rules[0]] + EnabledOf(rules[1..])
    else EnabledOf(rules[1..])
  }

  function EnabledRules(chains: seq<Chain>): (r: seq<Rule>) {
    if chains == [] then [] else EnabledOf(chains[0].rules) + EnabledRules(chains[1..])
  }

  lemma {:induction false} EnabledOfAppend(a: seq<Rule>, b: seq<Rule>)
    ensures EnabledOf(a + b) == EnabledOf(a) + EnabledOf(b)
  {
    if a == [] {
      assert a + b == b;
    } else {
      EnabledOfAppend(a[1..], b);
      assert (a + b)[1..] == a[1..] + b;
    }
  }

  lemma {:induction false} EnabledRulesAppend(a: seq<Chain>, b: seq<Chain>)
    ensures EnabledRules(a + b) == EnabledRules(a) + EnabledRules(b)
  {
    hide EnabledOf;
    if a == [] {
      assert a + b == b;
    } else {
      EnabledRulesAppend(a[1..], b);
      assert (a + b)[0] == a[0] && (a + b)[1..] == a[1..] + b;
      Assoc(EnabledOf(a[0].rules), EnabledRules(a[1..]), EnabledRules(b));
    }
  }

  // ── Ban sets ──────────────────────────────────────────────────────────────

  predicate IsIdentifier(s: string) {
    && 1 <= |s| <= 64
    && ('a' <= s[0] <= 'z' || 'A' <= s[0] <= 'Z')
    && forall i :: 0 <= i < |s| ==>
         'a' <= s[i] <= 'z' || 'A' <= s[i] <= 'Z' || '0' <= s[i] <= '9' || s[i] == '_'
  }

  // nftcat.DynamicSet: the set a ban statement fills, if the statement is one.
  function DynamicSet(st: Statement): (d: Option<DynSetDef>) {
    var name := TrimSpace(Param(st, "set"));
    if st.key != "ban.rate" || !IsIdentifier(name) then None
    else Some(DynSetDef(name, if TrimSpace(Param(st, "family")) == "ip6" then V6 else V4))
  }

  predicate DeclaresDyn(defs: seq<DynSetDef>, name: string) {
    exists d :: d in defs && d.name == name
  }

  function AddStatements(defs: seq<DynSetDef>, sts: seq<Statement>): (r: seq<DynSetDef>)
    ensures defs <= r
    decreases |sts|
  {
    if sts == [] then defs
    else
      var d := DynamicSet(sts[0]);
      if d.None? || DeclaresDyn(defs, d.value.name) then AddStatements(defs, sts[1..])
      else AddStatements(defs + [d.value], sts[1..])
  }

  function AddRules(defs: seq<DynSetDef>, rules: seq<Rule>): (r: seq<DynSetDef>)
    ensures defs <= r
    decreases |rules|
  {
    if rules == [] then defs else AddRules(AddStatements(defs, rules[0].statements), rules[1..])
  }

  // One declaration per ban-set name, in first-seen order.
  function DynDefs(t: Table): (r: seq<DynSetDef>) {
    AddRules([], EnabledRules(t.chains))
  }

  ghost predicate DistinctDyn(defs: seq<DynSetDef>) {
    forall i, j :: 0 <= i < j < |defs| ==> defs[i].name != defs[j].name
  }

  lemma {:induction false} AddStatementsDistinct(defs: seq<DynSetDef>, sts: seq<Statement>)
    requires DistinctDyn(defs)
    ensures DistinctDyn(AddStatements(defs, sts))
    decreases |sts|
  {
    if sts != [] {
      var d := DynamicSet(sts[0]);
      if d.None? || DeclaresDyn(defs, d.value.name) {
        AddStatementsDistinct(defs, sts[1..]);
      } else {
        forall i | 0 <= i < |defs| ensures defs[i].name != d.value.name {
          assert defs[i] in defs;
        }
        AddStatementsDistinct(defs + [d.value], sts[1..]);
      }
    }
  }

  lemma {:induction false} AddRulesDistinct(defs: seq<DynSetDef>, rules: seq<Rule>)
    requires DistinctDyn(defs)
    ensures DistinctDyn(AddRules(defs, rules))
    decreases |rules|
  {
    if rules != [] {
      AddStatementsDistinct(defs, rules[0].statements);
      AddRulesDistinct(AddStatements(defs, rules[0].statements), rules[1..]);
    }
  }

  lemma {:induction false} AddStatementsAppend(defs: seq<DynSetDef>, a: seq<Statement>, b: seq<Statement>)
    ensures AddStatements(defs, a + b) == AddStatements(AddStatements(defs, a), b)
    decreases |a|
  {
    if a == [] {
      assert a + b == b;
    } else {
      assert (a + b)[1..] == a[1..] + b;
      var d := DynamicSet(a[0]);
      if d.None? || DeclaresDyn(defs, d.value.name) {
        AddStatementsAppend(defs, a[1..], b);
      } else {
        AddStatementsAppend(defs + [d.value], a[1..], b);
      }
    }
  }

  lemma {:induction false} AddRulesAppend(defs: seq<DynSetDef>, a: seq<Rule>, b: seq<Rule>)
    ensures AddRules(defs, a + b) == AddRules(AddRules(defs, a), b)
    decreases |a|
  {
    if a == [] {
      assert a + b == b;
    } else {
      assert (a + b)[1..] == a[1..] + b;
      AddRulesAppend(AddStatements(defs, a[0].statements), a[1..], b);
    }
  }

  /** Every ban statement of an enabled rule has its set declared. */
  lemma {:induction false} EveryBanDeclared(defs: seq<DynSetDef>, rules: seq<Rule>, r: Rule, st: Statement)
    requires r in rules && st in r.statements && DynamicSet(st).Some?
    ensures DeclaresDyn(AddRules(defs, rules), DynamicSet(st).value.name)
    decreases |rules|
  {
    var next := AddStatements(defs, rules[0].statements);
    if r == rules[0] {
      StatementDeclared(defs, rules[0].statements, st);
      var d :| d in next && d.name == DynamicSet(st).value.name;
      assert d in AddRules(next, rules[1..]);
    } else {
      EveryBanDeclared(next, rules[1..], r, st);
    }
  }

  lemma {:induction false} StatementDeclared(defs: seq<DynSetDef>, sts: seq<Statement>, st: Statement)
    requires st in sts && DynamicSet(st).Some?
    ensures DeclaresDyn(AddStatements(defs, sts), DynamicSet(st).value.name)
    decreases |sts|
  {
    var d := DynamicSet(sts[0]);
    var next := if d.None? || DeclaresDyn(defs, d.value.name) then defs else defs + [d.value];
    if st == sts[0] {
      if !DeclaresDyn(defs, d.value.name) {
        assert next[|defs|] == d.value;
      }
      var e :| e in next && e.name == d.value.name;
      assert e in AddStatements(next, sts[1..]);
    } else {
      StatementDeclared(next, sts[1..], st);
    }
  }

  // ── Which ban sets a table declares ───────────────────────────────────────

  lemma {:induction false} EnabledOfExactly(rules: seq<Rule>, r: Rule)
    ensures r in EnabledOf(rules) <==> r in rules && r.enabled
  {
    if rules != [] {
      EnabledOfExactly(rules[1..], r);
      assert rules == [rules[0]] + rules[1..];
    }
  }

  lemma {:induction false} EnabledRulesExactly(chains: seq<Chain>, r: Rule)
    ensures r in EnabledRules(chains) <==> exists c :: c in chains && r in c.rules && r.enabled
  {
    if chains != [] {
      EnabledRulesExactly(chains[1..], r);
      EnabledOfExactly(chains[0].rules, r);
      assert chains == [chains[0]] + chains[1..] && chains[0] in chains;
    }
  }

  /** A rate ban on a set of that name and family: IPv6 when it says so, else IPv4. */
  predicate BansInto(st: Statement, d: DynSetDef) {
    && st.key == "ban.rate" && IsIdentifier(d.name)
    && d.name == TrimSpace(if "set" in st.params then st.params["set"] else "")
    && (d.fam.V6? <==> TrimSpace(if "family" in st.params then st.params["family"] else "") == "ip6")
  }

  lemma DynamicSetExactly(st: Statement, d: DynSetDef)
    ensures DynamicSet(st) == Some(d) <==> BansInto(st, d)
  {
    hide TrimSpace, IsIdentifier;
  }

  lemma {:induction false} StatementOrigin(defs: seq<DynSetDef>, sts: seq<Statement>, d: DynSetDef)
    requires d in AddStatements(defs, sts)
    ensures d in defs || exists st :: st in sts && DynamicSet(st) == Some(d)
    decreases |sts|
  {
    hide DynamicSet;
    if sts != [] {
      var n := DynamicSet(sts[0]);
      assert sts[0] in sts && forall st :: st in sts[1..] ==> st in sts;
      StatementOrigin(if n.None? || DeclaresDyn(defs, n.value.name) then defs else defs + [n.value], sts[1..], d);
    }
  }

  lemma {:induction false} RuleOrigin(defs: seq<DynSetDef>, rules: seq<Rule>, d: DynSetDef)
    requires d in AddRules(defs, rules)
    ensures d in defs || exists r, st :: r in rules && st in r.statements && DynamicSet(st) == Some(d)
    decreases |rules|
  {
    hide DynamicSet;
    if rules != [] {
      assert rules[0] in rules && forall r :: r in rules[1..] ==> r in rules;
      RuleOrigin(AddStatements(defs, rules[0].statements), rules[1..], d);
      if d in AddStatements(defs, rules[0].statements) {
        StatementOrigin(defs, rules[0].statements, d);
      }
    }
  }

  /** A table declares exactly the ban sets its enabled rules ban into: each name once, with the family
      of a statement that bans into it. */
  lemma DeclaredBansExactly(t: Table, d: DynSetDef)
    ensures d in DynDefs(t) ==>
              exists c, r, st :: c in t.chains && r in c.rules && r.enabled && st in r.statements && BansInto(st, d)
    ensures (exists c, r, st :: c in t.chains && r in c.rules && r.enabled && st in r.statements && BansInto(st, d)) ==>
              DeclaresDyn(DynDefs(t), d.name)
    ensures DistinctDyn(DynDefs(t))
  {
    hide DynamicSet, AddRules, BansInto, EnabledRules;
    var rules := EnabledRules(t.chains);
    AddRulesDistinct([], rules);
    if d in DynDefs(t) {
      RuleOrigin([], rules, d);
      var r, st :| r in rules && st in r.statements && DynamicSet(st) == Some(d);
      DynamicSetExactly(st, d);
      EnabledRulesExactly(t.chains, r);
    }
    if c, r, st :| c in t.chains && r in c.rules && r.enabled && st in r.statements && BansInto(st, d) {
      DynamicSetExactly(st, d);
      EnabledRulesExactly(t.chains, r);
      EveryBanDeclared([], rules, r, st);
    }
  }

  // ── Referenced names ──────────────────────────────────────────────────────

  function TokenNames(value: seq<Token>): (s: set<string>) {
    set tok | tok in value && HasAt(tok.text) :: tok.text[1..]
  }

  function MatchNames(ms: seq<Match>): (s: set<string>) {
    if ms == [] then {} else TokenNames(ms[0].value) + MatchNames(ms[1..])
  }

  function RuleNames(rules: seq<Rule>): (s: set<string>) {
    if rules == [] then {} else MatchNames(rules[0].matches) + RuleNames(rules[1..])
  }

  // referencedSetNames: the @names in the matches of the table's enabled rules.
  function ReferencedNames(t: Table): (s: set<string>) {
    RuleNames(EnabledRules(t.chains))
  }

  lemma {:induction false} MatchNamesExactly(ms: seq<Match>, n: string)
    ensures n in MatchNames(ms) <==> exists m, tok :: m in ms && tok in m.value && tok.text == "@" + n
  {
    if ms != [] {
      MatchNamesExactly(ms[1..], n);
      assert ms == [ms[0]] + ms[1..] && ms[0] in ms;
      forall tok: Token ensures HasAt(tok.text) && tok.text[1..] == n <==> tok.text == "@" + n {
        if HasAt(tok.text) {
          assert tok.text == "@" + tok.text[1..];
        }
      }
    }
  }

  lemma {:induction false} RuleNamesExactly(rules: seq<Rule>, n: string)
    ensures n in RuleNames(rules) <==> exists r :: r in rules && n in MatchNames(r.matches)
  {
    hide MatchNames;
    if rules != [] {
      RuleNamesExactly(rules[1..], n);
      assert rules == [rules[0]] + rules[1..] && rules[0] in rules;
    }
  }

  /** The sets a table references: the names behind an @ in a condition of an enabled rule. */
  lemma ReferencedNamesExactly(t: Table, n: string)
    ensures n in ReferencedNames(t) <==>
              exists c, r, m, tok :: c in t.chains && r in c.rules && r.enabled && m in r.matches && tok in m.value && tok.text == "@" + n
  {
    hide MatchNames, RuleNames, EnabledRules;
    var rules := EnabledRules(t.chains);
    RuleNamesExactly(rules, n);
    forall r ensures r in rules <==> exists c :: c in t.chains && r in c.rules && r.enabled {
      EnabledRulesExactly(t.chains, r);
    }
    forall r: Rule ensures n in MatchNames(r.matches) <==> exists m, tok :: m in r.matches && tok in m.value && tok.text == "@" + n {
      MatchNamesExactly(r.matches, n);
    }
  }

  lemma {:induction false} MatchNamesAppend(a: seq<Match>, b: seq<Match>)
    ensures MatchNames(a + b) == MatchNames(a) + MatchNames(b)
  {
    if a == [] {
      assert a + b == b;
    } else {
      MatchNamesAppend(a[1..], b);
      assert (a + b)[1..] == a[1..] + b;
    }
  }

  lemma {:induction false} RuleNamesAppend(a: seq<Rule>, b: seq<Rule>)
    ensures RuleNames(a + b) == RuleNames(a) + RuleNames(b)
  {
    if a == [] {
      assert a + b == b;
    } else {
      RuleNamesAppend(a[1..], b);
      assert (a + b)[1..] == a[1..] + b;
    }
  }

  // ── Sorting names ─────────────────────────────────────────────────────────

  ghost predicate NamesAscend(s: seq<string>) {
    forall i, j :: 0 <= i < j < |s| ==> StringLess(s[i], s[j])
  }

  function InsertName(n: string, s: seq<string>): (r: seq<string>) {
    if s == [] || StringLess(n, s[0]) then [n] + s
    else if n == s[0] then s
    else [s[0]] + InsertName(n, s[1..])
  }

  // sort.Strings over distinct names.
  function SortNames(s: seq<string>): (r: seq<string>) {
    if s == [] then [] else InsertName(s[0], SortNames(s[1..]))
  }

  lemma {:induction false} InsertNameSorted(n: string, s: seq<string>)
    requires NamesAscend(s)
    ensures NamesAscend(InsertName(n, s))
    ensures forall q :: q in InsertName(n, s) <==> q == n || q in s
  {
    hide StringLess;
    if s == [] {
    } else if StringLess(n, s[0]) {
      forall i | 0 < i < |s| ensures StringLess(n, s[i]) {
        StringLessTransitive(n, s[0], s[i]);
      }
    } else if n == s[0] {
    } else {
      StringLessTotal(n, s[0]);
      InsertNameSorted(n, s[1..]);
      var rest := InsertName(n, s[1..]);
      assert s == [s[0]] + s[1..];
      var r := [s[0]] + rest;
      forall i, j | 0 <= i < j < |r| ensures StringLess(r[i], r[j]) {
        assert r[j] == rest[j - 1] && rest[j - 1] in rest;
        if i > 0 {
          assert r[i] == rest[i - 1];
        }
      }
    }
  }

  lemma {:induction false} SortNamesSorted(s: seq<string>)
    ensures NamesAscend(SortNames(s))
    ensures forall q :: q in SortNames(s) <==> q in s
  {
    if s != [] {
      SortNamesSorted(s[1..]);
      InsertNameSorted(s[0], SortNames(s[1..]));
      assert s == [s[0]] + s[1..];
    }
  }

  lemma {:induction false} NamesByContent(s: seq<string>, t: seq<string>)
    requires NamesAscend(s) && NamesAscend(t)
    requires forall q :: q in s <==> q in t
    ensures s == t
  {
    hide StringLess;
    SameEmpty(s, t);
    if s != [] {
      assert s[0] in t && t[0] in s;
      if s[0] != t[0] {
        StringLessTotal(s[0], t[0]);
        assert false;
      }
      StringLessTotal(s[0], s[0]);
      assert s == [s[0]] + s[1..] && t == [t[0]] + t[1..];
      forall q ensures q in s[1..] <==> q in t[1..] {
        if q in s[1..] {
          assert q in s && q != s[0];
        }
        if q in t[1..] {
          assert q in t && q != t[0];
        }
      }
      NamesByContent(s[1..], t[1..]);
    }
  }

  // The names in a set, sorted: any enumeration of the set sorts to the same sequence.
  ghost function SortedNames(s: set<string>): (r: seq<string>)
    ensures NamesAscend(r)
    ensures forall q :: q in r <==> q in s
  {
    if s == {} then []
    else
      var n :| n in s;
      var rest := SortedNames(s - {n});
      InsertNameSorted(n, rest);
      InsertName(n, rest)
  }

  // ── List-backed sets ──────────────────────────────────────────────────────

  function ByName(lists: seq<NamedList>): (m: map<string, NamedList>) {
    if lists == [] then map[] else ByName(lists[..|lists| - 1])[lists[|lists| - 1].name := lists[|lists| - 1]]
  }

  function BaseName(setName: string): (r: string)
    requires setName != ""
  {
    setName[..|setName| - 1]
  }

  // listForSet: office4 is the IPv4 half of list "office", office6 the IPv6 half.
  function ListForSet(byName: map<string, NamedList>, setName: string): (r: Option<(NamedList, Family)>) {
    if setName == "" then None
    else
      var suffix := setName[|setName| - 1];
      if suffix != '4' && suffix != '6' then None
      else if BaseName(setName) !in byName then None
      else Some((byName[BaseName(setName)], if suffix == '4' then V4 else V6))
  }

  datatype Element = Element(addr: Addr, text: Literal)

  function FamilyElements(entries: seq<Entry>, fam: Family): (r: seq<Element>) {
    if entries == [] then []
    else
      var p := EntryPrefix(entries[0].cidr);
      var rest := FamilyElements(entries[1..], fam);
      if p.Some? && p.value.addr.fam == fam then [Element(p.value.addr, entries[0].cidr)] + rest else rest
  }

  function InsertElement(e: Element, s: seq<Element>): (r: seq<Element>) {
    if s == [] || !AddrLess(s[0].addr, e.addr) then [e] + s else [s[0]] + InsertElement(e, s[1..])
  }

  function SortElements(s: seq<Element>): (r: seq<Element>) {
    if s == [] then [] else InsertElement(s[0], SortElements(s[1..]))
  }

  function Texts(s: seq<Element>): (r: seq<Literal>)
    ensures |r| == |s|
    ensures forall i :: 0 <= i < |s| ==> r[i] == s[i].text
  {
    seq(|s|, i requires 0 <= i < |s| => s[i].text)
  }

  // splitFamilies, one family at a time: the entries of that family, ascending by address.
  function SplitFamily(entries: seq<Entry>, fam: Family): (r: seq<Literal>) {
    Texts(SortElements(FamilyElements(entries, fam)))
  }

  lemma {:induction false} InsertElementContent(e: Element, s: seq<Element>)
    ensures forall x :: x in InsertElement(e, s) <==> x == e || x in s
  {
    if s != [] && AddrLess(s[0].addr, e.addr) {
      InsertElementContent(e, s[1..]);
      assert s == [s[0]] + s[1..];
    }
  }

  lemma {:induction false} SortElementsContent(s: seq<Element>)
    ensures forall x :: x in SortElements(s) <==> x in s
  {
    if s != [] {
      SortElementsContent(s[1..]);
      InsertElementContent(s[0], SortElements(s[1..]));
      assert s == [s[0]] + s[1..];
    }
  }

  ghost predicate Rising(s: seq<Element>) {
    forall i, j :: 0 <= i < j < |s| ==> !AddrLess(s[j].addr, s[i].addr)
  }

  lemma {:induction false} InsertElementRises(e: Element, s: seq<Element>)
    requires Rising(s)
    ensures Rising(InsertElement(e, s))
  {
    var r := InsertElement(e, s);
    if s != [] && AddrLess(s[0].addr, e.addr) {
      var rest := InsertElement(e, s[1..]);
      InsertElementRises(e, s[1..]);
      InsertElementContent(e, s[1..]);
      forall i, j | 0 <= i < j < |r| ensures !AddrLess(r[j].addr, r[i].addr) {
        assert r[j] == rest[j - 1] && rest[j - 1] in rest && (i > 0 ==> r[i] == rest[i - 1]);
        if i == 0 && r[j] != e {
          var k :| 0 <= k < |s[1..]| && s[1..][k] == r[j];
          assert s[k + 1] == r[j];
        }
      }
    } else {
      forall i, j | 0 <= i < j < |r| ensures !AddrLess(r[j].addr, r[i].addr) {
        assert r[j] == s[j - 1] && (i > 0 ==> r[i] == s[i - 1]);
      }
    }
  }

  /** The elements of a set are listed by ascending address. */
  lemma SplitFamilyRises(entries: seq<Entry>, fam: Family)
    ensures exists s: seq<Element> :: Rising(s) && SplitFamily(entries, fam) == Texts(s) &&
              forall x: Element :: x in s ==> EntryPrefix(x.text).Some? && EntryPrefix(x.text).value.addr == x.addr
  {
    var els := FamilyElements(entries, fam);
    var s := SortElements(els);
    SortElementsRises(els);
    SortElementsContent(els);
    forall x | x in s ensures EntryPrefix(x.text).Some? && EntryPrefix(x.text).value.addr == x.addr {
      FamilyElementsContent(entries, fam, x);
    }
    assert SplitFamily(entries, fam) == Texts(s);
  }

  lemma {:induction false} SortElementsRises(s: seq<Element>)
    ensures Rising(SortElements(s))
  {
    if s != [] {
      SortElementsRises(s[1..]);
      InsertElementRises(s[0], SortElements(s[1..]));
    }
  }

  lemma {:induction false} FamilyElementsContent(entries: seq<Entry>, fam: Family, x: Element)
    ensures x in FamilyElements(entries, fam) <==>
              && EntryPrefix(x.text).Some? && EntryPrefix(x.text).value.addr == x.addr && x.addr.fam == fam
              && exists e :: e in entries && e.cidr == x.text
  {
    if entries != [] {
      FamilyElementsContent(entries[1..], fam, x);
      assert entries == [entries[0]] + entries[1..];
    }
  }

  /** The elements are exactly the entries of the family. */
  lemma SplitFamilyContent(entries: seq<Entry>, fam: Family, l: Literal)
    ensures l in SplitFamily(entries, fam) <==>
              && EntryPrefix(l).Some? && EntryPrefix(l).value.addr.fam == fam
              && exists e :: e in entries && e.cidr == l
  {
    var els := FamilyElements(entries, fam);
    SortElementsContent(els);
    if l in SplitFamily(entries, fam) {
      var i :| 0 <= i < |SortElements(els)| && SplitFamily(entries, fam)[i] == l;
      assert SortElements(els)[i] in els;
      FamilyElementsContent(entries, fam, SortElements(els)[i]);
    }
    if EntryPrefix(l).Some? {
      var x := Element(EntryPrefix(l).value.addr, l);
      FamilyElementsContent(entries, fam, x);
      if x in els {
        var i :| 0 <= i < |SortElements(els)| && SortElements(els)[i] == x;
        assert SplitFamily(entries, fam)[i] == l;
      }
    }
  }

  function SetDefsFor(names: seq<string>, dyn: seq<DynSetDef>, byName: map<string, NamedList>): (r: seq<SetDef>) {
    if names == [] then []
    else
      var rest := SetDefsFor(names[1..], dyn, byName);
      var l := ListForSet(byName, names[0]);
      if DeclaresDyn(dyn, names[0]) || l.None? then rest
      else [SetDef(names[0], l.value.1, SplitFamily(l.value.0.entries, l.value.1))] + rest
  }

  lemma {:induction false} SetDefsForAppend(a: seq<string>, b: seq<string>, dyn: seq<DynSetDef>, byName: map<string, NamedList>)
    ensures SetDefsFor(a + b, dyn, byName) == SetDefsFor(a, dyn, byName) + SetDefsFor(b, dyn, byName)
  {
    hide SplitFamily, ListForSet, DeclaresDyn;
    if a == [] {
      assert a + b == b;
    } else {
      SetDefsForAppend(a[1..], b, dyn, byName);
      assert (a + b)[0] == a[0] && (a + b)[1..] == a[1..] + b;
      var l := ListForSet(byName, a[0]);
      if !DeclaresDyn(dyn, a[0]) && l.Some? {
        var d := SetDef(a[0], l.value.1, SplitFamily(l.value.0.entries, l.value.1));
        Assoc([d], SetDefsFor(a[1..], dyn, byName), SetDefsFor(b, dyn, byName));
      }
    }
  }

  ghost function ResolveTree(t: TableTree, lists: seq<NamedList>): (r: TableTree) {
    t.(sets := SetDefsFor(SortedNames(ReferencedNames(t.table)), t.dynSets, ByName(lists)))
  }

  // loadModel: ban sets are declared first, then the lists are resolved around them.
  ghost function Loaded(t: Table, lists: seq<NamedList>): (r: TableTree) {
    ResolveTree(TableTree(t, DynDefs(t), []), lists)
  }

  ghost function LoadModel(tables: seq<Table>, lists: seq<NamedList>): (r: seq<TableTree>)
    ensures |r| == |tables|
    ensures forall i :: 0 <= i < |tables| ==> r[i] == Loaded(tables[i], lists)
  {
    seq(|tables|, i requires 0 <= i < |tables| => Loaded(tables[i], lists))
  }

  /** A set is resolved under a name exactly when an enabled rule references it, no ban set
      owns the name, and it is the half of an existing list; and then with that half. */
  lemma {:induction false} SetDefsContent(names: seq<string>, dyn: seq<DynSetDef>, byName: map<string, NamedList>, d: SetDef)
    ensures d in SetDefsFor(names, dyn, byName) <==>
              && d.name in names && !DeclaresDyn(dyn, d.name)
              && ListForSet(byName, d.name).Some?
              && var (l, fam) := ListForSet(byName, d.name).value;
                 d == SetDef(d.name, fam, SplitFamily(l.entries, fam))
  {
    if names != [] {
      SetDefsContent(names[1..], dyn, byName, d);
      assert names == [names[0]] + names[1..];
    }
  }

  ghost predicate DistinctSets(sets: seq<SetDef>) {
    forall i, j :: 0 <= i < j < |sets| ==> sets[i].name != sets[j].name
  }

  ghost predicate DistinctNames(t: TableTree) {
    && DistinctDyn(t.dynSets)
    && DistinctSets(t.sets)
    && (forall d, s :: d in t.dynSets && s in t.sets ==> d.name != s.name)
  }

  lemma {:induction false} SetDefsDistinct(names: seq<string>, dyn: seq<DynSetDef>, byName: map<string, NamedList>)
    requires NamesAscend(names)
    ensures DistinctSets(SetDefsFor(names, dyn, byName))
  {
    hide StringLess;
    if names != [] {
      SetDefsDistinct(names[1..], dyn, byName);
      var rest := SetDefsFor(names[1..], dyn, byName);
      forall i | 0 <= i < |rest| ensures rest[i].name != names[0] {
        SetDefsContent(names[1..], dyn, byName, rest[i]);
        assert rest[i].name in names[1..];
        StringLessTotal(names[0], rest[i].name);
      }
    }
  }

  /** No table declares a set name twice, even when a ban set claims a list's name. */
  lemma LoadedNamesDistinct(t: Table, lists: seq<NamedList>)
    ensures DistinctNames(Loaded(t, lists))
  {
    var dyn := DynDefs(t);
    var names := SortedNames(ReferencedNames(t));
    AddRulesDistinct([], EnabledRules(t.chains));
    SetDefsDistinct(names, dyn, ByName(lists));
    forall d, s | d in dyn && s in Loaded(t, lists).sets ensures d.name != s.name {
      SetDefsContent(names, dyn, ByName(lists), s);
    }
  }

  // ── The passes over the loaded tables, in place ───────────────────────────

  method CollectNames(t: Table) returns (out: set<string>)
    ensures out == ReferencedNames(t)
  {
    hide EnabledOf, RuleNames;
    out := {};
    NoNames();
    for i := 0 to |t.chains|
      invariant out == RuleNames(EnabledRules(t.chains[..i]))
    {
      var names := CollectRules(t.chains[i].rules);
      out := out + names;
      assert t.chains[..i + 1] == t.chains[..i] + [t.chains[i]];
      EnabledRulesAppend(t.chains[..i], [t.chains[i]]);
      assert EnabledRules([t.chains[i]]) == EnabledOf(t.chains[i].rules);
      RuleNamesAppend(EnabledRules(t.chains[..i]), EnabledOf(t.chains[i].rules));
    }
    assert t.chains[..|t.chains|] == t.chains;
  }

  lemma NoNames()
    ensures RuleNames([]) == {}
  {}

  method CollectRules(rules: seq<Rule>) returns (out: set<string>)
    ensures out == RuleNames(EnabledOf(rules))
  {
    out := {};
    for j := 0 to |rules|
      invariant out == RuleNames(EnabledOf(rules[..j]))
    {
      assert rules[..j + 1] == rules[..j] + [rules[j]];
      EnabledOfAppend(rules[..j], [rules[j]]);
      RuleNamesAppend(EnabledOf(rules[..j]), EnabledOf([rules[j]]));
      if rules[j].enabled {
        var names := CollectMatches(rules[j].matches);
        out := out + names;
      }
    }
    assert rules[..|rules|] == rules;
  }

  method CollectMatches(ms: seq<Match>) returns (out: set<string>)
    ensures out == MatchNames(ms)
  {
    out := {};
    for k := 0 to |ms|
      invariant out == MatchNames(ms[..k])
    {
      assert ms[..k + 1] == ms[..k] + [ms[k]];
      MatchNamesAppend(ms[..k], [ms[k]]);
      var value := ms[k].value;
      ghost var before := out;
      for x := 0 to |value|
        invariant out == before + TokenNames(value[..x])
      {
        assert value[..x + 1] == value[..x] + [value[x]];
        if HasAt(value[x].text) {
          out := out + {value[x].text[1..]};
        }
      }
      assert value[..|value|] == value;
    }
    assert ms[..|ms|] == ms;
  }

  method SortSet(names: set<string>) returns (r: seq<string>)
    ensures r == SortedNames(names)
  {
    var rest, list := names, [];
    while rest != {}
      invariant forall q :: q in names <==> q in rest || q in list
      decreases rest
    {
      var n :| n in rest;
      list := list + [n];
      rest := rest - {n};
    }
    r := SortNames(list);
    SortNamesSorted(list);
    NamesByContent(r, SortedNames(names));
  }

  lemma NoRulesAdded()
    ensures AddRules([], EnabledRules([])) == []
  {}

  method CollectDynSets(chains: seq<Chain>) returns (defs: seq<DynSetDef>)
    ensures defs == AddRules([], EnabledRules(chains))
  {
    hide EnabledOf, AddRules;
    defs := [];
    NoRulesAdded();
    for c := 0 to |chains|
      invariant defs == AddRules([], EnabledRules(chains[..c]))
    {
      defs := CollectRuleBans(defs, chains[c].rules);
      assert chains[..c + 1] == chains[..c] + [chains[c]];
      EnabledRulesAppend(chains[..c], [chains[c]]);
      assert EnabledRules([chains[c]]) == EnabledOf(chains[c].rules);
      AddRulesAppend([], EnabledRules(chains[..c]), EnabledOf(chains[c].rules));
    }
    assert chains[..|chains|] == chains;
  }

  method CollectRuleBans(start: seq<DynSetDef>, rules: seq<Rule>) returns (defs: seq<DynSetDef>)
    ensures defs == AddRules(start, EnabledOf(rules))
  {
    defs := start;
    for j := 0 to |rules|
      invariant defs == AddRules(start, EnabledOf(rules[..j]))
    {
      assert rules[..j + 1] == rules[..j] + [rules[j]];
      EnabledOfAppend(rules[..j], [rules[j]]);
      AddRulesAppend(start, EnabledOf(rules[..j]), EnabledOf([rules[j]]));
      if rules[j].enabled {
        defs := CollectBans(defs, rules[j].statements);
      }
    }
    assert rules[..|rules|] == rules;
  }

  method CollectBans(start: seq<DynSetDef>, sts: seq<Statement>) returns (defs: seq<DynSetDef>)
    ensures defs == AddStatements(start, sts)
  {
    defs := start;
    for k := 0 to |sts|
      invariant defs == AddStatements(start, sts[..k])
    {
      assert sts[..k + 1] == sts[..k] + [sts[k]];
      AddStatementsAppend(start, sts[..k], [sts[k]]);
      var d := DynamicSet(sts[k]);
      if d.Some? && !DeclaresDyn(defs, d.value.name) {
        defs := defs + [d.value];
      }
    }
    assert sts[..|sts|] == sts;
  }

  method ResolveDynSets(m: array<TableTree>)
    modifies m
    ensures forall i :: 0 <= i < m.Length ==> m[i] == old(m[i]).(dynSets := DynDefs(old(m[i]).table))
  {
    for ti := 0 to m.Length
      invariant forall i :: 0 <= i < ti ==> m[i] == old(m[i]).(dynSets := DynDefs(old(m[i]).table))
      invariant forall i :: ti <= i < m.Length ==> m[i] == old(m[i])
    {
      var defs := CollectDynSets(m[ti].table.chains);
      m[ti] := m[ti].(dynSets := defs);
    }
  }

  method IndexByName(lists: seq<NamedList>) returns (byName: map<string, NamedList>)
    ensures byName == ByName(lists)
  {
    byName := map[];
    for i := 0 to |lists|
      invariant byName == ByName(lists[..i])
    {
      assert lists[..i + 1][..i] == lists[..i];
      byName := byName[lists[i].name := lists[i]];
    }
    assert lists[..|lists|] == lists;
  }

  method CollectSetDefs(names: seq<string>, dyn: seq<DynSetDef>, byName: map<string, NamedList>) returns (defs: seq<SetDef>)
    ensures defs == SetDefsFor(names, dyn, byName)
  {
    defs := [];
    for k := 0 to |names|
      invariant defs == SetDefsFor(names[..k], dyn, byName)
    {
      assert names[..k + 1] == names[..k] + [names[k]];
      SetDefsForAppend(names[..k], [names[k]], dyn, byName);
      var l := ListForSet(byName, names[k]);
      if !DeclaresDyn(dyn, names[k]) && l.Some? {
        defs := defs + [SetDef(names[k], l.value.1, SplitFamily(l.value.0.entries, l.value.1))];
      }
    }
    assert names[..|names|] == names;
  }

  method ResolveSets(m: array<TableTree>, lists: seq<NamedList>)
    modifies m
    ensures forall i :: 0 <= i < m.Length ==> m[i] == ResolveTree(old(m[i]), lists)
  {
    hide SetDefsFor, SortedNames, ByName, ReferencedNames;
    var byName := IndexByName(lists);
    for ti := 0 to m.Length
      invariant forall i :: 0 <= i < ti ==> m[i] == ResolveTree(old(m[i]), lists)
      invariant forall i :: ti <= i < m.Length ==> m[i] == old(m[i])
    {
      var refs := CollectNames(m[ti].table);
      var names := SortSet(refs);
      var defs := CollectSetDefs(names, m[ti].dynSets, byName);
      m[ti] := m[ti].(sets := defs);
    }
  }

  /** loadModel: both passes, in that order, over freshly assembled trees. */
  method LoadTrees(tables: seq<Table>, lists: seq<NamedList>) returns (out: seq<TableTree>)
    ensures out == LoadModel(tables, lists)
  {
    var m := new TableTree[|tables|](i requires 0 <= i < |tables| => TableTree(tables[i], [], []));
    ResolveDynSets(m);
    ResolveSets(m, lists);
    out := m[..];
  }
}
