/** What a loaded model renders to, as structured blocks rather than text
    (internal/render/render.go). */
module Render {
  import opened Wrappers
  import opened Selection
  import opened Addresses
  import opened Strings
  import opened Model
  import opened Lists
  import opened Sets
  import opened Kernel

  // renderRule: a raw rule is its line, any other rule its conditions and actions; tags and
  // disabled rules never render, nor does a rule with nothing to say.
  function RenderRule(r: Rule): (s: seq<Rule>) {
    if IsRaw(r) then [Rule(TrimSpace(r.comment), true, TrimSpace(r.raw), "", [], [])]
    else if r.matches == [] && r.statements == [] then []
    else [Rule(TrimSpace(r.comment), true, "", "", r.matches, r.statements)]
  }

  function RenderRules(rules: seq<Rule>): (s: seq<Rule>) {
    if rules == [] then []
    else (if rules[0].enabled then RenderRule(rules[0]) else []) + RenderRules(rules[1..])
  }

  function RenderChains(chains: seq<Chain>): (s: seq<Chain>) {
    if chains == [] then [] else [chains[0].(rules := RenderRules(chains[0].rules))] + RenderChains(chains[1..])
  }

  function DynBlocks(defs: seq<DynSetDef>): (m: map<string, LiveSet>) {
    map d | d in (set x | x in defs :: x.name) :: LiveSet(DynFamily(defs, d), BanSet, map[])
  }

  function DynFamily(defs: seq<DynSetDef>, name: string): (f: Family) {
    if defs == [] || defs[0].name == name then (if defs == [] then V4 else defs[0].fam)
    else DynFamily(defs[1..], name)
  }

  function SetBlock(d: SetDef): (s: LiveSet) {
    LiveSet(d.fam, Interval, map l | l in d.elements :: Forever)
  }

  function SetBlocks(defs: seq<SetDef>): (m: map<string, LiveSet>) {
    if defs == [] then map[] else SetBlocks(defs[1..])[defs[0].name := SetBlock(defs[0])]
  }

  function RenderTable(t: TableTree): (d: Decl) {
    Decl(
      TableRef(t.table.family, t.table.name),
      Body(t.table.flowtables, RenderChains(t.table.chains), DynBlocks(t.dynSets) + SetBlocks(t.sets)))
  }

  // Config: every owned table, in order.
  function Config(trees: seq<TableTree>): (c: seq<Decl>)
    ensures |c| == |trees|
    ensures forall i :: 0 <= i < |c| ==> c[i] == RenderTable(trees[i])
  {
    seq(|trees|, i requires 0 <= i < |trees| => RenderTable(trees[i]))
  }

  // ── Which rules render, and as what ───────────────────────────────────────

  /** An enabled rule with something to say: a raw line, a condition or a statement. */
  predicate Speaks(r: Rule) {
    r.enabled && (TrimSpace(r.raw) != "" || r.matches != [] || r.statements != [])
  }

  /** The rendered rule says what the rule says: its raw line alone, or its conditions and
      statements. */
  predicate SaysSame(r: Rule, q: Rule) {
    && q.enabled && q.comment == TrimSpace(r.comment) && q.tags == ""
    && if TrimSpace(r.raw) != "" then q.raw == TrimSpace(r.raw) && q.matches == [] && q.statements == []
       else q.raw == "" && q.matches == r.matches && q.statements == r.statements
  }

  ghost predicate RendersChain(c: Chain, d: Chain) {
    && d.name == c.name && d.kind == c.kind && d.hook == c.hook && d.chainType == c.chainType
    && d.priority == c.priority && d.policy == c.policy && d.device == c.device
    && Filters(c.rules, d.rules, Speaks, SaysSame)
  }

  /** The block holds the table's flowtables, and its chains one for one. */
  ghost predicate RendersTable(t: Table, b: Body) {
    && b.flowtables == t.flowtables && |b.chains| == |t.chains|
    && forall i :: 0 <= i < |t.chains| ==> RendersChain(t.chains[i], b.chains[i])
  }

  // Exactly the rules that speak, in order.
  lemma {:induction false} RulesRender(rules: seq<Rule>)
    ensures Filters(rules, RenderRules(rules), Speaks, SaysSame)
  {
    hide Filters;
    if rules == [] {
      FiltersNothing<Rule, Rule>(Speaks, SaysSame);
    } else {
      RulesRender(rules[1..]);
      var line := if rules[0].enabled then RenderRule(rules[0]) else [];
      FiltersCons(rules[0], rules[1..], line, RenderRules(rules[1..]), Speaks, SaysSame);
      assert [rules[0]] + rules[1..] == rules;
    }
  }

  lemma {:induction false} ChainsRender(chains: seq<Chain>)
    ensures |RenderChains(chains)| == |chains|
    ensures forall i :: 0 <= i < |chains| ==> RendersChain(chains[i], RenderChains(chains)[i])
  {
    hide Filters;
    if chains != [] {
      ChainsRender(chains[1..]);
      RulesRender(chains[0].rules);
      forall i | 0 <= i < |chains| ensures RendersChain(chains[i], RenderChains(chains)[i]) {
        if i > 0 {
          assert chains[1..][i - 1] == chains[i] && RenderChains(chains)[i] == RenderChains(chains[1..])[i - 1];
        }
      }
    }
  }

  /** What a model renders to: for each of its tables, in order, the block of that name, with the
      table's flowtables, its chains one for one, and in each chain exactly the enabled rules that
      have something to say, in order, saying the same. */
  lemma ModelRenders(tables: seq<Table>, lists: seq<NamedList>)
    ensures var c := Config(LoadModel(tables, lists));
            && |c| == |tables|
            && forall i :: 0 <= i < |tables| ==>
                 c[i].ref == TableRef(tables[i].family, tables[i].name) && RendersTable(tables[i], c[i].body)
  {
    hide RendersChain;
    forall i | 0 <= i < |tables| ensures RendersTable(tables[i], Config(LoadModel(tables, lists))[i].body) {
      ChainsRender(tables[i].chains);
    }
  }

  /** The ruleset holds every table of the model, rendered. */
  ghost predicate HoldsTables(k: Ruleset, tables: seq<Table>) {
    forall i :: 0 <= i < |tables| ==>
      var ref := TableRef(tables[i].family, tables[i].name);
      ref in k && RendersTable(tables[i], k[ref])
  }

  lemma {:induction false} DynFamilyOf(defs: seq<DynSetDef>, i: nat)
    requires DistinctDyn(defs) && i < |defs|
    ensures DynFamily(defs, defs[i].name) == defs[i].fam
  {
    if i > 0 {
      DynFamilyOf(defs[1..], i - 1);
    }
  }

  lemma DistinctTail(defs: seq<SetDef>)
    requires defs != [] && DistinctSets(defs)
    ensures DistinctSets(defs[1..])
    ensures forall d :: d in defs[1..] ==> d.name != defs[0].name
  {
    forall d | d in defs[1..] ensures d.name != defs[0].name {
      var i :| 0 <= i < |defs[1..]| && defs[1..][i] == d;
      assert defs[i + 1] == d;
    }
  }

  lemma {:induction false} SetBlocksContent(defs: seq<SetDef>)
    requires DistinctSets(defs)
    ensures SetBlocks(defs).Keys == set d | d in defs :: d.name
    ensures forall d :: d in defs ==> SetBlocks(defs)[d.name] == SetBlock(d)
  {
    hide SetBlock, DistinctSets;
    if defs != [] {
      DistinctTail(defs);
      SetBlocksContent(defs[1..]);
      assert defs == [defs[0]] + defs[1..];
    }
  }

  /** The declared sets of a rendered table are its ban sets and its list-backed sets. */
  lemma RenderedSets(t: TableTree)
    requires DistinctNames(t)
    ensures forall d :: d in t.dynSets ==>
              d.name in RenderTable(t).body.sets && RenderTable(t).body.sets[d.name] == LiveSet(d.fam, BanSet, map[])
    ensures forall d :: d in t.sets ==>
              d.name in RenderTable(t).body.sets && RenderTable(t).body.sets[d.name] == SetBlock(d)
    ensures forall n :: n in RenderTable(t).body.sets ==>
              (exists d :: d in t.dynSets && d.name == n) || (exists d :: d in t.sets && d.name == n)
  {
    hide SetBlock;
    SetBlocksContent(t.sets);
    forall d | d in t.dynSets
      ensures d.name in RenderTable(t).body.sets && RenderTable(t).body.sets[d.name] == LiveSet(d.fam, BanSet, map[])
    {
      var i :| 0 <= i < |t.dynSets| && t.dynSets[i] == d;
      DynFamilyOf(t.dynSets, i);
    }
  }

  // ── Sound lists render to blocks the kernel accepts ───────────────────────

  ghost predicate SoundList(entries: seq<Entry>) {
    && (forall i :: 0 <= i < |entries| ==> Canonical(entries[i].cidr))
    && (forall i, j :: 0 <= i < j < |entries| ==> !Collide(entries[i].cidr, entries[j].cidr))
  }

  ghost predicate SoundLists(lists: seq<NamedList>) {
    forall l :: l in lists ==> SoundList(l.entries)
  }

  /** What the row operations keep about a list is what rendering needs of it. */
  lemma {:induction false} StoredListSound(rows: seq<Entry>, listId: nat)
    requires ListsSound(rows)
    ensures SoundList(EntriesOf(rows, listId))
  {
    hide Canonical, Collide;
    if rows != [] {
      SoundTail(rows);
      StoredListSound(rows[1..], listId);
      if rows[0].listId == listId {
        SoundListCons(rows[0], EntriesOf(rows[1..], listId));
      }
    }
  }

  lemma SoundListCons(e: Entry, rest: seq<Entry>)
    requires SoundList(rest) && Canonical(e.cidr)
    requires forall f :: f in rest ==> !Collide(e.cidr, f.cidr)
    ensures SoundList([e] + rest)
  {
    hide Canonical, Collide;
    var s := [e] + rest;
    forall i, j | 0 <= i < j < |s| ensures !Collide(s[i].cidr, s[j].cidr) {
      assert s[j] == rest[j - 1] && rest[j - 1] in rest;
      if i > 0 {
        assert s[i] == rest[i - 1];
      }
    }
  }

  lemma SoundBlock(entries: seq<Entry>, name: string, fam: Family)
    requires SoundList(entries)
    ensures SoundSet(SetBlock(SetDef(name, fam, SplitFamily(entries, fam))))
  {
    hide Canonical, Overlaps, SplitFamily;
    var b := SetBlock(SetDef(name, fam, SplitFamily(entries, fam)));
    forall l | l in b.elems ensures LiteralFamily(l) == Some(fam) {
      SplitFamilyContent(entries, fam, l);
    }
    forall l, m | l in b.elems && m in b.elems && l != m ensures !Collide(l, m) {
      SplitFamilyContent(entries, fam, l);
      SplitFamilyContent(entries, fam, m);
      var e :| e in entries && e.cidr == l;
      var f :| f in entries && f.cidr == m;
      var i :| 0 <= i < |entries| && entries[i] == e;
      var j :| 0 <= j < |entries| && entries[j] == f;
      CollideSymmetric(l, m);
    }
  }

  lemma {:induction false} ByNameIsList(lists: seq<NamedList>, n: string)
    requires n in ByName(lists)
    ensures ByName(lists)[n] in lists && ByName(lists)[n].name == n
  {
    if lists[|lists| - 1].name != n {
      ByNameIsList(lists[..|lists| - 1], n);
    }
  }

  lemma LoadedTableSound(t: Table, lists: seq<NamedList>)
    requires SoundLists(lists)
    ensures SoundBody(RenderTable(Loaded(t, lists)).body)
  {
    hide SoundSet, SetBlock, SplitFamily, SoundList;
    var tree := Loaded(t, lists);
    LoadedNamesDistinct(t, lists);
    RenderedSets(tree);
    var body := RenderTable(tree).body;
    forall n | n in body.sets ensures SoundSet(body.sets[n]) {
      if d :| d in tree.dynSets && d.name == n {
        EmptySound(d.fam);
      } else {
        var d :| d in tree.sets && d.name == n;
        SetDefsContent(SortedNames(ReferencedNames(t)), tree.dynSets, ByName(lists), d);
        var l := ListForSet(ByName(lists), n).value;
        ByNameIsList(lists, BaseName(n));
        SoundBlock(l.0.entries, n, l.1);
      }
    }
  }

  lemma EmptySound(fam: Family)
    ensures SoundSet(LiveSet(fam, BanSet, map[]))
  {}

  /** A model with sound lists always renders to tables the kernel accepts. */
  lemma ConfigSound(tables: seq<Table>, lists: seq<NamedList>)
    requires SoundLists(lists)
    ensures SoundDecls(Config(LoadModel(tables, lists)))
  {
    hide SoundBody, RenderTable, Loaded;
    var c := Config(LoadModel(tables, lists));
    forall d | d in c ensures SoundBody(d.body) {
      var i :| 0 <= i < |c| && c[i] == d;
      LoadedTableSound(tables[i], lists);
    }
  }
}
