/** Pushing a list change straight into the live sets instead of re-rendering
    (internal/web/listsync.go). */
module ListSync {
  import opened Wrappers
  import opened Addresses
  import opened Model
  import opened Lists
  import opened Sets
  import opened Kernel
  import opened Render

  // ── The delta between two entry snapshots ─────────────────────────────────

  function Cidrs(entries: seq<Entry>): (s: set<Literal>) {
    set e | e in entries :: e.cidr
  }

  function Missing(entries: seq<Entry>, from: set<Literal>): (r: seq<Literal>) {
    if entries == [] then []
    else if entries[0].cidr in from then Missing(entries[1..], from)
    else [entries[0].cidr] + Missing(entries[1..], from)
  }

  lemma {:induction false} MissingContent(entries: seq<Entry>, from: set<Literal>, l: Literal)
    ensures l in Missing(entries, from) <==> l in Cidrs(entries) && l !in from
  {
    if entries != [] {
      MissingContent(entries[1..], from, l);
      assert entries == [entries[0]] + entries[1..];
      assert Cidrs(entries) == {entries[0].cidr} + Cidrs(entries[1..]);
    }
  }

  lemma {:induction false} MissingAppend(a: seq<Entry>, b: seq<Entry>, from: set<Literal>)
    ensures Missing(a + b, from) == Missing(a, from) + Missing(b, from)
  {
    if a == [] {
      assert a + b == b;
    } else {
      MissingAppend(a[1..], b, from);
      assert (a + b)[0] == a[0] && (a + b)[1..] == a[1..] + b;
      Assoc([a[0].cidr], Missing(a[1..], from), Missing(b, from));
    }
  }

  method ListEntryDelta(before: seq<Entry>, after: seq<Entry>) returns (add: seq<Literal>, del: seq<Literal>)
    ensures add == Missing(after, Cidrs(before))
    ensures del == Missing(before, Cidrs(after))
  {
    var beforeSet: set<Literal> := {};
    for i := 0 to |before|
      invariant beforeSet == Cidrs(before[..i])
    {
      assert before[..i + 1] == before[..i] + [before[i]];
      beforeSet := beforeSet + {before[i].cidr};
    }
    assert before[..|before|] == before;
    var afterSet: set<Literal> := {};
    add := [];
    for i := 0 to |after|
      invariant afterSet == Cidrs(after[..i])
      invariant add == Missing(after[..i], beforeSet)
    {
      assert after[..i + 1] == after[..i] + [after[i]];
      MissingAppend(after[..i], [after[i]], beforeSet);
      afterSet := afterSet + {after[i].cidr};
      if after[i].cidr !in beforeSet {
        add := add + [after[i].cidr];
      }
    }
    assert after[..|after|] == after;
    del := [];
    for i := 0 to |before|
      invariant del == Missing(before[..i], afterSet)
    {
      assert before[..i + 1] == before[..i] + [before[i]];
      MissingAppend(before[..i], [before[i]], afterSet);
      if before[i].cidr !in afterSet {
        del := del + [before[i].cidr];
      }
    }
  }

  // ── Grouping by set ───────────────────────────────────────────────────────

  function SetName(listName: string, fam: Family): (n: string) {
    listName + (if fam.V4? then "4" else "6")
  }

  predicate InFamily(l: Literal, fam: Family) {
    EntryPrefix(l).Some? && EntryPrefix(l).value.addr.fam == fam
  }

  function OfFamily(cidrs: seq<Literal>, fam: Family): (r: seq<Literal>) {
    if cidrs == [] then []
    else if InFamily(cidrs[0], fam) then [cidrs[0]] + OfFamily(cidrs[1..], fam)
    else OfFamily(cidrs[1..], fam)
  }

  lemma {:induction false} OfFamilyContent(cidrs: seq<Literal>, fam: Family, l: Literal)
    ensures l in OfFamily(cidrs, fam) <==> l in cidrs && InFamily(l, fam)
  {
    hide InFamily;
    if cidrs != [] {
      OfFamilyContent(cidrs[1..], fam, l);
      assert cidrs == [cidrs[0]] + cidrs[1..];
    }
  }

  lemma {:induction false} OfFamilyAppend(a: seq<Literal>, b: seq<Literal>, fam: Family)
    ensures OfFamily(a + b, fam) == OfFamily(a, fam) + OfFamily(b, fam)
  {
    hide InFamily;
    if a == [] {
      assert a + b == b;
    } else {
      OfFamilyAppend(a[1..], b, fam);
      assert (a + b)[1..] == a[1..] + b;
    }
  }

  function Bucket(names: set<string>, listName: string, cidrs: seq<Literal>, fam: Family): (m: map<string, seq<Literal>>) {
    var n := SetName(listName, fam);
    if n in names && OfFamily(cidrs, fam) != [] then map[n := OfFamily(cidrs, fam)] else map[]
  }

  // groupBySet: a bucket for each half that is declared and has something to change.
  function Buckets(names: set<string>, listName: string, cidrs: seq<Literal>): (m: map<string, seq<Literal>>) {
    Bucket(names, listName, cidrs, V4) + Bucket(names, listName, cidrs, V6)
  }

  lemma BucketStep(names: set<string>, listName: string, cidrs: seq<Literal>, c: Literal, fam: Family)
    ensures Bucket(names, listName, cidrs + [c], fam) ==
              if !InFamily(c, fam) || SetName(listName, fam) !in names then Bucket(names, listName, cidrs, fam)
              else map[SetName(listName, fam) := OfFamily(cidrs, fam) + [c]]
  {
    hide InFamily;
    OfFamilyAppend(cidrs, [c], fam);
    assert OfFamily([c], fam) == if InFamily(c, fam) then [c] else [];
    assert OfFamily(cidrs, fam) + [] == OfFamily(cidrs, fam);
  }

  method GroupBySet(names: set<string>, listName: string, cidrs: seq<Literal>) returns (out: map<string, seq<Literal>>)
    ensures out == Buckets(names, listName, cidrs)
  {
    SetNamesDiffer(listName);
    out := map[];
    for i := 0 to |cidrs|
      invariant out == Buckets(names, listName, cidrs[..i])
    {
      assert cidrs[..i + 1] == cidrs[..i] + [cidrs[i]];
      BucketStep(names, listName, cidrs[..i], cidrs[i], V4);
      BucketStep(names, listName, cidrs[..i], cidrs[i], V6);
      var p := EntryPrefix(cidrs[i]);
      if p.Some? {
        var name := SetName(listName, p.value.addr.fam);
        if name in names {
          out := out[name := (if name in out then out[name] else []) + [cidrs[i]]];
        }
      }
    }
    assert cidrs[..|cidrs|] == cidrs;
  }

  lemma SetNamesDiffer(listName: string)
    ensures SetName(listName, V4) != SetName(listName, V6)
  {
    assert SetName(listName, V4)[|listName|] != SetName(listName, V6)[|listName|];
  }

  // ── The element commands of a push ────────────────────────────────────────

  datatype Order = Order(deleteSixFirst: bool, addSixFirst: bool)

  function Bulk(ref: TableRef, name: string, els: seq<Literal>, adding: bool): (c: Command) {
    if adding then AddElements(ref, name, map l | l in els :: Forever)
    else DeleteElements(ref, name, set l | l in els)
  }

  function One(ref: TableRef, names: set<string>, listName: string, cidrs: seq<Literal>, fam: Family, adding: bool): (s: seq<Command>) {
    var n := SetName(listName, fam);
    if n in names && OfFamily(cidrs, fam) != [] then [Bulk(ref, n, OfFamily(cidrs, fam), adding)] else []
  }

  // One pass over the buckets; the map's iteration order is not specified.
  function Both(ref: TableRef, names: set<string>, listName: string, cidrs: seq<Literal>, adding: bool, sixFirst: bool): (s: seq<Command>) {
    var four := One(ref, names, listName, cidrs, V4, adding);
    var six := One(ref, names, listName, cidrs, V6, adding);
    if sixFirst then six + four else four + six
  }

  function SetNames(t: TableTree): (s: set<string>) {
    set d | d in t.sets :: d.name
  }

  function TreeRef(t: TableTree): (r: TableRef) {
    TableRef(t.table.family, t.table.name)
  }

  // Deletions first, then additions, for one table.
  function PushTable(t: TableTree, listName: string, add: seq<Literal>, del: seq<Literal>, o: Order): (s: seq<Command>) {
    Both(TreeRef(t), SetNames(t), listName, del, false, o.deleteSixFirst) +
    Both(TreeRef(t), SetNames(t), listName, add, true, o.addSixFirst)
  }

  function PushAll(trees: seq<TableTree>, listName: string, add: seq<Literal>, del: seq<Literal>, order: nat -> Order): (s: seq<Command>) {
    if trees == [] then []
    else PushTable(trees[0], listName, add, del, order(|trees|)) + PushAll(trees[1..], listName, add, del, order)
  }

  // The commands of one pass over the buckets, in the order the map happened to yield.
  method BucketCommands(ref: TableRef, names: set<string>, l: string, cidrs: seq<Literal>, adding: bool, sixFirst: bool)
    returns (cmds: seq<Command>)
    ensures cmds == Both(ref, names, l, cidrs, adding, sixFirst)
  {
    SetNamesDiffer(l);
    var groups := GroupBySet(names, l, cidrs);
    var fams := if sixFirst then [V6, V4] else [V4, V6];
    cmds := [];
    for i := 0 to 2
      invariant cmds == if i == 0 then [] else if i == 1 then One(ref, names, l, cidrs, fams[0], adding)
                        else Both(ref, names, l, cidrs, adding, sixFirst)
    {
      var n := SetName(l, fams[i]);
      if n in groups {
        cmds := cmds + [Bulk(ref, n, groups[n], adding)];
      }
    }
  }

  method TableCommands(t: TableTree, l: string, add: seq<Literal>, del: seq<Literal>, o: Order) returns (cmds: seq<Command>)
    ensures cmds == PushTable(t, l, add, del, o)
  {
    var names: set<string> := set d | d in t.sets :: d.name;
    var dels := BucketCommands(TreeRef(t), names, l, del, false, o.deleteSixFirst);
    var adds := BucketCommands(TreeRef(t), names, l, add, true, o.addSixFirst);
    cmds := dels + adds;
  }

  // All commands of a push, table by table. They depend on the model alone, so they can be
  // listed before the first one runs.
  method PushCommands(trees: seq<TableTree>, l: string, add: seq<Literal>, del: seq<Literal>, order: nat -> Order) returns (cmds: seq<Command>)
    ensures cmds == PushAll(trees, l, add, del, order)
  {
    hide PushTable;
    cmds := [];
    for ti := 0 to |trees|
      invariant cmds + PushAll(trees[ti..], l, add, del, order) == PushAll(trees, l, add, del, order)
    {
      assert trees[ti..][0] == trees[ti] && trees[ti..][1..] == trees[ti + 1..];
      var table := TableCommands(trees[ti], l, add, del, order(|trees| - ti));
      cmds := cmds + table;
    }
  }

  // ── Being in sync ─────────────────────────────────────────────────────────

  // What a listing of the table shows apart from what the kernel filled in by itself.
  function Settled(b: Body): (r: Body) {
    b.(sets := map n | n in b.sets && !b.sets[n].kind.Meter? ::
         if b.sets[n].kind.Interval? then b.sets[n] else b.sets[n].(elems := map[]))
  }

  /** The kernel holds every rendered table exactly as rendered. */
  ghost predicate Matches(k: Ruleset, decls: seq<Decl>) {
    forall d :: d in decls ==> d.ref in k && Settled(k[d.ref]) == d.body
  }

  function Flat(fam: Family, els: set<Literal>): (s: LiveSet) {
    LiveSet(fam, Interval, map l | l in els :: Forever)
  }

  ghost predicate HoldsSet(k: Ruleset, ref: TableRef, name: string, s: LiveSet) {
    ref in k && name in k[ref].sets && k[ref].sets[name] == s
  }

  datatype Halves = Halves(four: set<Literal>, six: set<Literal>) {
    function Of(fam: Family): (s: set<Literal>) {
      if fam.V4? then four else six
    }

    function With(fam: Family, s: set<Literal>): (h: Halves) {
      if fam.V4? then this.(four := s) else this.(six := s)
    }
  }

  // The live halves of a list in one table, where the table declares them.
  ghost predicate HoldsHalves(k: Ruleset, ref: TableRef, names: set<string>, listName: string, h: Halves) {
    forall fam :: SetName(listName, fam) in names ==> HoldsSet(k, ref, SetName(listName, fam), Flat(fam, h.Of(fam)))
  }

  // Nothing but the declared halves of the list in this table differs.
  ghost predicate OnlyHalves(k: Ruleset, l: Ruleset, ref: TableRef, names: set<string>, listName: string) {
    && k.Keys == l.Keys
    && (forall r :: r in k && r != ref ==> k[r] == l[r])
    && (ref in k ==>
          && l[ref].flowtables == k[ref].flowtables && l[ref].chains == k[ref].chains
          && l[ref].sets.Keys == k[ref].sets.Keys
          && forall n :: n in k[ref].sets && !IsHalf(names, listName, n) ==> l[ref].sets[n] == k[ref].sets[n])
  }

  predicate IsHalf(names: set<string>, listName: string, n: string) {
    n in names && (n == SetName(listName, V4) || n == SetName(listName, V6))
  }

  function Changed(h: Halves, fam: Family, group: set<Literal>, adding: bool): (r: Halves) {
    h.With(fam, if adding then h.Of(fam) + group else h.Of(fam) - group)
  }

  function Group(cidrs: seq<Literal>, fam: Family): (s: set<Literal>) {
    set l | l in OfFamily(cidrs, fam)
  }

  /** One bucket's command goes through and changes just that half. */
  lemma OneRuns(k: Ruleset, ref: TableRef, names: set<string>, listName: string, cidrs: seq<Literal>, fam: Family, adding: bool, h: Halves)
    requires HoldsHalves(k, ref, names, listName, h)
    requires adding ==> SoundSet(Flat(fam, h.Of(fam) + Group(cidrs, fam)))
    requires !adding ==> Group(cidrs, fam) <= h.Of(fam)
    ensures var run := Run(k, One(ref, names, listName, cidrs, fam, adding));
            && run.Some?
            && HoldsHalves(run.value, ref, names, listName, Changed(h, fam, Group(cidrs, fam), adding))
            && OnlyHalves(k, run.value, ref, names, listName)
  {
    hide SoundSet, SetName, HoldsHalves, OnlyHalves;
    var n := SetName(listName, fam);
    var els := OfFamily(cidrs, fam);
    var h' := Changed(h, fam, Group(cidrs, fam), adding);
    if n in names && els != [] {
      BulkRuns(k, ref, names, listName, cidrs, fam, adding, h);
      PutHalf(k, ref, names, listName, h, fam, h'.Of(fam));
      assert h' == h.With(fam, h'.Of(fam));
    } else {
      NothingToDo(k, ref, names, listName, h, h', fam);
    }
  }

  lemma NothingToDo(k: Ruleset, ref: TableRef, names: set<string>, listName: string, h: Halves, h': Halves, fam: Family)
    requires HoldsHalves(k, ref, names, listName, h)
    requires h' == h.With(fam, h'.Of(fam))
    requires SetName(listName, fam) !in names || h' == h
    ensures HoldsHalves(k, ref, names, listName, h') && OnlyHalves(k, k, ref, names, listName)
  {}

  lemma BulkRuns(k: Ruleset, ref: TableRef, names: set<string>, listName: string, cidrs: seq<Literal>, fam: Family, adding: bool, h: Halves)
    requires HoldsHalves(k, ref, names, listName, h) && SetName(listName, fam) in names
    requires adding ==> SoundSet(Flat(fam, h.Of(fam) + Group(cidrs, fam)))
    requires !adding ==> Group(cidrs, fam) <= h.Of(fam)
    ensures ref in k
    ensures var n := SetName(listName, fam);
            Run(k, [Bulk(ref, n, OfFamily(cidrs, fam), adding)]) ==
              Some(WithSet(k, ref, n, Flat(fam, Changed(h, fam, Group(cidrs, fam), adding).Of(fam))))
  {
    hide SoundSet, SetName;
    var n := SetName(listName, fam);
    var els := OfFamily(cidrs, fam);
    var group := Group(cidrs, fam);
    assert HoldsSet(k, ref, n, Flat(fam, h.Of(fam)));
    var s := k[ref].sets[n];
    if adding {
      assert s.elems + (map l | l in els :: Forever) == Flat(fam, h.Of(fam) + group).elems;
    } else {
      assert s.elems - group == Flat(fam, h.Of(fam) - group).elems;
    }
    assert [Bulk(ref, n, els, adding)][1..] == [];
  }

  lemma PutHalf(k: Ruleset, ref: TableRef, names: set<string>, listName: string, h: Halves, fam: Family, els: set<Literal>)
    requires HoldsHalves(k, ref, names, listName, h) && SetName(listName, fam) in names && ref in k
    ensures var k' := WithSet(k, ref, SetName(listName, fam), Flat(fam, els));
            HoldsHalves(k', ref, names, listName, h.With(fam, els)) && OnlyHalves(k, k', ref, names, listName)
  {
    hide SetName, Flat;
    SetNamesDiffer(listName);
    assert HoldsSet(k, ref, SetName(listName, fam), Flat(fam, h.Of(fam)));
    var k' := WithSet(k, ref, SetName(listName, fam), Flat(fam, els));
    forall f | SetName(listName, f) in names
      ensures HoldsSet(k', ref, SetName(listName, f), Flat(f, h.With(fam, els).Of(f)))
    {
      assert HoldsSet(k, ref, SetName(listName, f), Flat(f, h.Of(f)));
      assert f == fam || SetName(listName, f) != SetName(listName, fam);
    }
  }

  lemma OnlyHalvesTransitive(k: Ruleset, l: Ruleset, m: Ruleset, ref: TableRef, names: set<string>, listName: string)
    requires OnlyHalves(k, l, ref, names, listName) && OnlyHalves(l, m, ref, names, listName)
    ensures OnlyHalves(k, m, ref, names, listName)
  {}

  // The elements a pass leaves, half by half.
  function PassEnd(h: Halves, cidrs: seq<Literal>, adding: bool): (r: Halves) {
    Changed(Changed(h, V4, Group(cidrs, V4), adding), V6, Group(cidrs, V6), adding)
  }

  lemma BothRun(k: Ruleset, ref: TableRef, names: set<string>, listName: string, cidrs: seq<Literal>, adding: bool, sixFirst: bool, h: Halves)
    requires HoldsHalves(k, ref, names, listName, h)
    requires adding ==> forall fam :: SoundSet(Flat(fam, h.Of(fam) + Group(cidrs, fam)))
    requires !adding ==> forall fam :: Group(cidrs, fam) <= h.Of(fam)
    ensures var run := Run(k, Both(ref, names, listName, cidrs, adding, sixFirst));
            && run.Some?
            && HoldsHalves(run.value, ref, names, listName, PassEnd(h, cidrs, adding))
            && OnlyHalves(k, run.value, ref, names, listName)
  {
    hide SoundSet, SetName, HoldsHalves, OnlyHalves, Run, One, Group, Flat;
    var first, second := if sixFirst then V6 else V4, if sixFirst then V4 else V6;
    var c1 := One(ref, names, listName, cidrs, first, adding);
    var c2 := One(ref, names, listName, cidrs, second, adding);
    OneRuns(k, ref, names, listName, cidrs, first, adding, h);
    var k1 := Run(k, c1).value;
    var h1 := Changed(h, first, Group(cidrs, first), adding);
    OneRuns(k1, ref, names, listName, cidrs, second, adding, h1);
    RunAppend(k, c1, c2);
    OnlyHalvesTransitive(k, k1, Run(k1, c2).value, ref, names, listName);
    assert Changed(h1, second, Group(cidrs, second), adding) == PassEnd(h, cidrs, adding);
  }

  // The elements a half of the list should hold.
  function HalfOf(entries: seq<Entry>, fam: Family): (s: set<Literal>) {
    set l | l in SplitFamily(entries, fam)
  }

  /** Within a family, deleting what left and adding what came turns the old elements into the
      new ones; what left was there. */
  lemma DeltaTurns(before: seq<Entry>, after: seq<Entry>, fam: Family)
    ensures var add := Missing(after, Cidrs(before));
            var del := Missing(before, Cidrs(after));
            && Group(del, fam) <= HalfOf(before, fam)
            && HalfOf(before, fam) - Group(del, fam) + Group(add, fam) == HalfOf(after, fam)
  {
    var add, del := Missing(after, Cidrs(before)), Missing(before, Cidrs(after));
    forall l
      ensures l in HalfOf(before, fam) <==> InFamily(l, fam) && l in Cidrs(before)
      ensures l in HalfOf(after, fam) <==> InFamily(l, fam) && l in Cidrs(after)
      ensures l in Group(add, fam) <==> InFamily(l, fam) && l in Cidrs(after) && l !in Cidrs(before)
      ensures l in Group(del, fam) <==> InFamily(l, fam) && l in Cidrs(before) && l !in Cidrs(after)
    {
      SplitFamilyContent(before, fam, l);
      SplitFamilyContent(after, fam, l);
      OfFamilyContent(add, fam, l);
      OfFamilyContent(del, fam, l);
      MissingContent(after, Cidrs(before), l);
      MissingContent(before, Cidrs(after), l);
    }
  }

  lemma HalfSound(entries: seq<Entry>, fam: Family)
    requires SoundList(entries)
    ensures SoundSet(Flat(fam, HalfOf(entries, fam)))
  {
    hide SoundSet, SplitFamily, SoundList;
    SoundBlock(entries, "", fam);
    assert SetBlock(SetDef("", fam, SplitFamily(entries, fam))) == Flat(fam, HalfOf(entries, fam));
  }

  // The old and the new list differ in one list's entries only.
  function Updated(lists: seq<NamedList>, i: nat, after: seq<Entry>): (r: seq<NamedList>)
    requires i < |lists|
  {
    lists[i := lists[i].(entries := after)]
  }

  ghost predicate DistinctLists(lists: seq<NamedList>) {
    forall i, j :: 0 <= i < j < |lists| ==> lists[i].name != lists[j].name
  }

  lemma {:induction false} ByNameAt(lists: seq<NamedList>, i: nat)
    requires DistinctLists(lists) && i < |lists|
    ensures lists[i].name in ByName(lists) && ByName(lists)[lists[i].name] == lists[i]
  {
    if i < |lists| - 1 {
      ByNameAt(lists[..|lists| - 1], i);
    }
  }

  lemma {:induction false} ByNameUpdated(lists: seq<NamedList>, i: nat, after: seq<Entry>)
    requires DistinctLists(lists) && i < |lists|
    ensures ByName(Updated(lists, i, after)) == ByName(lists)[lists[i].name := lists[i].(entries := after)]
  {
    var u := Updated(lists, i, after);
    var n := |lists| - 1;
    if i < n {
      ByNameUpdated(lists[..n], i, after);
      assert u[..n] == Updated(lists[..n], i, after);
    } else {
      assert u[..n] == lists[..n];
    }
  }

  /** Changing one list's entries changes the elements of its two sets and nothing else. */
  lemma ResolvedAfterUpdate(t: Table, lists: seq<NamedList>, i: nat, after: seq<Entry>, d: SetDef)
    requires DistinctLists(lists) && i < |lists|
    ensures var l := lists[i].name;
            var earlier, later := Loaded(t, lists), Loaded(t, Updated(lists, i, after));
            && later.table == earlier.table && later.dynSets == earlier.dynSets && SetNames(later) == SetNames(earlier)
            && (d in earlier.sets ==>
                  if d.name == SetName(l, d.fam)
                  then d.elements == SplitFamily(lists[i].entries, d.fam) && d.(elements := SplitFamily(after, d.fam)) in later.sets
                  else d in later.sets && d.name != SetName(l, V4) && d.name != SetName(l, V6))
  {
    hide SplitFamily;
    var l := lists[i].name;
    var names := SortedNames(ReferencedNames(t));
    var dyn := DynDefs(t);
    var m, m' := ByName(lists), ByName(Updated(lists, i, after));
    ByNameUpdated(lists, i, after);
    ByNameAt(lists, i);
    var earlier, later := Loaded(t, lists), Loaded(t, Updated(lists, i, after));
    forall n
      ensures ListForSet(m, n).Some? <==> ListForSet(m', n).Some?
      ensures n in SetNames(earlier) <==> n in names && !DeclaresDyn(dyn, n) && ListForSet(m, n).Some?
      ensures n in SetNames(later) <==> n in names && !DeclaresDyn(dyn, n) && ListForSet(m', n).Some?
    {
      NamesResolved(names, dyn, m, n);
      NamesResolved(names, dyn, m', n);
    }
    SetDefsContent(names, dyn, m, d);
    SetDefsContent(names, dyn, m', d);
    SetDefsContent(names, dyn, m', d.(elements := SplitFamily(after, d.fam)));
    if d in earlier.sets {
      SuffixOf(l, d.name);
    }
  }

  lemma NamesResolved(names: seq<string>, dyn: seq<DynSetDef>, m: map<string, NamedList>, n: string)
    ensures (exists d :: d in SetDefsFor(names, dyn, m) && d.name == n) <==>
              n in names && !DeclaresDyn(dyn, n) && ListForSet(m, n).Some?
  {
    hide SplitFamily;
    if d :| d in SetDefsFor(names, dyn, m) && d.name == n {
      SetDefsContent(names, dyn, m, d);
    }
    if n in names && !DeclaresDyn(dyn, n) && ListForSet(m, n).Some? {
      var (l, fam) := ListForSet(m, n).value;
      SetDefsContent(names, dyn, m, SetDef(n, fam, SplitFamily(l.entries, fam)));
    }
  }

  // A set name is a half of the list exactly when the list is its base name.
  lemma SuffixOf(l: string, n: string)
    requires n != ""
    ensures n == SetName(l, V4) <==> BaseName(n) == l && n[|n| - 1] == '4'
    ensures n == SetName(l, V6) <==> BaseName(n) == l && n[|n| - 1] == '6'
  {
    assert n == BaseName(n) + [n[|n| - 1]];
    assert BaseName(SetName(l, V4)) == l && BaseName(SetName(l, V6)) == l;
  }

  // ── One table, then all of them ───────────────────────────────────────────

  // The list whose entries change, and its place among the lists.
  datatype Change = Change(lists: seq<NamedList>, i: nat, after: seq<Entry>) {
    ghost predicate Ok() {
      DistinctLists(lists) && i < |lists| && SoundList(lists[i].entries) && SoundList(after)
    }

    function Name(): (n: string)
      requires i < |lists|
    {
      lists[i].name
    }

    function Before(): (b: seq<Entry>)
      requires i < |lists|
    {
      lists[i].entries
    }

    function Adds(): (a: seq<Literal>)
      requires i < |lists|
    {
      Missing(after, Cidrs(Before()))
    }

    function Dels(): (d: seq<Literal>)
      requires i < |lists|
    {
      Missing(Before(), Cidrs(after))
    }

    function New(): (l: seq<NamedList>)
      requires i < |lists|
    {
      Updated(lists, i, after)
    }
  }

  function HalvesOf(entries: seq<Entry>): (h: Halves) {
    Halves(HalfOf(entries, V4), HalfOf(entries, V6))
  }

  lemma FlatHalf(n: string, fam: Family, entries: seq<Entry>)
    ensures SetBlock(SetDef(n, fam, SplitFamily(entries, fam))) == Flat(fam, HalfOf(entries, fam))
  {
    hide SplitFamily;
    var els := SplitFamily(entries, fam);
    assert forall l :: l in els <==> l in HalfOf(entries, fam);
  }

  /** A table in sync holds the halves of every list as rendered. */
  lemma InSyncHalves(k: Ruleset, t: Table, c: Change)
    requires c.Ok() && Matches(k, [RenderTable(Loaded(t, c.lists))])
    ensures HoldsHalves(k, TableRef(t.family, t.name), SetNames(Loaded(t, c.lists)), c.Name(), HalvesOf(c.Before()))
  {
    hide SplitFamily, SoundList;
    var tree := Loaded(t, c.lists);
    var d := RenderTable(tree);
    LoadedNamesDistinct(t, c.lists);
    RenderedSets(tree);
    assert d in [d];
    forall fam | SetName(c.Name(), fam) in SetNames(tree)
      ensures HoldsSet(k, d.ref, SetName(c.Name(), fam), Flat(fam, HalvesOf(c.Before()).Of(fam)))
    {
      var s :| s in tree.sets && s.name == SetName(c.Name(), fam);
      ResolvedAfterUpdate(t, c.lists, c.i, c.after, s);
      SetNamesDiffer(c.Name());
      FlatHalf(s.name, s.fam, c.Before());
      HalfFamily(t, c, s, fam);
      assert d.body.sets[s.name] == SetBlock(s);
      assert Settled(k[d.ref]).sets[s.name] == SetBlock(s);
    }
  }

  lemma HalfFamily(t: Table, c: Change, s: SetDef, fam: Family)
    requires c.Ok() && s in Loaded(t, c.lists).sets && s.name == SetName(c.Name(), fam)
    ensures s.fam == fam && s.elements == SplitFamily(c.Before(), fam)
  {
    hide SplitFamily, SoundList;
    SetDefsContent(SortedNames(ReferencedNames(t)), DynDefs(t), ByName(c.lists), s);
    SuffixOf(c.Name(), s.name);
    ByNameAt(c.lists, c.i);
  }

  /** The halves the two passes leave are the new ones. */
  lemma PassesTurn(c: Change)
    requires c.Ok()
    ensures forall fam :: Group(c.Dels(), fam) <= HalvesOf(c.Before()).Of(fam)
    ensures PassEnd(PassEnd(HalvesOf(c.Before()), c.Dels(), false), c.Adds(), true) == HalvesOf(c.after)
    ensures forall fam :: PassEnd(HalvesOf(c.Before()), c.Dels(), false).Of(fam) + Group(c.Adds(), fam) == HalvesOf(c.after).Of(fam)
  {
    hide Group, HalfOf, SoundList;
    DeltaTurns(c.Before(), c.after, V4);
    DeltaTurns(c.Before(), c.after, V6);
  }

  lemma TablePushRuns(k: Ruleset, t: Table, c: Change, o: Order)
    requires c.Ok() && Matches(k, [RenderTable(Loaded(t, c.lists))])
    ensures var tree := Loaded(t, c.New());
            var run := Run(k, PushTable(tree, c.Name(), c.Adds(), c.Dels(), o));
            && run.Some?
            && HoldsHalves(run.value, TreeRef(tree), SetNames(tree), c.Name(), HalvesOf(c.after))
            && OnlyHalves(k, run.value, TreeRef(tree), SetNames(tree), c.Name())
  {
    hide SoundSet, Run, HoldsHalves, OnlyHalves, Both, Loaded, SoundList, PassEnd, HalvesOf, Flat, Matches, Group;
    var tree := Loaded(t, c.New());
    var ref, names := TreeRef(tree), SetNames(tree);
    var h := HalvesOf(c.Before());
    SameShape(t, c);
    InSyncHalves(k, t, c);
    PassesTurn(c);
    BothRun(k, ref, names, c.Name(), c.Dels(), false, o.deleteSixFirst, h);
    var dels := Both(ref, names, c.Name(), c.Dels(), false, o.deleteSixFirst);
    var adds := Both(ref, names, c.Name(), c.Adds(), true, o.addSixFirst);
    var k1 := Run(k, dels).value;
    var h1 := PassEnd(h, c.Dels(), false);
    forall fam ensures SoundSet(Flat(fam, h1.Of(fam) + Group(c.Adds(), fam))) {
      HalvesSound(c, fam);
    }
    BothRun(k1, ref, names, c.Name(), c.Adds(), true, o.addSixFirst, h1);
    RunAppend(k, dels, adds);
    OnlyHalvesTransitive(k, k1, Run(k1, adds).value, ref, names, c.Name());
  }

  lemma HalvesSound(c: Change, fam: Family)
    requires c.Ok()
    ensures SoundSet(Flat(fam, HalvesOf(c.after).Of(fam)))
  {
    hide SoundSet, SoundList;
    HalfSound(c.after, fam);
  }

  lemma SameShape(t: Table, c: Change)
    requires c.Ok()
    ensures Loaded(t, c.New()).table == t == Loaded(t, c.lists).table
    ensures Loaded(t, c.New()).dynSets == Loaded(t, c.lists).dynSets
    ensures SetNames(Loaded(t, c.New())) == SetNames(Loaded(t, c.lists))
  {
    hide SoundList, SplitFamily;
    ResolvedAfterUpdate(t, c.lists, c.i, c.after, SetDef("", V4, []));
  }

  /** Halves changed and everything else kept: the table now matches the new rendering. */
  lemma TableMatches(k: Ruleset, k': Ruleset, t: Table, c: Change)
    requires c.Ok() && Matches(k, [RenderTable(Loaded(t, c.lists))])
    requires var tree := Loaded(t, c.New());
             && HoldsHalves(k', TreeRef(tree), SetNames(tree), c.Name(), HalvesOf(c.after))
             && OnlyHalves(k, k', TreeRef(tree), SetNames(tree), c.Name())
    ensures Matches(k', [RenderTable(Loaded(t, c.New()))])
  {
    hide SplitFamily, SoundList, Loaded, DynBlocks, SetBlocks, Settled, HoldsHalves, HalvesOf;
    var ref := TableRef(t.family, t.name);
    var d' := RenderTable(Loaded(t, c.New()));
    SameShape(t, c);
    ShapeKept(k, k', t, c);
    forall n
      ensures n in Settled(k'[ref]).sets <==> n in d'.body.sets
      ensures n in d'.body.sets ==> Settled(k'[ref]).sets[n] == d'.body.sets[n]
    {
      SettledAt(k, k', t, c, n);
    }
    assert Settled(k'[ref]).sets == d'.body.sets;
  }

  lemma ShapeKept(k: Ruleset, k': Ruleset, t: Table, c: Change)
    requires c.Ok() && Matches(k, [RenderTable(Loaded(t, c.lists))])
    requires OnlyHalves(k, k', TableRef(t.family, t.name), SetNames(Loaded(t, c.New())), c.Name())
    ensures var ref := TableRef(t.family, t.name);
            var tree := Loaded(t, c.New());
            && tree.table == t && TreeRef(tree) == ref && ref in k && ref in k'
            && Settled(k'[ref]).flowtables == RenderTable(tree).body.flowtables
            && Settled(k'[ref]).chains == RenderTable(tree).body.chains
  {
    hide SplitFamily, SoundList, Loaded, SetBlock, HalfOf;
    SameShape(t, c);
    var d := RenderTable(Loaded(t, c.lists));
    assert d in [d];
  }

  lemma SettledAt(k: Ruleset, k': Ruleset, t: Table, c: Change, n: string)
    requires c.Ok() && Matches(k, [RenderTable(Loaded(t, c.lists))])
    requires var tree := Loaded(t, c.New());
             && HoldsHalves(k', TreeRef(tree), SetNames(tree), c.Name(), HalvesOf(c.after))
             && OnlyHalves(k, k', TreeRef(tree), SetNames(tree), c.Name())
    ensures var ref := TableRef(t.family, t.name);
            var body' := RenderTable(Loaded(t, c.New())).body;
            && ref in k'
            && (n in Settled(k'[ref]).sets <==> n in body'.sets)
            && (n in body'.sets ==> Settled(k'[ref]).sets[n] == body'.sets[n])
  {
    hide SplitFamily, SoundList, Loaded, DynBlocks, SetBlocks, HoldsHalves, HalvesOf;
    var ref := TableRef(t.family, t.name);
    var earlier, later := Loaded(t, c.lists), Loaded(t, c.New());
    SameShape(t, c);
    var d := RenderTable(earlier);
    assert d in [d];
    LoadedNamesDistinct(t, c.lists);
    LoadedNamesDistinct(t, c.New());
    SameNames(earlier, later, n);
    assert n in d.body.sets <==> n in Settled(k[ref]).sets;
    if n in k[ref].sets {
      SetKept(k, k', t, c, n);
    }
  }

  lemma SameNames(earlier: TableTree, later: TableTree, n: string)
    requires DistinctNames(earlier) && DistinctNames(later)
    requires earlier.dynSets == later.dynSets && SetNames(earlier) == SetNames(later)
    ensures n in RenderTable(earlier).body.sets <==> n in RenderTable(later).body.sets
  {
    RenderedSets(earlier);
    RenderedSets(later);
    assert n in SetNames(earlier) <==> exists d :: d in earlier.sets && d.name == n;
    assert n in SetNames(later) <==> exists d :: d in later.sets && d.name == n;
  }

  // One set: either a half of the list, now as rendered anew, or untouched and rendered alike.
  lemma SetKept(k: Ruleset, k': Ruleset, t: Table, c: Change, n: string)
    requires c.Ok() && Matches(k, [RenderTable(Loaded(t, c.lists))])
    requires var tree := Loaded(t, c.New());
             && HoldsHalves(k', TreeRef(tree), SetNames(tree), c.Name(), HalvesOf(c.after))
             && OnlyHalves(k, k', TreeRef(tree), SetNames(tree), c.Name())
    requires TableRef(t.family, t.name) in k && n in k[TableRef(t.family, t.name)].sets
    ensures var ref := TableRef(t.family, t.name);
            && ref in k' && n in k'[ref].sets
            && k'[ref].sets[n].kind == k[ref].sets[n].kind
            && (n in RenderTable(Loaded(t, c.New())).body.sets ==>
                  && n in Settled(k'[ref]).sets
                  && Settled(k'[ref]).sets[n] == RenderTable(Loaded(t, c.New())).body.sets[n])
  {
    hide SplitFamily, SoundList, Loaded, HalfOf, SetBlock;
    var ref := TableRef(t.family, t.name);
    var earlier, later := Loaded(t, c.lists), Loaded(t, c.New());
    var body, body' := RenderTable(earlier).body, RenderTable(later).body;
    var names := SetNames(later);
    SameShape(t, c);
    LoadedNamesDistinct(t, c.lists);
    LoadedNamesDistinct(t, c.New());
    RenderedSets(earlier);
    RenderedSets(later);
    assert RenderTable(earlier) in [RenderTable(earlier)];
    SameNames(earlier, later, n);
    if IsHalf(names, c.Name(), n) {
      var fam := if n == SetName(c.Name(), V4) then V4 else V6;
      assert HoldsSet(k', ref, n, Flat(fam, HalvesOf(c.after).Of(fam)));
      var s :| s in earlier.sets && s.name == n;
      HalfFamily(t, c, s, fam);
      ResolvedAfterUpdate(t, c.lists, c.i, c.after, s);
      FlatHalf(n, fam, c.after);
      FlatHalf(n, fam, c.Before());
      assert Settled(k[ref]).sets[n] == body.sets[n] == SetBlock(s);
    } else if n in body'.sets {
      assert n in Settled(k[ref]).sets;
      UntouchedBlock(t, c, n);
    }
  }

  lemma UntouchedBlock(t: Table, c: Change, n: string)
    requires c.Ok() && n in RenderTable(Loaded(t, c.lists)).body.sets && n in RenderTable(Loaded(t, c.New())).body.sets
    requires !IsHalf(SetNames(Loaded(t, c.New())), c.Name(), n)
    ensures RenderTable(Loaded(t, c.New())).body.sets[n] == RenderTable(Loaded(t, c.lists)).body.sets[n]
  {
    hide SplitFamily, SoundList, Loaded, SetBlock;
    var earlier, later := Loaded(t, c.lists), Loaded(t, c.New());
    SameShape(t, c);
    LoadedNamesDistinct(t, c.lists);
    LoadedNamesDistinct(t, c.New());
    RenderedSets(earlier);
    RenderedSets(later);
    if d :| d in earlier.dynSets && d.name == n {
    } else {
      var s :| s in earlier.sets && s.name == n;
      ResolvedAfterUpdate(t, c.lists, c.i, c.after, s);
      assert n in SetNames(earlier);
    }
  }

  ghost predicate DistinctTables(tables: seq<Table>) {
    forall i, j :: 0 <= i < j < |tables| ==> TableRef(tables[i].family, tables[i].name) != TableRef(tables[j].family, tables[j].name)
  }

  function TableRefs(tables: seq<Table>): (s: set<TableRef>) {
    set t | t in tables :: TableRef(t.family, t.name)
  }

  /** Pushing the delta refines re-rendering: from a kernel in sync with the old rendering every
      command goes through (no deletion names a missing element, no addition overlaps what
      remains), the kernel ends in sync with the new rendering, and no other table changes. */
  lemma {:induction false} PushRefinesRender(k: Ruleset, tables: seq<Table>, c: Change, order: nat -> Order)
    requires c.Ok() && DistinctTables(tables)
    requires Matches(k, Config(LoadModel(tables, c.lists)))
    ensures var run := Run(k, PushAll(LoadModel(tables, c.New()), c.Name(), c.Adds(), c.Dels(), order));
            && run.Some?
            && Matches(run.value, Config(LoadModel(tables, c.New())))
            && AgreeOutside(run.value, k, TableRefs(tables))
            && run.value.Keys == k.Keys
    decreases |tables|
  {
    hide Run, Loaded, RenderTable, PushTable, Settled, Matches, SoundList, DistinctLists, Config, AgreeOutside, DistinctTables, TableRefs;
    var trees := LoadModel(tables, c.New());
    if tables == [] {
      AgreeSelf(k, TableRefs(tables));
      RunNothing(k);
      NothingToMatch(k, c.New());
    } else {
      var rest := tables[1..];
      assert trees[1..] == LoadModel(rest, c.New());
      var cmds := PushTable(trees[0], c.Name(), c.Adds(), c.Dels(), order(|trees|));
      PushHead(k, tables, c, order(|trees|));
      DistinctTail(tables);
      var k1 := Run(k, cmds).value;
      PushRefinesRender(k1, rest, c, order);
      var tail := PushAll(trees[1..], c.Name(), c.Adds(), c.Dels(), order);
      RunAppend(k, cmds, tail);
      MatchesCons(k1, Run(k1, tail).value, tables, c.New());
      AgreeThrough(k, k1, Run(k1, tail).value, tables);
    }
  }

  lemma AgreeSelf(k: Ruleset, refs: set<TableRef>)
    ensures AgreeOutside(k, k, refs)
  {}

  lemma DistinctTail(tables: seq<Table>)
    requires tables != [] && DistinctTables(tables)
    ensures DistinctTables(tables[1..])
  {}

  lemma AgreeThrough(k: Ruleset, k1: Ruleset, k2: Ruleset, tables: seq<Table>)
    requires tables != []
    requires AgreeOutside(k1, k, {TableRef(tables[0].family, tables[0].name)})
    requires AgreeOutside(k2, k1, TableRefs(tables[1..]))
    ensures AgreeOutside(k2, k, TableRefs(tables))
  {
    assert tables[0] in tables;
    assert forall t :: t in tables[1..] ==> t in tables;
  }

  lemma NothingToMatch(k: Ruleset, lists: seq<NamedList>)
    ensures Matches(k, Config(LoadModel([], lists)))
  {}

  // The first table's commands bring it to the new rendering and leave the rest as it was.
  lemma PushHead(k: Ruleset, tables: seq<Table>, c: Change, o: Order)
    requires c.Ok() && tables != [] && DistinctTables(tables)
    requires Matches(k, Config(LoadModel(tables, c.lists)))
    ensures var run := Run(k, PushTable(Loaded(tables[0], c.New()), c.Name(), c.Adds(), c.Dels(), o));
            && run.Some?
            && Matches(run.value, [RenderTable(Loaded(tables[0], c.New()))])
            && Matches(run.value, Config(LoadModel(tables[1..], c.lists)))
            && AgreeOutside(run.value, k, {TableRef(tables[0].family, tables[0].name)})
            && run.value.Keys == k.Keys
  {
    hide Run, Loaded, RenderTable, PushTable, Settled, Matches, SoundList, DistinctLists, HoldsHalves;
    var t := tables[0];
    MatchesHead(k, tables, c.lists);
    TablePushRuns(k, t, c, o);
    var k1 := Run(k, PushTable(Loaded(t, c.New()), c.Name(), c.Adds(), c.Dels(), o)).value;
    TableMatches(k, k1, t, c);
    SameShape(t, c);
    MatchesElsewhere(k, k1, tables, c.lists);
  }

  lemma RunNothing(k: Ruleset)
    ensures Run(k, []) == Some(k)
  {}

  lemma RenderedRef(t: Table, lists: seq<NamedList>)
    ensures RenderTable(Loaded(t, lists)).ref == TableRef(t.family, t.name)
  {}

  lemma MatchesHead(k: Ruleset, tables: seq<Table>, lists: seq<NamedList>)
    requires tables != [] && Matches(k, Config(LoadModel(tables, lists)))
    ensures Matches(k, [RenderTable(Loaded(tables[0], lists))])
  {
    hide Loaded, RenderTable, Settled;
    assert Config(LoadModel(tables, lists))[0] == RenderTable(Loaded(tables[0], lists));
  }

  lemma MatchesElsewhere(k: Ruleset, k1: Ruleset, tables: seq<Table>, lists: seq<NamedList>)
    requires tables != [] && DistinctTables(tables) && Matches(k, Config(LoadModel(tables, lists)))
    requires k.Keys == k1.Keys && forall r :: r in k && r != TableRef(tables[0].family, tables[0].name) ==> k[r] == k1[r]
    ensures Matches(k1, Config(LoadModel(tables[1..], lists)))
  {
    hide Loaded, RenderTable, Settled;
    var decls := Config(LoadModel(tables, lists));
    var rest := Config(LoadModel(tables[1..], lists));
    forall d | d in rest ensures d.ref in k1 && Settled(k1[d.ref]) == d.body {
      var j :| 0 <= j < |rest| && rest[j] == d;
      assert d == decls[j + 1];
      RenderedRef(tables[j + 1], lists);
    }
  }

  lemma MatchesCons(k1: Ruleset, k2: Ruleset, tables: seq<Table>, lists: seq<NamedList>)
    requires tables != [] && DistinctTables(tables)
    requires Matches(k1, [RenderTable(Loaded(tables[0], lists))])
    requires Matches(k2, Config(LoadModel(tables[1..], lists)))
    requires AgreeOutside(k2, k1, TableRefs(tables[1..]))
    ensures Matches(k2, Config(LoadModel(tables, lists)))
  {
    hide Loaded, RenderTable, Settled;
    var decls := Config(LoadModel(tables, lists));
    var rest := Config(LoadModel(tables[1..], lists));
    var d0 := RenderTable(Loaded(tables[0], lists));
    RenderedRef(tables[0], lists);
    assert d0 in [d0];
    assert d0.ref !in TableRefs(tables[1..]);
    forall d | d in decls ensures d.ref in k2 && Settled(k2[d.ref]) == d.body {
      var j :| 0 <= j < |decls| && decls[j] == d;
      if j > 0 {
        assert d == rest[j - 1];
      }
    }
  }
}
