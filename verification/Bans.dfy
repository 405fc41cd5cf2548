/** Carrying the kernel's live bans across an apply (internal/nft/sets.go). */
module Bans {
  import opened Wrappers
  import opened Addresses
  import opened Model
  import opened Lists
  import opened Sets
  import opened Kernel
  import opened Render

  /** One set object of `nft -j list ruleset`. */
  datatype ListedSet = ListedSet(ref: TableRef, name: string, live: LiveSet)

  datatype SetKey = SetKey(ref: TableRef, name: string)

  function KeyOf(item: ListedSet): SetKey {
    SetKey(item.ref, item.name)
  }

  ghost predicate DistinctKeys(doc: seq<ListedSet>) {
    forall i, j :: 0 <= i < j < |doc| ==> KeyOf(doc[i]) != KeyOf(doc[j])
  }

  /** The listing shows exactly the sets of the ruleset, each once. */
  ghost predicate Shows(doc: seq<ListedSet>, k: Ruleset) {
    && DistinctKeys(doc)
    && (forall item :: item in doc ==> item.ref in k && item.name in k[item.ref].sets && k[item.ref].sets[item.name] == item.live)
    && (forall r, n :: r in k && n in k[r].sets ==> ListedSet(r, n, k[r].sets[n]) in doc)
  }

  // banElement: the remaining time in whole seconds; none left reads as permanent.
  function CarriedLife(life: Life): (r: Life) {
    match life
    case Forever => Forever
    case Remaining(secs) => if secs.Floor > 0 then Remaining(secs.Floor as real) else Forever
  }

  // decodeElemAddr: addresses and prefixes can be re-added, a range cannot.
  function Carried(elems: map<Literal, Life>): (r: map<Literal, Life>) {
    map l | l in elems && !l.Span? :: CarriedLife(elems[l])
  }

  // The condition under which buildPreservedElements emits a statement for a set.
  predicate Emits(item: ListedSet, keep: set<SetKey>) {
    item.live.kind == BanSet && KeyOf(item) in keep && Carried(item.live.elems) != map[]
  }

  function BuildPreserved(doc: seq<ListedSet>, keep: set<SetKey>): (s: seq<Command>) {
    if doc == [] then []
    else
      (if Emits(doc[0], keep) then [AddElements(doc[0].ref, doc[0].name, Carried(doc[0].live.elems))] else []) +
      BuildPreserved(doc[1..], keep)
  }

  lemma {:induction false} BuildPreservedAppend(a: seq<ListedSet>, b: seq<ListedSet>, keep: set<SetKey>)
    ensures BuildPreserved(a + b, keep) == BuildPreserved(a, keep) + BuildPreserved(b, keep)
  {
    hide Emits, Carried;
    if a == [] {
      assert a + b == b;
    } else {
      BuildPreservedAppend(a[1..], b, keep);
      assert (a + b)[0] == a[0] && (a + b)[1..] == a[1..] + b;
      var first := if Emits(a[0], keep) then [AddElements(a[0].ref, a[0].name, Carried(a[0].live.elems))] else [];
      Assoc(first, BuildPreserved(a[1..], keep), BuildPreserved(b, keep));
    }
  }

  method BuildPreservedElements(doc: seq<ListedSet>, keep: set<SetKey>) returns (b: seq<Command>)
    ensures b == BuildPreserved(doc, keep)
  {
    b := [];
    for i := 0 to |doc|
      invariant b == BuildPreserved(doc[..i], keep)
    {
      assert doc[..i + 1] == doc[..i] + [doc[i]];
      BuildPreservedAppend(doc[..i], [doc[i]], keep);
      if doc[i].live.kind == BanSet && KeyOf(doc[i]) in keep {
        var elems := Carried(doc[i].live.elems);
        if elems != map[] {
          b := b + [AddElements(doc[i].ref, doc[i].name, elems)];
        }
      }
    }
    assert doc[..|doc|] == doc;
  }

  /** A ban keeps its length in whole seconds, or stays permanent, exactly when it is permanent
      or has at least a second left. A shorter one comes back as a permanent ban. */
  lemma LifeKeptExactly(life: Life)
    requires life.Remaining? ==> life.secs > 0.0
    ensures (life.Forever? || life.secs >= 1.0) <==>
              match life
              case Forever => CarriedLife(life).Forever?
              case Remaining(secs) => CarriedLife(life).Remaining? && CarriedLife(life).secs == secs.Floor as real
  {
    if life.Remaining? {
      FloorPositive(life.secs);
    }
  }

  /** Every banned address and prefix is carried over, and nothing else; a ban with at least a second
      left for the whole seconds left, any other for good. */
  lemma CarriedExactly(elems: map<Literal, Life>, l: Literal)
    ensures l in Carried(elems) <==> l in elems && !l.Span?
    ensures l in Carried(elems) ==>
              match elems[l]
              case Forever => Carried(elems)[l] == Forever
              case Remaining(s) =>
                if s < 1.0 then Carried(elems)[l] == Forever
                else Carried(elems)[l].Remaining? && var whole := Carried(elems)[l].secs; whole <= s < whole + 1.0 && whole == whole.Floor as real
  {}

  lemma FloorPositive(x: real)
    requires x > 0.0
    ensures x.Floor > 0 <==> x >= 1.0
  {}

  lemma ShortBanBecomesPermanent()
    ensures CarriedLife(Remaining(0.5)) == Forever
  {
    FloorPositive(0.5);
  }

  // The ban-set keys of the model being applied.
  function KeepOf(trees: seq<TableTree>): (s: set<SetKey>) {
    if trees == [] then {}
    else
      (set d | d in trees[0].dynSets :: SetKey(TableRef(trees[0].table.family, trees[0].table.name), d.name)) +
      KeepOf(trees[1..])
  }

  lemma {:induction false} KeepOfContent(trees: seq<TableTree>, key: SetKey)
    ensures key in KeepOf(trees) <==>
              exists i, d :: 0 <= i < |trees| && d in trees[i].dynSets && key == SetKey(RenderTable(trees[i]).ref, d.name)
  {
    if trees != [] {
      KeepOfContent(trees[1..], key);
      if key in KeepOf(trees[1..]) {
        var i, d :| 0 <= i < |trees[1..]| && d in trees[1..][i].dynSets && key == SetKey(RenderTable(trees[1..][i]).ref, d.name);
        assert trees[1..][i] == trees[i + 1];
      } else if key in KeepOf(trees) {
        var d :| d in trees[0].dynSets && key == SetKey(RenderTable(trees[0]).ref, d.name);
      }
      forall i, d | 0 <= i < |trees| && d in trees[i].dynSets && key == SetKey(RenderTable(trees[i]).ref, d.name)
        ensures key in KeepOf(trees)
      {
        if i > 0 {
          assert trees[i] == trees[1..][i - 1];
        }
      }
    }
  }

  method KeepKeys(trees: seq<TableTree>) returns (keep: set<SetKey>)
    ensures keep == KeepOf(trees)
  {
    keep := {};
    for i := 0 to |trees|
      invariant keep + KeepOf(trees[i..]) == KeepOf(trees)
    {
      var t := trees[i];
      assert trees[i..][0] == t && trees[i..][1..] == trees[i + 1..];
      var ref := TableRef(t.table.family, t.table.name);
      var here: set<SetKey> := {};
      for j := 0 to |t.dynSets|
        invariant here == set d | d in t.dynSets[..j] :: SetKey(ref, d.name)
      {
        assert t.dynSets[..j + 1] == t.dynSets[..j] + [t.dynSets[j]];
        here := here + {SetKey(ref, t.dynSets[j].name)};
      }
      assert t.dynSets[..|t.dynSets|] == t.dynSets;
      keep := keep + here;
    }
  }

  // ── What running the statements does ──────────────────────────────────────

  predicate HasSet(k: Ruleset, key: SetKey) {
    key.ref in k && key.name in k[key.ref].sets
  }

  function SetAt(k: Ruleset, key: SetKey): LiveSet
    requires HasSet(k, key)
  {
    k[key.ref].sets[key.name]
  }

  /** The set is declared as an empty ban set, as the rebuilt table leaves it. */
  predicate FreshBanSet(k: Ruleset, key: SetKey) {
    HasSet(k, key) && SetAt(k, key).kind == BanSet && SetAt(k, key).elems == map[]
  }

  // Every carried element fits the family the rebuilt set declares.
  predicate Fits(k: Ruleset, item: ListedSet) {
    HasSet(k, KeyOf(item)) && SetAt(k, KeyOf(item)).fam == item.live.fam
  }

  lemma CarriedSound(s: LiveSet, item: ListedSet)
    requires s.kind == BanSet && s.elems == map[]
    requires SoundSet(item.live) && Carried(item.live.elems) != map[]
    ensures SoundSet(s.(elems := s.elems + Carried(item.live.elems))) <==> s.fam == item.live.fam
  {
    var c := Carried(item.live.elems);
    assert s.elems + c == c;
    var l :| l in c;
    assert LiteralFamily(l) == Some(item.live.fam);
  }

  lemma SetAtWithSet(k: Ruleset, a: SetKey, s: LiveSet, b: SetKey)
    requires HasSet(k, a)
    ensures HasSet(WithSet(k, a.ref, a.name, s), b) <==> HasSet(k, b)
    ensures HasSet(k, b) ==> SetAt(WithSet(k, a.ref, a.name, s), b) == if a == b then s else SetAt(k, b)
  {}

  /** The statements succeed exactly when every set they name has kept its address family; and
      then each of those sets holds exactly its carried elements, and no other set changed. */
  lemma {:induction false} PreservedRuns(k: Ruleset, doc: seq<ListedSet>, keep: set<SetKey>)
    requires DistinctKeys(doc)
    requires forall item :: item in doc ==> SoundSet(item.live)
    requires forall item :: item in doc && Emits(item, keep) ==> FreshBanSet(k, KeyOf(item))
    ensures Run(k, BuildPreserved(doc, keep)).Some? <==> forall item :: item in doc && Emits(item, keep) ==> Fits(k, item)
    ensures Run(k, BuildPreserved(doc, keep)).Some? ==>
              var k' := Run(k, BuildPreserved(doc, keep)).value;
              && (forall item :: item in doc && Emits(item, keep) ==>
                    HasSet(k', KeyOf(item)) && SetAt(k', KeyOf(item)) == SetAt(k, KeyOf(item)).(elems := Carried(item.live.elems)))
              && (forall key :: (forall item :: item in doc && Emits(item, keep) ==> KeyOf(item) != key) ==>
                    (HasSet(k', key) <==> HasSet(k, key)) && (HasSet(k, key) ==> SetAt(k', key) == SetAt(k, key)))
    decreases |doc|
  {
    hide SoundSet, Emits, Carried;
    if doc != [] {
      var item := doc[0];
      assert doc == [item] + doc[1..];
      var tail := BuildPreserved(doc[1..], keep);
      forall later | later in doc[1..] ensures KeyOf(later) != KeyOf(item) {
        var i :| 0 <= i < |doc[1..]| && doc[1..][i] == later;
        assert KeyOf(doc[0]) != KeyOf(doc[i + 1]);
      }
      if Emits(item, keep) {
        PreservedStep(k, doc, keep);
      } else {
        assert BuildPreserved(doc, keep) == tail;
        PreservedRuns(k, doc[1..], keep);
      }
    }
  }

  // One statement: it runs exactly when the set kept its family, and changes that set only.
  lemma CarryOne(k: Ruleset, item: ListedSet)
    requires SoundSet(item.live) && Carried(item.live.elems) != map[] && FreshBanSet(k, KeyOf(item))
    ensures var run := Exec(k, AddElements(item.ref, item.name, Carried(item.live.elems)));
            && (run.Some? <==> Fits(k, item))
            && (run.Some? ==> forall other: SetKey ::
                  && (HasSet(run.value, other) <==> HasSet(k, other))
                  && (HasSet(k, other) ==>
                        SetAt(run.value, other) ==
                          (if other == KeyOf(item) then SetAt(k, other).(elems := Carried(item.live.elems)) else SetAt(k, other))))
  {
    var s := SetAt(k, KeyOf(item));
    var c := Carried(item.live.elems);
    CarriedSound(s, item);
    assert s.elems + c == c;
    hide SoundSet, Carried;
    if s.fam == item.live.fam {
      forall other: SetKey {
        SetAtWithSet(k, KeyOf(item), s.(elems := c), other);
      }
    }
  }

  lemma {:induction false} PreservedStep(k: Ruleset, doc: seq<ListedSet>, keep: set<SetKey>)
    requires doc != [] && DistinctKeys(doc) && Emits(doc[0], keep)
    requires forall item :: item in doc ==> SoundSet(item.live)
    requires forall item :: item in doc && Emits(item, keep) ==> FreshBanSet(k, KeyOf(item))
    requires forall later :: later in doc[1..] ==> KeyOf(later) != KeyOf(doc[0])
    ensures Run(k, BuildPreserved(doc, keep)).Some? <==> forall item :: item in doc && Emits(item, keep) ==> Fits(k, item)
    ensures Run(k, BuildPreserved(doc, keep)).Some? ==>
              var k' := Run(k, BuildPreserved(doc, keep)).value;
              && (forall item :: item in doc && Emits(item, keep) ==>
                    HasSet(k', KeyOf(item)) && SetAt(k', KeyOf(item)) == SetAt(k, KeyOf(item)).(elems := Carried(item.live.elems)))
              && (forall key :: (forall item :: item in doc && Emits(item, keep) ==> KeyOf(item) != key) ==>
                    (HasSet(k', key) <==> HasSet(k, key)) && (HasSet(k, key) ==> SetAt(k', key) == SetAt(k, key)))
    decreases |doc|, 0
  {
    hide SoundSet, Emits, Carried, Exec, HasSet, SetAt;
    var item := doc[0];
    var cmd := AddElements(item.ref, item.name, Carried(item.live.elems));
    var tail := BuildPreserved(doc[1..], keep);
    assert doc == [item] + doc[1..];
    EmittedFirst(doc, keep);
    assert ([cmd] + tail)[1..] == tail;
    assert FreshBanSet(k, KeyOf(item));
    CarryOne(k, item);
    if Fits(k, item) {
      var k1 := Exec(k, cmd).value;
      PreservedRuns(k1, doc[1..], keep);
      assert forall later :: later in doc[1..] ==> (Fits(k1, later) <==> Fits(k, later));
    } else {
      assert item in doc && Emits(item, keep) && !Fits(k, item);
    }
  }

  lemma EmittedFirst(doc: seq<ListedSet>, keep: set<SetKey>)
    requires doc != [] && Emits(doc[0], keep)
    ensures Carried(doc[0].live.elems) != map[]
    ensures BuildPreserved(doc, keep) ==
              [AddElements(doc[0].ref, doc[0].name, Carried(doc[0].live.elems))] + BuildPreserved(doc[1..], keep)
  {
    hide Carried;
  }

  ghost predicate DistinctTrees(trees: seq<TableTree>) {
    forall i, j :: 0 <= i < j < |trees| ==> RenderTable(trees[i]).ref != RenderTable(trees[j]).ref
  }

  // The whole apply script: rebuilt tables, removals, then the carried bans.
  function ApplyScript(trees: seq<TableTree>, removed: seq<TableRef>, doc: seq<ListedSet>): (s: seq<Command>) {
    BuildApply(Config(trees), removed) + BuildPreserved(doc, KeepOf(trees))
  }

  lemma KeptIsFresh(k: Ruleset, trees: seq<TableTree>, removed: seq<TableRef>, key: SetKey)
    requires DistinctTrees(trees) && forall t :: t in trees ==> DistinctNames(t)
    requires forall r :: r in removed ==> r !in Refs(Config(trees))
    requires key in KeepOf(trees)
    ensures FreshBanSet(Overlay(k, Config(trees)) - ToSet(removed), key)
  {
    hide RenderTable, DistinctNames;
    KeepOfContent(trees, key);
    var i, d :| 0 <= i < |trees| && d in trees[i].dynSets && key == SetKey(RenderTable(trees[i]).ref, d.name);
    var c := Config(trees);
    assert DistinctRefs(c);
    OverlayHolds(k, c, i);
    assert Refs(c)[i] == key.ref;
    RenderedSets(trees[i]);
  }

  predicate Listed(doc: seq<ListedSet>, key: SetKey) {
    exists item :: item in doc && item.live.kind == BanSet && KeyOf(item) == key
  }

  // The transaction, with the families read off the rebuilt ruleset.
  lemma BansCarried(k: Ruleset, doc: seq<ListedSet>, trees: seq<TableTree>, removed: seq<TableRef>)
    requires SoundKernel(k) && Shows(doc, k)
    requires SoundDecls(Config(trees)) && DistinctTrees(trees) && forall t :: t in trees ==> DistinctNames(t)
    requires forall r :: r in removed ==> r !in Refs(Config(trees))
    ensures var run := Run(k, ApplyScript(trees, removed, doc));
            var rebuilt := Overlay(k, Config(trees)) - ToSet(removed);
            && (run.Some? <==> forall item :: item in doc && Emits(item, KeepOf(trees)) ==> Fits(rebuilt, item))
            && (run.Some? ==> forall item :: item in doc && item.live.kind == BanSet && KeyOf(item) in KeepOf(trees) ==>
                  HasSet(run.value, KeyOf(item)) && SetAt(run.value, KeyOf(item)).elems == Carried(item.live.elems))
            && (run.Some? ==> forall key :: key in KeepOf(trees) && !Listed(doc, key) ==>
                  HasSet(run.value, key) && SetAt(run.value, key).elems == map[])
  {
    hide SoundSet, SoundDecls, Run, Carried, DistinctNames, BuildApply, BuildPreserved, Config, KeepOf;
    var keep := KeepOf(trees);
    var rebuilt := Overlay(k, Config(trees)) - ToSet(removed);
    var preserved := BuildPreserved(doc, keep);
    ApplyRuns(k, Config(trees), removed, preserved);
    forall item | item in doc ensures SoundSet(item.live) {
      assert SoundBody(k[item.ref]);
    }
    forall key | key in keep ensures FreshBanSet(rebuilt, key) {
      KeptIsFresh(k, trees, removed, key);
    }
    PreservedRuns(rebuilt, doc, keep);
    var run := Run(rebuilt, preserved);
    if run.Some? {
      forall item | item in doc && item.live.kind == BanSet && KeyOf(item) in keep
        ensures HasSet(run.value, KeyOf(item)) && SetAt(run.value, KeyOf(item)).elems == Carried(item.live.elems)
      {
        assert FreshBanSet(rebuilt, KeyOf(item));
        if !Emits(item, keep) {
          OnlyOneListed(doc, item);
        }
      }
      forall key | key in keep && !Listed(doc, key) ensures HasSet(run.value, key) && SetAt(run.value, key).elems == map[] {
        assert FreshBanSet(rebuilt, key);
      }
    }
  }

  /** The model declares the listed ban set with the address family it was listed with. */
  predicate KeepsFamily(trees: seq<TableTree>, item: ListedSet) {
    exists i, j :: 0 <= i < |trees| && 0 <= j < |trees[i].dynSets|
      && TableRef(trees[i].table.family, trees[i].table.name) == item.ref
      && trees[i].dynSets[j] == DynSetDef(item.name, item.live.fam)
  }

  // What the rebuilt table declares is what the model declares.
  lemma RebuiltDeclares(k: Ruleset, trees: seq<TableTree>, removed: seq<TableRef>, i: nat, d: DynSetDef)
    requires DistinctTrees(trees) && forall t :: t in trees ==> DistinctNames(t)
    requires forall r :: r in removed ==> r !in Refs(Config(trees))
    requires i < |trees| && d in trees[i].dynSets
    ensures var rebuilt := Overlay(k, Config(trees)) - ToSet(removed);
            var key := SetKey(RenderTable(trees[i]).ref, d.name);
            HasSet(rebuilt, key) && SetAt(rebuilt, key).fam == d.fam
  {
    hide RenderTable, DistinctNames, Overlay;
    var c := Config(trees);
    assert DistinctRefs(c);
    OverlayHolds(k, c, i);
    assert Refs(c)[i] == RenderTable(trees[i]).ref;
    RenderedSets(trees[i]);
  }

  lemma RebuiltFamily(k: Ruleset, trees: seq<TableTree>, removed: seq<TableRef>, item: ListedSet)
    requires DistinctTrees(trees) && forall t :: t in trees ==> DistinctNames(t)
    requires forall r :: r in removed ==> r !in Refs(Config(trees))
    requires KeyOf(item) in KeepOf(trees)
    ensures Fits(Overlay(k, Config(trees)) - ToSet(removed), item) <==> KeepsFamily(trees, item)
  {
    hide RenderTable, DistinctNames, Overlay, KeepOf, Config, HasSet, SetAt, ToSet;
    KeepOfContent(trees, KeyOf(item));
    var i, d :| 0 <= i < |trees| && d in trees[i].dynSets && KeyOf(item) == SetKey(RenderTable(trees[i]).ref, d.name);
    RebuiltDeclares(k, trees, removed, i, d);
    RefsOfTrees(trees);
    OneDeclaration(trees[i], d);
    if KeepsFamily(trees, item) {
      var x, y :| 0 <= x < |trees| && 0 <= y < |trees[x].dynSets|
        && TableRef(trees[x].table.family, trees[x].table.name) == item.ref
        && trees[x].dynSets[y] == DynSetDef(item.name, item.live.fam);
      assert x == i;
    }
    if d.fam == item.live.fam {
      var y :| 0 <= y < |trees[i].dynSets| && trees[i].dynSets[y] == d;
      assert KeepsFamily(trees, item);
    }
  }

  lemma RefsOfTrees(trees: seq<TableTree>)
    ensures forall i :: 0 <= i < |trees| ==> RenderTable(trees[i]).ref == TableRef(trees[i].table.family, trees[i].table.name)
  {}

  lemma OneDeclaration(t: TableTree, d: DynSetDef)
    requires DistinctNames(t) && d in t.dynSets
    ensures forall e :: e in t.dynSets && e.name == d.name ==> e == d
  {}

  /** Bans survive an apply: the transaction goes through exactly when no ban set that still
      holds addresses changed family, and then every ban set of the model that the kernel
      listed holds the same addresses and prefixes, each with its carried life; one it did not list
      as a ban set is empty. */
  lemma BansConserved(k: Ruleset, doc: seq<ListedSet>, trees: seq<TableTree>, removed: seq<TableRef>)
    requires SoundKernel(k) && Shows(doc, k)
    requires SoundDecls(Config(trees)) && DistinctTrees(trees) && forall t :: t in trees ==> DistinctNames(t)
    requires forall r :: r in removed ==> r !in Refs(Config(trees))
    ensures var run := Run(k, ApplyScript(trees, removed, doc));
            && (run.Some? <==> forall item :: item in doc && Emits(item, KeepOf(trees)) ==> KeepsFamily(trees, item))
            && (run.Some? ==> forall item :: item in doc && item.live.kind == BanSet && KeyOf(item) in KeepOf(trees) ==>
                  HasSet(run.value, KeyOf(item)) && SetAt(run.value, KeyOf(item)).elems == Carried(item.live.elems))
            && (run.Some? ==> forall key :: key in KeepOf(trees) && !Listed(doc, key) ==>
                  HasSet(run.value, key) && SetAt(run.value, key).elems == map[])
  {
    hide Fits, KeepsFamily;
    BansCarried(k, doc, trees, removed);
    forall item | item in doc && Emits(item, KeepOf(trees))
      ensures Fits(Overlay(k, Config(trees)) - ToSet(removed), item) <==> KeepsFamily(trees, item)
    {
      RebuiltFamily(k, trees, removed, item);
    }
  }

  lemma OnlyOneListed(doc: seq<ListedSet>, item: ListedSet)
    requires DistinctKeys(doc) && item in doc
    ensures forall other :: other in doc && KeyOf(other) == KeyOf(item) ==> other == item
  {
    forall other | other in doc && KeyOf(other) == KeyOf(item) ensures other == item {
      var i :| 0 <= i < |doc| && doc[i] == item;
      var j :| 0 <= j < |doc| && doc[j] == other;
    }
  }

  /** A ban set that keeps its name but changes family makes the whole apply fail for as long
      as an address is banned in it. */
  lemma FlippedFamilyFaults()
    ensures var ref := TableRef("inet", "filter");
            var banned := LiveSet(V4, BanSet, map[Host(Addr(V4, 0x0102_0304)) := Remaining(60.0)]);
            var k: Ruleset := map[ref := Body([], [], map["abusers" := banned])];
            var tree := TableTree(Table("inet", "filter", "", [], []), [DynSetDef("abusers", V6)], []);
            Run(k, ApplyScript([tree], [], [ListedSet(ref, "abusers", banned)])) == None
  {
    hide Run, ApplyScript;
    var ref := TableRef("inet", "filter");
    var l := Host(Addr(V4, 0x0102_0304));
    var banned := LiveSet(V4, BanSet, map[l := Remaining(60.0)]);
    var k: Ruleset := map[ref := Body([], [], map["abusers" := banned])];
    var tree := TableTree(Table("inet", "filter", "", [], []), [DynSetDef("abusers", V6)], []);
    assert l in Carried(banned.elems);
    FlippedFaults(k, tree, ListedSet(ref, "abusers", banned), l);
  }

  // In general: one table, one ban set listed, its declaration of the other family.
  lemma FlippedFaults(k: Ruleset, tree: TableTree, item: ListedSet, l: Literal)
    requires SoundKernel(k) && Shows([item], k) && SoundDecls(Config([tree])) && DistinctNames(tree)
    requires item.ref == RenderTable(tree).ref && item.live.kind == BanSet && l in Carried(item.live.elems)
    requires tree.dynSets == [DynSetDef(item.name, if item.live.fam.V4? then V6 else V4)]
    ensures Run(k, ApplyScript([tree], [], [item])) == None
  {
    hide Run, ApplyScript, SoundSet, SoundKernel, Shows, RenderTable, Carried, SoundDecls, DistinctNames, Overlay;
    var key := SetKey(item.ref, item.name);
    var c := Config([tree]);
    KeepOfContent([tree], key);
    RenderedSets(tree);
    assert [tree][0].dynSets[0].name == item.name;
    assert key in KeepOf([tree]);
    BansConserved(k, [item], [tree], []);
    assert item in [item];
    assert !KeepsFamily([tree], item);
  }
}
