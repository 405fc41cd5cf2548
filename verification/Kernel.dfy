/** A small interpreter for the nft scripts the program loads, with the kernel's merging and
    all-or-nothing behaviour, and the scripts of the apply and revert transactions
    (internal/render/apply.go). */
module Kernel {
  import opened Wrappers
  import opened Addresses
  import opened Model
  import opened Lists
  import opened Sets

  datatype TableRef = TableRef(family: string, name: string)

  /** How long a set element stays: for good, or for some seconds. */
  datatype Life = Forever | Remaining(secs: real)

  /** List-backed interval sets, ban sets (dynamic with timeouts), rate meters (dynamic only). */
  datatype Kind = Interval | BanSet | Meter

  datatype LiveSet = LiveSet(fam: Family, kind: Kind, elems: map<Literal, Life>)

  datatype Body = Body(flowtables: seq<Flowtable>, chains: seq<Chain>, sets: map<string, LiveSet>)

  type Ruleset = map<TableRef, Body>

  /** One rendered table: its reference and what its block says. */
  datatype Decl = Decl(ref: TableRef, body: Body)

  const EMPTY_BODY := Body([], [], map[])

  // ── What the kernel accepts ───────────────────────────────────────────────

  function LiteralFamily(l: Literal): (f: Option<Family>) {
    match l
    case Host(a) => Some(a.fam)
    case Cidr(a, _) => Some(a.fam)
    case Span(lo, _) => Some(lo.fam)
    case _ => None
  }

  predicate SoundSet(s: LiveSet) {
    && (forall l :: l in s.elems ==> LiteralFamily(l) == Some(s.fam))
    && (s.kind.Interval? ==> forall l, m :: l in s.elems && m in s.elems && l != m ==> !Collide(l, m))
  }

  predicate SoundBody(b: Body) {
    forall n :: n in b.sets ==> SoundSet(b.sets[n])
  }

  ghost predicate SoundKernel(k: Ruleset) {
    forall r :: r in k ==> SoundBody(k[r])
  }

  // ── The interpreter ───────────────────────────────────────────────────────

  datatype Command =
    | Ensure(ref: TableRef)                                          // table F N {}
    | Delete(ref: TableRef)                                          // delete table F N
    | Load(ref: TableRef, body: Body)                                // table F N { … }
    | AddElements(ref: TableRef, name: string, elems: map<Literal, Life>)
    | DeleteElements(ref: TableRef, name: string, gone: set<Literal>)

  predicate SameDeclaration(s: LiveSet, t: LiveSet) {
    s.fam == t.fam && s.kind == t.kind
  }

  predicate CanMerge(a: Body, b: Body) {
    forall n :: n in a.sets && n in b.sets ==> SameDeclaration(a.sets[n], b.sets[n])
  }

  // Loading a block over an existing table adds to it: rules accumulate, elements join.
  function Merge(a: Body, b: Body): (r: Body) {
    Body(
      a.flowtables + b.flowtables,
      a.chains + b.chains,
      map n | n in a.sets.Keys + b.sets.Keys ::
        if n !in a.sets then b.sets[n]
        else if n !in b.sets then a.sets[n]
        else b.sets[n].(elems := a.sets[n].elems + b.sets[n].elems))
  }

  // One command; None is an error of the kernel.
  function Exec(k: Ruleset, c: Command): (r: Option<Ruleset>) {
    match c
    case Ensure(ref) => Some(if ref in k then k else k[ref := EMPTY_BODY])
    case Delete(ref) => if ref in k then Some(k - {ref}) else None
    case Load(ref, body) =>
      var earlier := if ref in k then k[ref] else EMPTY_BODY;
      if CanMerge(earlier, body) && SoundBody(Merge(earlier, body)) then Some(k[ref := Merge(earlier, body)]) else None
    case AddElements(ref, name, elems) =>
      if ref !in k || name !in k[ref].sets then None
      else
        var s := k[ref].sets[name];
        var s' := s.(elems := s.elems + elems);
        if SoundSet(s') then Some(WithSet(k, ref, name, s')) else None
    case DeleteElements(ref, name, gone) =>
      if ref !in k || name !in k[ref].sets || !(gone <= k[ref].sets[name].elems.Keys) then None
      else
        var s := k[ref].sets[name];
        Some(WithSet(k, ref, name, s.(elems := s.elems - gone)))
  }

  function WithSet(k: Ruleset, ref: TableRef, name: string, s: LiveSet): (r: Ruleset)
    requires ref in k
  {
    k[ref := k[ref].(sets := k[ref].sets[name := s])]
  }

  // nft -f: the whole script commits or nothing does.
  function Run(k: Ruleset, script: seq<Command>): (r: Option<Ruleset>)
    decreases |script|
  {
    if script == [] then Some(k)
    else
      match Exec(k, script[0])
      case None => None
      case Some(k') => Run(k', script[1..])
  }

  lemma {:induction false} RunAppend(k: Ruleset, a: seq<Command>, b: seq<Command>)
    ensures Run(k, a + b) == if Run(k, a).None? then None else Run(Run(k, a).value, b)
    decreases |a|
  {
    if a == [] {
      assert a + b == b;
    } else {
      assert (a + b)[1..] == a[1..] + b;
      if Exec(k, a[0]).Some? {
        RunAppend(Exec(k, a[0]).value, a[1..], b);
      }
    }
  }

  lemma ExecKeepsSound(k: Ruleset, c: Command)
    requires SoundKernel(k) && Exec(k, c).Some?
    ensures SoundKernel(Exec(k, c).value)
  {
    hide Collide;
  }

  /** No script can leave an unsound ruleset behind. */
  lemma {:induction false} RunKeepsSound(k: Ruleset, script: seq<Command>)
    requires SoundKernel(k) && Run(k, script).Some?
    ensures SoundKernel(Run(k, script).value)
    decreases |script|
  {
    if script != [] {
      ExecKeepsSound(k, script[0]);
      RunKeepsSound(Exec(k, script[0]).value, script[1..]);
    }
  }

  // ── The replace triple ────────────────────────────────────────────────────

  function Replace(ref: TableRef): (s: seq<Command>) {
    [Ensure(ref), Delete(ref)]
  }

  /** The ensure/delete pair never faults and leaves exactly the other tables. */
  lemma ReplaceClears(k: Ruleset, ref: TableRef, rest: seq<Command>)
    ensures Run(k, Replace(ref) + rest) == Run(k - {ref}, rest)
  {
    var s := Replace(ref) + rest;
    var k1 := Exec(k, s[0]).value;
    assert s[1..][1..] == rest;
    assert k1 - {ref} == k - {ref};
    assert Run(k, s) == Run(k1, s[1..]) == Run(k1 - {ref}, s[1..][1..]);
  }

  /** The triple replaces: whatever the table held before, it holds just the new body. */
  lemma TripleReplaces(k: Ruleset, ref: TableRef, body: Body, rest: seq<Command>)
    requires SoundBody(body)
    ensures Run(k, Replace(ref) + [Load(ref, body)] + rest) == Run(k[ref := body], rest)
  {
    hide SoundBody;
    assert Replace(ref) + [Load(ref, body)] + rest == Replace(ref) + ([Load(ref, body)] + rest);
    ReplaceClears(k, ref, [Load(ref, body)] + rest);
    assert Merge(EMPTY_BODY, body) == body;
    assert (k - {ref})[ref := body] == k[ref := body];
    assert ([Load(ref, body)] + rest)[1..] == rest;
  }

  // ── BuildApplyFile and BuildRevertFile ────────────────────────────────────

  function ApplyTables(decls: seq<Decl>): (s: seq<Command>) {
    if decls == [] then []
    else Replace(decls[0].ref) + [Load(decls[0].ref, decls[0].body)] + ApplyTables(decls[1..])
  }

  function ApplyRemovals(refs: seq<TableRef>): (s: seq<Command>) {
    if refs == [] then [] else Replace(refs[0]) + ApplyRemovals(refs[1..])
  }

  function BuildApply(decls: seq<Decl>, remove: seq<TableRef>): (s: seq<Command>) {
    ApplyTables(decls) + ApplyRemovals(remove)
  }

  /** A table's state before an apply; None when it was absent. */
  datatype Snapshot = Snapshot(ref: TableRef, was: Option<Body>)

  function BuildRevert(snaps: seq<Snapshot>): (s: seq<Command>) {
    if snaps == [] then []
    else
      Replace(snaps[0].ref) +
      (if snaps[0].was.Some? then [Load(snaps[0].ref, snaps[0].was.value)] else []) +
      BuildRevert(snaps[1..])
  }

  lemma {:induction false} ApplyTablesAppend(a: seq<Decl>, b: seq<Decl>)
    ensures ApplyTables(a + b) == ApplyTables(a) + ApplyTables(b)
  {
    if a == [] {
      assert a + b == b;
    } else {
      hide Replace;
      ApplyTablesAppend(a[1..], b);
      assert (a + b)[1..] == a[1..] + b;
      var triple := Replace(a[0].ref) + [Load(a[0].ref, a[0].body)];
      assert triple + (ApplyTables(a[1..]) + ApplyTables(b)) == triple + ApplyTables(a[1..]) + ApplyTables(b);
    }
  }

  lemma {:induction false} ApplyRemovalsAppend(a: seq<TableRef>, b: seq<TableRef>)
    ensures ApplyRemovals(a + b) == ApplyRemovals(a) + ApplyRemovals(b)
  {
    if a == [] {
      assert a + b == b;
    } else {
      ApplyRemovalsAppend(a[1..], b);
      assert (a + b)[1..] == a[1..] + b;
    }
  }

  lemma {:induction false} BuildRevertAppend(a: seq<Snapshot>, b: seq<Snapshot>)
    ensures BuildRevert(a + b) == BuildRevert(a) + BuildRevert(b)
  {
    hide Replace;
    if a == [] {
      assert a + b == b;
    } else {
      BuildRevertAppend(a[1..], b);
      assert (a + b)[1..] == a[1..] + b;
    }
  }

  // What the kernel holds once the candidate tables are in.
  function Overlay(k: Ruleset, decls: seq<Decl>): (r: Ruleset)
    decreases |decls|
  {
    if decls == [] then k else Overlay(k[decls[0].ref := decls[0].body], decls[1..])
  }

  function ToSet(refs: seq<TableRef>): (s: set<TableRef>) {
    set r | r in refs
  }

  function Refs(decls: seq<Decl>): (r: seq<TableRef>)
    ensures |r| == |decls|
    ensures forall i :: 0 <= i < |r| ==> r[i] == decls[i].ref
  {
    seq(|decls|, i requires 0 <= i < |decls| => decls[i].ref)
  }

  ghost predicate SoundDecls(decls: seq<Decl>) {
    forall d :: d in decls ==> SoundBody(d.body)
  }

  lemma {:induction false} ApplyTablesRun(k: Ruleset, decls: seq<Decl>, rest: seq<Command>)
    requires SoundDecls(decls)
    ensures Run(k, ApplyTables(decls) + rest) == Run(Overlay(k, decls), rest)
    decreases |decls|
  {
    hide SoundBody, Run;
    if decls == [] {
      assert ApplyTables(decls) + rest == rest;
    } else {
      var d := decls[0];
      var tail := ApplyTables(decls[1..]) + rest;
      assert ApplyTables(decls) + rest == Replace(d.ref) + [Load(d.ref, d.body)] + tail;
      TripleReplaces(k, d.ref, d.body, tail);
      ApplyTablesRun(k[d.ref := d.body], decls[1..], rest);
    }
  }

  lemma {:induction false} ApplyRemovalsRun(k: Ruleset, refs: seq<TableRef>, rest: seq<Command>)
    ensures Run(k, ApplyRemovals(refs) + rest) == Run(k - ToSet(refs), rest)
    decreases |refs|
  {
    hide Run;
    if refs == [] {
      assert ApplyRemovals(refs) + rest == rest;
      assert k - ToSet(refs) == k;
    } else {
      var tail := ApplyRemovals(refs[1..]) + rest;
      assert ApplyRemovals(refs) + rest == Replace(refs[0]) + tail;
      ReplaceClears(k, refs[0], tail);
      ApplyRemovalsRun(k - {refs[0]}, refs[1..], rest);
      assert k - {refs[0]} - ToSet(refs[1..]) == k - ToSet(refs);
    }
  }

  /** The apply transaction never faults and has exactly this effect. */
  lemma ApplyRuns(k: Ruleset, decls: seq<Decl>, remove: seq<TableRef>, rest: seq<Command>)
    requires SoundDecls(decls)
    ensures Run(k, BuildApply(decls, remove) + rest) == Run(Overlay(k, decls) - ToSet(remove), rest)
  {
    hide Run, SoundDecls;
    assert BuildApply(decls, remove) + rest == ApplyTables(decls) + (ApplyRemovals(remove) + rest);
    ApplyTablesRun(k, decls, ApplyRemovals(remove) + rest);
    ApplyRemovalsRun(Overlay(k, decls), remove, rest);
  }

  lemma {:induction false} OverlayElsewhere(k: Ruleset, decls: seq<Decl>, r: TableRef)
    requires r !in Refs(decls)
    ensures r in Overlay(k, decls) <==> r in k
    ensures r in k ==> Overlay(k, decls)[r] == k[r]
    decreases |decls|
  {
    if decls != [] {
      assert Refs(decls)[0] == decls[0].ref;
      forall i | 0 <= i < |decls| - 1 ensures Refs(decls[1..])[i] == Refs(decls)[i + 1] {}
      assert r !in Refs(decls[1..]);
      OverlayElsewhere(k[decls[0].ref := decls[0].body], decls[1..], r);
    }
  }

  lemma {:induction false} OverlayKeys(k: Ruleset, decls: seq<Decl>)
    ensures Overlay(k, decls).Keys == k.Keys + ToSet(Refs(decls))
    decreases |decls|
  {
    if decls != [] {
      OverlayKeys(k[decls[0].ref := decls[0].body], decls[1..]);
      assert Refs(decls) == [decls[0].ref] + Refs(decls[1..]);
    }
  }

  ghost predicate DistinctRefs(decls: seq<Decl>) {
    forall i, j :: 0 <= i < j < |decls| ==> decls[i].ref != decls[j].ref
  }

  /** With distinct table names every candidate table ends up exactly as rendered. */
  lemma {:induction false} OverlayHolds(k: Ruleset, decls: seq<Decl>, i: nat)
    requires DistinctRefs(decls) && i < |decls|
    ensures decls[i].ref in Overlay(k, decls) && Overlay(k, decls)[decls[i].ref] == decls[i].body
    decreases |decls|
  {
    var k' := k[decls[0].ref := decls[0].body];
    if i == 0 {
      forall j | 0 <= j < |decls| - 1 ensures Refs(decls[1..])[j] != decls[0].ref {
        assert Refs(decls[1..])[j] == decls[j + 1].ref;
      }
      OverlayElsewhere(k', decls[1..], decls[0].ref);
    } else {
      OverlayHolds(k', decls[1..], i - 1);
    }
  }

  // ── Snapshot and revert ───────────────────────────────────────────────────

  function Take(k: Ruleset, refs: seq<TableRef>): (r: seq<Snapshot>)
    ensures |r| == |refs|
    ensures forall i :: 0 <= i < |r| ==> r[i] == Snapshot(refs[i], if refs[i] in k then Some(k[refs[i]]) else None)
  {
    seq(|refs|, i requires 0 <= i < |refs| => Snapshot(refs[i], if refs[i] in k then Some(k[refs[i]]) else None))
  }

  function Restore(k: Ruleset, snaps: seq<Snapshot>): (r: Ruleset)
    decreases |snaps|
  {
    if snaps == [] then k
    else
      var s := snaps[0];
      Restore(if s.was.Some? then k[s.ref := s.was.value] else k - {s.ref}, snaps[1..])
  }

  ghost predicate SoundSnapshots(snaps: seq<Snapshot>) {
    forall s :: s in snaps && s.was.Some? ==> SoundBody(s.was.value)
  }

  /** The revert transaction never faults either. */
  lemma {:induction false} RevertRuns(k: Ruleset, snaps: seq<Snapshot>)
    requires SoundSnapshots(snaps)
    ensures Run(k, BuildRevert(snaps)) == Some(Restore(k, snaps))
    decreases |snaps|
  {
    hide SoundBody, Exec;
    if snaps != [] {
      var s := snaps[0];
      var tail := BuildRevert(snaps[1..]);
      if s.was.Some? {
        assert BuildRevert(snaps) == Replace(s.ref) + [Load(s.ref, s.was.value)] + tail;
        TripleReplaces(k, s.ref, s.was.value, tail);
        RevertRuns(k[s.ref := s.was.value], snaps[1..]);
      } else {
        assert BuildRevert(snaps) == Replace(s.ref) + tail;
        ReplaceClears(k, s.ref, tail);
        RevertRuns(k - {s.ref}, snaps[1..]);
      }
    }
  }

  /** The two rulesets hold the same tables outside refs. */
  ghost predicate AgreeOutside(k: Ruleset, l: Ruleset, refs: set<TableRef>) {
    forall r :: r !in refs ==> (r in k <==> r in l) && (r in k ==> k[r] == l[r])
  }

  ghost predicate AgreeAt(k: Ruleset, l: Ruleset, r: TableRef) {
    (r in k <==> r in l) && (r in k ==> k[r] == l[r])
  }

  lemma {:induction false} RestoreAt(k: Ruleset, base: Ruleset, refs: seq<TableRef>, r: TableRef)
    requires r in refs || AgreeAt(k, base, r)
    ensures AgreeAt(Restore(k, Take(base, refs)), base, r)
    decreases |refs|
  {
    if refs != [] {
      var s := Take(base, refs)[0];
      var k' := if s.was.Some? then k[s.ref := s.was.value] else k - {s.ref};
      assert Take(base, refs)[1..] == Take(base, refs[1..]);
      assert refs == [refs[0]] + refs[1..];
      RestoreAt(k', base, refs[1..], r);
    }
  }

  /** Reverting a snapshot gives back the snapshotted ruleset, from any ruleset that differs
      from it in snapshotted tables only, however they differ. */
  lemma RevertRestores(k: Ruleset, base: Ruleset, refs: seq<TableRef>)
    requires SoundKernel(base)
    requires AgreeOutside(k, base, ToSet(refs))
    ensures Run(k, BuildRevert(Take(base, refs))) == Some(base)
  {
    hide SoundBody, Run;
    var snaps := Take(base, refs);
    assert SoundSnapshots(snaps) by {
      forall s | s in snaps && s.was.Some? ensures SoundBody(s.was.value) {
        var i :| 0 <= i < |snaps| && snaps[i] == s;
        assert refs[i] in base;
      }
    }
    RevertRuns(k, snaps);
    var l := Restore(k, snaps);
    forall r ensures AgreeAt(l, base, r) {
      assert r !in refs ==> r !in ToSet(refs);
      RestoreAt(k, base, refs, r);
    }
    SameEverywhere(l, base);
  }

  lemma SameEverywhere(k: Ruleset, l: Ruleset)
    requires forall r :: AgreeAt(k, l, r)
    ensures k == l
  {
    assert forall r :: r in k <==> r in l by {
      forall r ensures r in k <==> r in l {
        assert AgreeAt(k, l, r);
      }
    }
    forall r | r in k ensures k[r] == l[r] {
      assert AgreeAt(k, l, r);
    }
    assert k == l;
  }

  // ── The table references of an apply ──────────────────────────────────────

  function UnionAfter(seen: set<TableRef>, refs: seq<TableRef>): (r: seq<TableRef>)
    decreases |refs|
  {
    if refs == [] then []
    else if refs[0] in seen then UnionAfter(seen, refs[1..])
    else [refs[0]] + UnionAfter(seen + {refs[0]}, refs[1..])
  }

  // unionRefs: the distinct references of both, first occurrences first.
  function Union(a: seq<TableRef>, b: seq<TableRef>): (r: seq<TableRef>) {
    UnionAfter({}, a + b)
  }

  // refsMinus: the references of a that b lacks.
  function Minus(a: seq<TableRef>, b: seq<TableRef>): (r: seq<TableRef>) {
    if a == [] then [] else (if a[0] in b then [] else [a[0]]) + Minus(a[1..], b)
  }

  lemma {:induction false} UnionAfterContent(seen: set<TableRef>, refs: seq<TableRef>)
    ensures forall x :: x in UnionAfter(seen, refs) <==> x in refs && x !in seen
    ensures forall i, j :: 0 <= i < j < |UnionAfter(seen, refs)| ==> UnionAfter(seen, refs)[i] != UnionAfter(seen, refs)[j]
    decreases |refs|
  {
    if refs != [] {
      UnionAfterContent(if refs[0] in seen then seen else seen + {refs[0]}, refs[1..]);
      assert refs == [refs[0]] + refs[1..];
    }
  }

  /** The union names every table of either side exactly once. */
  lemma UnionContent(a: seq<TableRef>, b: seq<TableRef>)
    ensures ToSet(Union(a, b)) == ToSet(a) + ToSet(b)
    ensures forall i, j :: 0 <= i < j < |Union(a, b)| ==> Union(a, b)[i] != Union(a, b)[j]
  {
    UnionAfterContent({}, a + b);
  }

  lemma {:induction false} MinusContent(a: seq<TableRef>, b: seq<TableRef>)
    ensures ToSet(Minus(a, b)) == ToSet(a) - ToSet(b)
  {
    if a != [] {
      MinusContent(a[1..], b);
      assert a == [a[0]] + a[1..];
      assert ToSet(a) == {a[0]} + ToSet(a[1..]);
      assert ToSet(Minus(a, b)) == (if a[0] in b then {} else {a[0]}) + ToSet(Minus(a[1..], b));
    }
  }

  /** Apply then revert is the identity on the whole ruleset, for every rendering, every
      ledger and every ruleset; tables outside both are untouched by either script, and
      neither script faults. */
  lemma ApplyThenRevert(k: Ruleset, decls: seq<Decl>, ledger: seq<TableRef>)
    requires SoundKernel(k) && SoundDecls(decls)
    ensures var applied := Run(k, BuildApply(decls, Minus(ledger, Refs(decls))));
            var touched := Union(Refs(decls), ledger);
            && applied.Some?
            && applied.value.Keys == k.Keys - ToSet(ledger) + ToSet(Refs(decls))
            && AgreeOutside(applied.value, k, ToSet(touched))
            && Run(applied.value, BuildRevert(Take(k, touched))) == Some(k)
  {
    hide SoundBody, SoundDecls, SoundKernel, BuildApply, BuildRevert;
    var refs := Refs(decls);
    var removed := Minus(ledger, refs);
    var touched := Union(refs, ledger);
    var script := BuildApply(decls, removed);
    UnionContent(refs, ledger);
    MinusContent(ledger, refs);
    ApplyRuns(k, decls, removed, []);
    assert script + [] == script;
    var after := Overlay(k, decls) - ToSet(removed);
    OverlayKeys(k, decls);
    forall r | r !in ToSet(touched) ensures AgreeAt(after, k, r) {
      assert r !in ToSet(refs) && r !in ToSet(ledger);
      OverlayElsewhere(k, decls, r);
    }
    assert AgreeOutside(after, k, ToSet(touched)) by {
      forall r | r !in ToSet(touched) ensures (r in after <==> r in k) && (r in after ==> after[r] == k[r]) {
        assert AgreeAt(after, k, r);
      }
    }
    RevertRestores(after, k, touched);
  }

  // ── The loops that build them ─────────────────────────────────────────────

  method WriteReplace(b: seq<Command>, ref: TableRef) returns (r: seq<Command>)
    ensures r == b + Replace(ref)
  {
    r := b + [Ensure(ref)];
    r := r + [Delete(ref)];
  }

  method BuildApplyFile(tables: seq<Decl>, remove: seq<TableRef>) returns (b: seq<Command>)
    ensures b == BuildApply(tables, remove)
  {
    b := [];
    for i := 0 to |tables|
      invariant b == ApplyTables(tables[..i])
    {
      assert tables[..i + 1] == tables[..i] + [tables[i]];
      ApplyTablesAppend(tables[..i], [tables[i]]);
      assert ApplyTables([tables[i]]) == Replace(tables[i].ref) + [Load(tables[i].ref, tables[i].body)];
      b := WriteReplace(b, tables[i].ref);
      b := b + [Load(tables[i].ref, tables[i].body)];
    }
    assert tables[..|tables|] == tables;
    for i := 0 to |remove|
      invariant b == ApplyTables(tables) + ApplyRemovals(remove[..i])
    {
      assert remove[..i + 1] == remove[..i] + [remove[i]];
      ApplyRemovalsAppend(remove[..i], [remove[i]]);
      assert ApplyRemovals([remove[i]]) == Replace(remove[i]);
      b := WriteReplace(b, remove[i]);
    }
    assert remove[..|remove|] == remove;
  }

  method BuildRevertFile(snaps: seq<Snapshot>) returns (b: seq<Command>)
    ensures b == BuildRevert(snaps)
  {
    b := [];
    for i := 0 to |snaps|
      invariant b == BuildRevert(snaps[..i])
    {
      var s := snaps[i];
      assert snaps[..i + 1] == snaps[..i] + [s];
      BuildRevertAppend(snaps[..i], [s]);
      ghost var before := b;
      b := WriteReplace(b, s.ref);
      if s.was.Some? {
        b := b + [Load(s.ref, s.was.value)];
      }
      assert b == before + BuildRevert([s]);
    }
    assert snaps[..|snaps|] == snaps;
  }

  method SnapshotTables(k: Ruleset, refs: seq<TableRef>) returns (out: seq<Snapshot>)
    ensures out == Take(k, refs)
  {
    out := [];
    for i := 0 to |refs|
      invariant out == Take(k, refs[..i])
    {
      out := out + [Snapshot(refs[i], if refs[i] in k then Some(k[refs[i]]) else None)];
    }
    assert refs[..|refs|] == refs;
  }

  method UnionRefs(a: seq<TableRef>, b: seq<TableRef>) returns (out: seq<TableRef>)
    ensures out == Union(a, b)
  {
    var all := a + b;
    var seen: set<TableRef> := {};
    out := [];
    for i := 0 to |all|
      invariant out + UnionAfter(seen, all[i..]) == Union(a, b)
    {
      assert all[i..][0] == all[i] && all[i..][1..] == all[i + 1..];
      if all[i] !in seen {
        seen := seen + {all[i]};
        out := out + [all[i]];
      }
    }
  }

  method RefsMinus(a: seq<TableRef>, b: seq<TableRef>) returns (out: seq<TableRef>)
    ensures out == Minus(a, b)
  {
    var inB: set<TableRef> := {};
    for i := 0 to |b|
      invariant inB == ToSet(b[..i])
    {
      inB := inB + {b[i]};
    }
    assert b[..|b|] == b;
    out := [];
    for i := 0 to |a|
      invariant out + Minus(a[i..], b) == Minus(a, b)
    {
      assert a[i..][0] == a[i] && a[i..][1..] == a[i + 1..];
      if a[i] !in inB {
        out := out + [a[i]];
      }
    }
  }
}
