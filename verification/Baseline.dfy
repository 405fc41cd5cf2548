/** The applied baseline: what LatestAppliedConfig says the kernel runs
    (internal/store/configversions.go, internal/web/listsync.go). */
module Baseline {
  import opened Wrappers
  import opened Addresses
  import opened Model
  import opened Sets
  import opened Kernel
  import opened Render
  import opened Bans
  import opened ListSync
  import opened Protocol
  import opened CrashSafety
  import opened Lifecycle
  import opened Ledger

  /** With no apply armed, the kernel holds the newest confirmed or pending version. While one is
      armed, a revert brings back the newest before it; the kernel holds the armed version once it
      is loaded, and until then the one before. */
  ghost predicate InStep(s: State) {
    if s.db.pending.None? then Holds(s.kernel, s.db.versions)
    else
      var n := |s.db.versions| - 1;
      && s.db.pending.value.version == n
      && (StillPending(s) || (s.db.versions[n].status.Failed? && s.unconfirmed.None?))
      && Holds(s.base, s.db.versions[..n])
      && (if s.unconfirmed.Some? then Matches(s.kernel, s.db.versions[n].config) else Holds(s.kernel, s.db.versions[..n]))
  }

  // The ruleset is as the newest version in force says.
  ghost predicate Holds(k: Ruleset, vs: seq<Version>) {
    Latest(vs).Some? ==> Matches(k, Latest(vs).value)
  }

  // All versions but the newest.
  function Before(vs: seq<Version>): (r: seq<Version>) {
    if vs == [] then [] else vs[..|vs| - 1]
  }

  // The armed version has not been given up.
  predicate StillPending(s: State) {
    && s.db.pending.Some? && s.db.pending.value.version < |s.db.versions|
    && s.db.versions[s.db.pending.value.version].status.Pending?
  }

  // ── The runs it holds on ──────────────────────────────────────────────────

  /** The points where a version in force has no row and is not loaded: an apply before its row, or
      with the row of a rejected load cleared and the status not written; a revert in the same
      place; and the confirm of a version that is not loaded. */
  ghost predicate Strands(s: State, e: Event, i: nat) {
    match e
    case Apply(f) => i == 1 || (!f.loadOk && f.clearOk && i == 3)
    case Confirm(f) => s.unconfirmed.None? && (i >= 3 || (i == 2 && StillPending(s)))
    case Rollback(_) => StillPending(s) && (i == 3 || i == 4)
    case TimerFires(_, _) => StillPending(s) && (i == 3 || i == 4)
    case Recover(f) => StillPending(s) && f.clearOk && (i == 2 || i == 3 || (i == 4 && !f.statusOk))
    case _ => false
  }

  /** Ending or crashing at point i is harmless: no version is stranded there, a push is whole or has
      not begun, and outside changes leave the recorded tables as they are, but for what the kernel
      fills in itself. */
  ghost predicate CarefulAt(s: State, e: Event, i: nat) {
    match e
    case Outside(k) => forall v, r :: 0 <= v < |s.db.versions| && r in ConfigRefs(s, v) ==> SettledAlike(k, s.kernel, r)
    case PushList(_, _, f) => i < 2 || (i == |Trace(s, e)| - 1 && f.updateOk && forall c :: f.nftOk(c))
    case _ => !Strands(s, e, i)
  }

  ghost predicate Careful(s: State, e: Event)
    decreases e
  {
    match e
    case CrashIn(e', n) => if e'.CrashIn? then Careful(s, e') else CarefulAt(s, e', n)
    case _ => CarefulAt(s, e, |Trace(s, e)| - 1)
  }

  ghost predicate SettledAlike(k: Ruleset, l: Ruleset, r: TableRef) {
    (r in k <==> r in l) && (r in k ==> Settled(k[r]) == Settled(l[r]))
  }

  // ── What an apply loads matches its rendering ─────────────────────────────

  ghost predicate SettledSame(k: Ruleset, l: Ruleset) {
    forall r :: SettledAlike(k, l, r)
  }

  lemma RenderedIsSettled(t: TableTree)
    requires DistinctNames(t)
    ensures Settled(RenderTable(t).body) == RenderTable(t).body
  {
    RenderedSets(t);
    var b := RenderTable(t).body;
    forall n | n in b.sets ensures !b.sets[n].kind.Meter? && (b.sets[n].kind.Interval? || b.sets[n].elems == map[]) {
      if d :| d in t.dynSets && d.name == n {
      } else {
        var d :| d in t.sets && d.name == n;
      }
    }
    assert Settled(b).sets == b.sets;
  }

  ghost predicate IntoBanSets(k: Ruleset, doc: seq<ListedSet>, keep: set<SetKey>) {
    forall item :: item in doc && Emits(item, keep) && HasSet(k, KeyOf(item)) ==> SetAt(k, KeyOf(item)).kind == BanSet
  }

  lemma AddIsInvisible(k: Ruleset, c: Command)
    requires c.AddElements? && Exec(k, c).Some?
    requires HasSet(k, SetKey(c.ref, c.name)) ==> SetAt(k, SetKey(c.ref, c.name)).kind == BanSet
    ensures SettledSame(k, Exec(k, c).value)
    ensures forall key :: HasSet(Exec(k, c).value, key) ==> HasSet(k, key) && SetAt(Exec(k, c).value, key).kind == SetAt(k, key).kind
  {
    hide SoundSet;
    var k' := Exec(k, c).value;
    var s := k[c.ref].sets[c.name];
    assert Settled(k'[c.ref]).sets == Settled(k[c.ref]).sets;
  }

  /** Carrying bans over changes nothing a comparison with the rendering looks at. */
  lemma {:induction false} PreservedIsInvisible(k: Ruleset, doc: seq<ListedSet>, keep: set<SetKey>)
    requires IntoBanSets(k, doc, keep)
    requires Run(k, BuildPreserved(doc, keep)).Some?
    ensures SettledSame(k, Run(k, BuildPreserved(doc, keep)).value)
    decreases |doc|
  {
    hide Emits, Carried, Settled, Exec, SoundSet;
    if doc != [] {
      var rest := BuildPreserved(doc[1..], keep);
      if Emits(doc[0], keep) {
        var c := AddElements(doc[0].ref, doc[0].name, Carried(doc[0].live.elems));
        assert BuildPreserved(doc, keep) == [c] + rest;
        assert ([c] + rest)[1..] == rest;
        var k' := Exec(k, c).value;
        AddIsInvisible(k, c);
        PreservedIsInvisible(k', doc[1..], keep);
        SettledSameTransitive(k, k', Run(k', rest).value);
      } else {
        assert BuildPreserved(doc, keep) == rest;
        PreservedIsInvisible(k, doc[1..], keep);
      }
    }
  }

  lemma SettledSameTransitive(k: Ruleset, l: Ruleset, m: Ruleset)
    requires SettledSame(k, l) && SettledSame(l, m)
    ensures SettledSame(k, m)
  {
    hide Settled;
    forall r ensures SettledAlike(k, m, r) {
      assert SettledAlike(k, l, r) && SettledAlike(l, m, r);
    }
  }

  lemma MatchesIfSettledSame(k: Ruleset, l: Ruleset, decls: seq<Decl>)
    requires Matches(k, decls) && forall d :: d in decls ==> SettledAlike(k, l, d.ref)
    ensures Matches(l, decls)
  {
    hide Settled;
  }

  lemma TreesDistinct(tables: seq<Table>, lists: seq<NamedList>)
    requires DistinctTables(tables)
    ensures DistinctTrees(LoadModel(tables, lists)) && DistinctRefs(Config(LoadModel(tables, lists)))
    ensures forall t :: t in LoadModel(tables, lists) ==> DistinctNames(t)
  {
    hide Loaded, RenderTable, DistinctNames;
    var trees := LoadModel(tables, lists);
    forall i | 0 <= i < |trees| ensures RenderTable(trees[i]).ref == TableRef(tables[i].family, tables[i].name) && DistinctNames(trees[i]) {
      RenderedRef(tables[i], lists);
      LoadedNamesDistinct(tables[i], lists);
    }
  }

  lemma RebuiltMatches(k: Ruleset, trees: seq<TableTree>, removed: seq<TableRef>)
    requires DistinctRefs(Config(trees)) && forall t :: t in trees ==> DistinctNames(t)
    requires forall r :: r in removed ==> r !in Refs(Config(trees))
    ensures Matches(Overlay(k, Config(trees)) - ToSet(removed), Config(trees))
  {
    hide Settled, RenderTable, DistinctNames;
    var c := Config(trees);
    forall d | d in c ensures d.ref in Overlay(k, c) - ToSet(removed) && Settled((Overlay(k, c) - ToSet(removed))[d.ref]) == d.body {
      var i :| 0 <= i < |c| && c[i] == d;
      OverlayHolds(k, c, i);
      assert Refs(c)[i] == d.ref;
      RenderedIsSettled(trees[i]);
    }
  }

  /** After a successful load the kernel holds the candidate. */
  lemma ScriptMatches(db: Db, k: Ruleset, listing: seq<ListedSet>)
    requires SoundModel(db.tables, db.lists)
    requires Run(k, Script(db, listing)).Some?
    ensures Matches(Run(k, Script(db, listing)).value, Candidate(db))
  {
    hide Run, LoadModel, BuildApply, BuildPreserved, KeepOf, SoundBody, Refs, Settled, RenderTable, Emits, DistinctNames, Matches;
    var trees := Trees(db);
    var c := Candidate(db);
    var removed := Minus(db.ledger, Refs(c));
    var keep := KeepOf(trees);
    ConfigSound(db.tables, db.lists);
    TreesDistinct(db.tables, db.lists);
    MinusContent(db.ledger, Refs(c));
    MemberOf(removed);
    MemberOf(Refs(c));
    RebuiltMatches(k, trees, removed);
    var rebuilt := Overlay(k, c) - ToSet(removed);
    var preserved := BuildPreserved(listing, keep);
    ApplyRuns(k, c, removed, preserved);
    forall item | item in listing && Emits(item, keep) && HasSet(rebuilt, KeyOf(item))
      ensures SetAt(rebuilt, KeyOf(item)).kind == BanSet
    {
      EmitsKept(item, keep);
      KeptIsFresh(k, trees, removed, KeyOf(item));
    }
    PreservedIsInvisible(rebuilt, listing, keep);
    var after := Run(rebuilt, preserved).value;
    forall d | d in c ensures SettledAlike(rebuilt, after, d.ref) {}
    MatchesIfSettledSame(rebuilt, after, c);
  }

  // What settling compares includes the flowtables and the chains.
  lemma MatchesTables(k: Ruleset, tables: seq<Table>, lists: seq<NamedList>)
    requires Matches(k, Config(LoadModel(tables, lists)))
    ensures HoldsTables(k, tables)
  {
    hide RendersChain, RenderTable, Loaded;
    ModelRenders(tables, lists);
    var c := Config(LoadModel(tables, lists));
    forall i | 0 <= i < |tables|
      ensures var ref := TableRef(tables[i].family, tables[i].name); ref in k && RendersTable(tables[i], k[ref])
    {
      assert c[i] in c;
      assert Settled(k[c[i].ref]).chains == k[c[i].ref].chains && Settled(k[c[i].ref]).flowtables == k[c[i].ref].flowtables;
    }
  }

  /** What an apply loads: the kernel then holds every table of the model under its name, with its
      flowtables, its chains one for one, and in each chain exactly the enabled rules that have
      something to say, in order. */
  lemma AppliedTables(s: State, f: ApplyFate)
    requires SoundModel(s.db.tables, s.db.lists) && !Refused(s, f) && f.pendingOk && f.loadOk
    ensures HoldsTables(Next(s, Apply(f)).kernel, s.db.tables)
  {
    hide Run, Script, Candidate, Take, Touched, Refs, SoundModel, HoldsTables;
    ScriptMatches(s.db, s.kernel, f.listing);
    CandidateMatches(s.db, Run(s.kernel, Script(s.db, f.listing)).value);
  }

  lemma CandidateMatches(db: Db, k: Ruleset)
    requires Matches(k, Candidate(db))
    ensures HoldsTables(k, db.tables)
  {
    hide Matches, HoldsTables, LoadModel, Config;
    MatchesTables(k, db.tables, db.lists);
  }

  /** When an apply goes ahead: nothing is armed, no call fails, and, of the live ban sets that the
      model keeps and that hold addresses, none changed family. Without a listing of the kernel it
      goes ahead whatever the model. */
  lemma AcceptedExactly(s: State, f: ApplyFate)
    requires SoundModel(s.db.tables, s.db.lists) && SoundKernel(s.kernel)
    requires f.listing == [] || Shows(f.listing, s.kernel)
    ensures !Refused(s, f) <==>
              && s.db.pending.None? && f.readOk && f.snapshotOk && f.checkOk && f.insertOk
              && (f.listing != [] ==> forall item :: item in f.listing && Emits(item, KeepOf(Trees(s.db))) ==> KeepsFamily(Trees(s.db), item))
  {
    hide Run, LoadModel, KeepOf, SoundKernel, SoundBody, Shows, Emits, KeepsFamily, DistinctNames;
    if f.listing == [] {
      ScriptRuns(s.db, s.kernel);
    } else {
      CarriesBans(s.db, s.kernel, f.listing);
    }
  }

  lemma CarriesBans(db: Db, k: Ruleset, listing: seq<ListedSet>)
    requires SoundModel(db.tables, db.lists) && SoundKernel(k) && Shows(listing, k)
    ensures var run := Run(k, Script(db, listing));
            && (run.Some? <==> forall item :: item in listing && Emits(item, KeepOf(Trees(db))) ==> KeepsFamily(Trees(db), item))
            && (run.Some? ==> forall item :: item in listing && item.live.kind == BanSet && KeyOf(item) in KeepOf(Trees(db)) ==>
                  HasSet(run.value, KeyOf(item)) && SetAt(run.value, KeyOf(item)).elems == Carried(item.live.elems))
  {
    hide Run, LoadModel, KeepOf, SoundKernel, SoundBody, Shows, Emits, KeepsFamily, DistinctNames, Refs, Carried;
    var trees := Trees(db);
    var removed := Minus(db.ledger, Refs(Config(trees)));
    ConfigSound(db.tables, db.lists);
    TreesDistinct(db.tables, db.lists);
    MinusContent(db.ledger, Refs(Config(trees)));
    MemberOf(removed);
    MemberOf(Refs(Config(trees)));
    BansConserved(k, listing, trees, removed);
  }

  /** And the bans are in the kernel afterwards: every live ban set of the model holds the addresses and
      prefixes it held, each carried over. */
  lemma AppliedBans(s: State, f: ApplyFate, item: ListedSet)
    requires SoundModel(s.db.tables, s.db.lists) && SoundKernel(s.kernel) && Shows(f.listing, s.kernel)
    requires !Refused(s, f) && f.pendingOk && f.loadOk
    requires item in f.listing && item.live.kind == BanSet && KeyOf(item) in KeepOf(Trees(s.db))
    ensures var k := Next(s, Apply(f)).kernel;
            HasSet(k, KeyOf(item)) && SetAt(k, KeyOf(item)).elems == Carried(item.live.elems)
  {
    hide Run, Script, Candidate, Take, Touched, Refs, SoundModel, KeepOf, SoundKernel, Shows, HasSet, SetAt, Carried;
    CarriesBans(s.db, s.kernel, f.listing);
  }

  lemma EmitsKept(item: ListedSet, keep: set<SetKey>)
    requires Emits(item, keep)
    ensures KeyOf(item) in keep
  {}

  // ── The newest version in force ───────────────────────────────────────────

  lemma LatestAppend(vs: seq<Version>, v: Version)
    ensures Latest(vs + [v]) == if InForce(v) then Some(v.config) else Latest(vs)
  {
    assert (vs + [v])[..|vs|] == vs;
  }

  lemma LatestLast(vs: seq<Version>)
    requires vs != []
    ensures Latest(vs) == if InForce(vs[|vs| - 1]) then Some(vs[|vs| - 1].config) else Latest(vs[..|vs| - 1])
  {}

  lemma LatestSettled(vs: seq<Version>, st: Status)
    requires vs != []
    ensures Latest(WithStatus(vs, |vs| - 1, st)) ==
              if st.Confirmed? || st.Pending? then Some(vs[|vs| - 1].config) else Latest(vs[..|vs| - 1])
  {
    assert WithStatus(vs, |vs| - 1, st)[..|vs| - 1] == vs[..|vs| - 1];
  }

  lemma {:induction false} LatestIsRecorded(s: State, vs: seq<Version>)
    requires vs <= s.db.versions && Latest(vs).Some?
    ensures exists v :: 0 <= v < |s.db.versions| && s.db.versions[v].config == Latest(vs).value
  {
    var n := |vs| - 1;
    if InForce(vs[n]) {
      assert s.db.versions[n].config == Latest(vs).value;
    } else {
      LatestIsRecorded(s, vs[..n]);
    }
  }

  lemma {:induction false} LatestUpdated(vs: seq<Version>, config: seq<Decl>)
    requires Latest(vs).Some?
    ensures Latest(UpdateLatest(vs, config)) == Some(config)
  {
    var n := |vs| - 1;
    var u := UpdateLatest(vs, config);
    if !InForce(vs[n]) {
      LatestUpdated(vs[..n], config);
      assert u[..n] == UpdateLatest(vs[..n], config);
    }
  }

  // ── Handlers ──────────────────────────────────────────────────────────────

  lemma ApplyInStep(s: State, f: ApplyFate, i: nat)
    requires Safe(s) && s.serving && InStep(s) && i < |ApplyTrace(s, f)| && !Strands(s, Apply(f), i)
    ensures InStep(ApplyTrace(s, f)[i])
  {
    hide Run, Script, Candidate, Take, Touched, Latest, Matches, Restorable, SoundModel, SoundKernel, Refs, Shows;
    if i > 0 {
      var vs := s.db.versions;
      var c := Candidate(s.db);
      LatestAppend(vs, Version(c, Failed));
      assert (vs + [Version(c, Pending)])[..|vs|] == vs;
      assert (vs + [Version(c, Pending)])[|vs| := Version(c, Failed)] == vs + [Version(c, Failed)];
      assert (vs + [Version(c, Failed)])[..|vs|] == vs;
      if f.loadOk && f.pendingOk {
        ScriptMatches(s.db, s.kernel, f.listing);
      }
    }
  }

  lemma ConfirmInStep(s: State, f: ConfirmFate, i: nat)
    requires Safe(s) && InStep(s) && i < |ConfirmTrace(s, f)| && !Strands(s, Confirm(f), i)
    ensures InStep(ConfirmTrace(s, f)[i])
  {
    hide Safe, ConfirmTrace, Latest, Matches, LedgerAt, WithStatus;
    if f.readOk && s.db.pending.Some? && f.clearOk && i >= 2 {
      ConfirmedAt(s, f, i);
      LatestLast(s.db.versions);
      LatestSettled(s.db.versions, Confirmed);
    } else {
      ConfirmBefore(s, f, i);
      InStepIgnoresMemory(s, ConfirmTrace(s, f)[i]);
    }
  }

  // The three ends of a revert: run, cleared with its version given up, and settled.
  lemma RevertRunInStep(s: State)
    requires InStep(s) && s.db.pending.Some?
    ensures InStep(Running(s, s.base, None))
  {
    hide Latest, Matches;
  }

  lemma RevertClearedInStep(s: State)
    requires InStep(s) && s.db.pending.Some? && !StillPending(s)
    ensures InStep(Cleared(Running(s, s.base, None)))
  {
    hide Latest, Matches;
    LatestLast(s.db.versions);
  }

  lemma RevertSettledInStep(s: State)
    requires InStep(s) && s.db.pending.Some?
    ensures InStep(Settle(Forgot(Cleared(Running(s, s.base, None))), s.db.pending.value.version, Reverted))
  {
    hide Latest, Matches, WithStatus;
    LatestSettled(s.db.versions, Reverted);
  }

  lemma RevertInStep(s: State, p: PendingRow, f: RevertFate, i: nat)
    requires Safe(s) && InStep(s) && s.db.pending == Some(p) && i < |RevertTrace(s, p, f)|
    requires StillPending(s) ==> i != 2 && i != 3
    ensures InStep(RevertTrace(s, p, f)[i])
  {
    RevertGivesBase(s);
    hide Safe, Run, BuildRevert;
    var t := RevertTrace(s, p, f);
    RevertRunInStep(s);
    RevertSettledInStep(s);
    if !StillPending(s) {
      RevertClearedInStep(s);
      InStepIgnoresMemory(Cleared(Running(s, s.base, None)), Forgot(Cleared(Running(s, s.base, None))));
    }
    hide InStep, StillPending, WithStatus;
    assert i == 0 ==> t[i] == s;
    assert i == 1 ==> t[i] == Running(s, s.base, None);
    assert i == 2 ==> t[i] == Cleared(Running(s, s.base, None));
    assert i == 3 ==> t[i] == Forgot(Cleared(Running(s, s.base, None)));
    assert i == 4 ==> t[i] == Settle(Forgot(Cleared(Running(s, s.base, None))), p.version, Reverted);
  }

  lemma InStepIgnoresMemory(s: State, s1: State)
    requires InStep(s) && s1 == s.(mem := s1.mem, serving := s1.serving)
    ensures InStep(s1)
  {
    hide Latest, Matches;
  }

  lemma RevertingInStep(s: State, e: Event, i: nat)
    requires Safe(s) && Enabled(s, e) && InStep(s) && IsRevert(e) && i < |Trace(s, e)| && !Strands(s, e, i)
    ensures InStep(Trace(s, e)[i])
  {
    hide Safe, RevertTrace, InStep, StopTimer;
    match e
    case Rollback(f) =>
      StopTimerSafe(s, f.caught);
      var s1 := StopTimer(s, f.caught);
      StopTimerMemory(s, f.caught);
      InStepIgnoresMemory(s, s1);
      if s.db.pending.Some? && f.readOk && i > 0 {
        RevertInStep(s1, s.db.pending.value, f, i - 1);
      }
    case TimerFires(v, f) =>
      var s1 := s.(mem := s.mem.(inFlight := s.mem.inFlight - multiset{v}));
      InStepIgnoresMemory(s, s1);
      ForgetsTimers(s, s1);
      if s.db.pending.Some? && f.readOk && s.db.pending.value.version == v && i > 0 {
        RevertInStep(s1, s.db.pending.value, f, i - 1);
      }
    case Recover(f) =>
      RecoverInStep(s, f, i);
  }

  lemma RecoverInStep(s: State, f: RevertFate, i: nat)
    requires Safe(s) && InStep(s) && i < |RecoverTrace(s, f)| && !Strands(s, Recover(f), i)
    ensures InStep(RecoverTrace(s, f)[i])
  {
    hide Safe, RevertTrace, InStep;
    var t := RecoverTrace(s, f);
    if s.db.pending.Some? && f.readOk {
      var n := |RevertTrace(s, s.db.pending.value, f)|;
      RevertLength(s, s.db.pending.value, f);
      RevertInStep(s, s.db.pending.value, f, if i < n then i else n - 1);
      InStepIgnoresMemory(t[if i < n then i else n - 1], t[i]);
    } else {
      InStepIgnoresMemory(s, t[i]);
    }
  }

  lemma RevertLength(s: State, p: PendingRow, f: RevertFate)
    ensures var n := |RevertTrace(s, p, f)|;
            if n <= 2 then n == 2 ==> !f.clearOk else f.clearOk && n == if f.statusOk then 5 else 4
  {
    hide Run, BuildRevert;
  }

  lemma OutsideInStep(s: State, k: Ruleset)
    requires Safe(s) && InStep(s) && CarefulAt(s, Outside(k), 1)
    ensures InStep(OutsideChange(s, k))
  {
    hide Latest, Settled, SoundModel, SoundKernel, Refs, Take, Matches, Holds;
    var t := OutsideChange(s, k);
    var vs := s.db.versions;
    if s.db.pending.None? {
      StillHolds(s, s.kernel, k, vs);
    } else {
      var n := |vs| - 1;
      StillHolds(s, s.kernel, k, vs[..n]);
      StillMatches(s, s.kernel, k, n);
      forall v, r | 0 <= v < |vs| && r in ConfigRefs(s, v) ensures SettledAlike(t.base, s.base, r) {
        assert SettledAlike(k, s.kernel, r);
      }
      StillHolds(s, s.base, t.base, vs[..n]);
    }
  }

  lemma StillMatches(s: State, k: Ruleset, l: Ruleset, v: nat)
    requires v < |s.db.versions|
    requires forall r :: r in ConfigRefs(s, v) ==> SettledAlike(l, k, r)
    ensures Matches(k, s.db.versions[v].config) ==> Matches(l, s.db.versions[v].config)
  {
    hide Settled, Refs;
    if Matches(k, s.db.versions[v].config) {
      forall d | d in s.db.versions[v].config ensures SettledAlike(k, l, d.ref) {
        RecordedRef(s, v, d);
        assert SettledAlike(l, k, d.ref);
      }
      MatchesIfSettledSame(k, l, s.db.versions[v].config);
    }
  }

  lemma StillHolds(s: State, k: Ruleset, l: Ruleset, vs: seq<Version>)
    requires vs <= s.db.versions
    requires forall v, r :: 0 <= v < |s.db.versions| && r in ConfigRefs(s, v) ==> SettledAlike(l, k, r)
    ensures Holds(k, vs) ==> Holds(l, vs)
  {
    hide Settled, Refs, Latest, Matches;
    if Latest(vs).Some? {
      LatestIsRecorded(s, vs);
      var v :| 0 <= v < |s.db.versions| && s.db.versions[v].config == Latest(vs).value;
      StillMatches(s, k, l, v);
    }
  }

  lemma RecordedRef(s: State, v: nat, d: Decl)
    requires v < |s.db.versions| && d in s.db.versions[v].config
    ensures d.ref in ConfigRefs(s, v)
  {
    hide Refs;
    RefListed(s.db.versions[v].config, d);
  }

  lemma RefListed(c: seq<Decl>, d: Decl)
    requires d in c
    ensures d.ref in Refs(c)
  {
    var i :| 0 <= i < |c| && c[i] == d;
    assert Refs(c)[i] == d.ref;
  }

  /** Commands that would all succeed as one script all succeed one by one. */
  lemma {:induction false} AttemptsIsRun(s: State, cmds: seq<Command>, nftOk: Command -> bool)
    requires forall c :: nftOk(c)
    requires Run(s.kernel, cmds).Some?
    ensures var r := Attempts(s, cmds, nftOk);
            r.allOk && r.any == (cmds != []) && r.end == s.(kernel := Run(s.kernel, cmds).value)
    decreases |cmds|
  {
    hide Exec;
    if cmds != [] {
      AttemptsIsRun(s.(kernel := Exec(s.kernel, cmds[0]).value), cmds[1..], nftOk);
    }
  }

  lemma PushInStep(s: State, j: nat, after: seq<Entry>, f: PushFate)
    requires Safe(s) && InStep(s) && Enabled(s, PushList(j, after, f)) && f.updateOk && forall c :: f.nftOk(c)
    ensures InStep(Next(s, PushList(j, after, f)))
  {
    hide Latest, UpdateLatest, Matches, Restorable, SoundList, SoundKernel, Run, Attempts, LoadModel, Config, PushAll;
    var c := Change(s.db.lists, j, after);
    var s1 := s.(db := s.db.(lists := c.New()));
    var t := PushTrace(s, j, after, f);
    if |t| > 2 || (f.readOk && s.db.pending.None? && Latest(s.db.versions) == Some(Candidate(s.db)) && (c.Adds() != [] || c.Dels() != [])) {
      var cmds := PushAll(Trees(s1.db), c.Name(), c.Adds(), c.Dels(), f.order);
      assert c.Ok();
      PushRefinesRender(s.kernel, s.db.tables, c, f.order);
      AttemptsIsRun(s1, cmds, f.nftOk);
      LatestUpdated(s.db.versions, Candidate(s1.db));
      var r := Attempts(s1, cmds, f.nftOk);
      if cmds == [] {
        NoAttempts(s1, f.nftOk);
        assert Next(s, PushList(j, after, f)) == s1;
      } else {
        assert Next(s, PushList(j, after, f)) ==
               r.end.(db := r.end.db.(versions := UpdateLatest(s.db.versions, Candidate(s1.db))));
      }
    } else {
      EditInStep(s, s.db.tables, c.New());
    }
  }

  lemma {:induction false} NothingToPush(trees: seq<TableTree>, l: string, order: nat -> Order)
    ensures PushAll(trees, l, [], [], order) == []
  {
    if trees != [] {
      NothingToPush(trees[1..], l, order);
    }
  }

  /** The baseline moves only when every command of the push landed. */
  lemma BaselineMovesExactly(s: State, j: nat, after: seq<Entry>, f: PushFate)
    requires Enabled(s, PushList(j, after, f))
    ensures var t := Next(s, PushList(j, after, f));
            var cmds := PushAll(Trees(s.db.(lists := Updated(s.db.lists, j, after))), s.db.lists[j].name,
                                Missing(after, Cidrs(s.db.lists[j].entries)), Missing(s.db.lists[j].entries, Cidrs(after)), f.order);
            t.db.versions != s.db.versions ==>
              && f.updateOk && (forall c :: c in cmds ==> f.nftOk(c))
              && Run(s.kernel, cmds) == Some(t.kernel)
  {
    hide Latest, UpdateLatest, Run, Attempts, LoadModel, Config, PushAll;
    var c := Change(s.db.lists, j, after);
    var s1 := s.(db := s.db.(lists := c.New()));
    var cmds := PushAll(Trees(s1.db), c.Name(), c.Adds(), c.Dels(), f.order);
    AllLanded(s1, cmds, f.nftOk);
    AttemptsKeepDb(s1, cmds, f.nftOk);
  }

  lemma {:induction false} AllLanded(s: State, cmds: seq<Command>, nftOk: Command -> bool)
    ensures var r := Attempts(s, cmds, nftOk);
            r.allOk ==> (forall c :: c in cmds ==> nftOk(c)) && Run(s.kernel, cmds) == Some(r.end.kernel)
    decreases |cmds|
  {
    hide Exec;
    if cmds != [] {
      assert cmds == [cmds[0]] + cmds[1..];
      if nftOk(cmds[0]) && Exec(s.kernel, cmds[0]).Some? {
        AllLanded(s.(kernel := Exec(s.kernel, cmds[0]).value), cmds[1..], nftOk);
      } else {
        AllLanded(s, cmds[1..], nftOk);
      }
    }
  }

  // The kernel holds one rendering of given tables at most.
  lemma OneRendering(k: Ruleset, c: seq<Decl>, d: seq<Decl>)
    requires Matches(k, c) && Matches(k, d) && Refs(c) == Refs(d)
    ensures c == d
  {
    hide Settled;
    forall i | 0 <= i < |c| ensures c[i] == d[i] {
      assert c[i] in c && d[i] in d && Refs(c)[i] == Refs(d)[i];
    }
  }

  /** A list change reaches the kernel: when the kernel and the baseline are in sync, nothing is armed
      and no call fails, they are in sync with the changed list afterwards. */
  lemma PushLands(s: State, j: nat, after: seq<Entry>, f: PushFate)
    requires Safe(s) && Enabled(s, PushList(j, after, f)) && s.db.pending.None?
    requires Latest(s.db.versions) == Some(Candidate(s.db)) && Matches(s.kernel, Candidate(s.db))
    requires f.readOk && f.updateOk && forall c :: f.nftOk(c)
    ensures var t := Next(s, PushList(j, after, f));
            && t.db.tables == s.db.tables && t.db.lists == Updated(s.db.lists, j, after)
            && Latest(t.db.versions) == Some(Candidate(t.db)) && Matches(t.kernel, Candidate(t.db))
  {
    hide Latest, UpdateLatest, Matches, Restorable, SoundList, SoundKernel, Run, Attempts, LoadModel, Config, PushAll, Refs;
    var c := Change(s.db.lists, j, after);
    var s1 := s.(db := s.db.(lists := c.New()));
    var cmds := PushAll(Trees(s1.db), c.Name(), c.Adds(), c.Dels(), f.order);
    assert c.Ok();
    PushRefinesRender(s.kernel, s.db.tables, c, f.order);
    AttemptsIsRun(s1, cmds, f.nftOk);
    LatestUpdated(s.db.versions, Candidate(s1.db));
    SameTables(s, c.New());
    if c.Adds() == [] && c.Dels() == [] {
      NothingToPush(Trees(s1.db), c.Name(), f.order);
    }
    if cmds == [] {
      NoAttempts(s1, f.nftOk);
      RunNothing(s.kernel);
      OneRendering(s.kernel, Candidate(s.db), Candidate(s1.db));
      assert Next(s, PushList(j, after, f)) == s1;
    } else {
      var r := Attempts(s1, cmds, f.nftOk);
      assert Next(s, PushList(j, after, f)) ==
             r.end.(db := r.end.db.(versions := UpdateLatest(s.db.versions, Candidate(s1.db))));
      SameCandidate(s1.db, UpdateLatest(s.db.versions, Candidate(s1.db)));
    }
  }

  // What a model renders to depends on the model alone.
  lemma SameCandidate(db: Db, vs: seq<Version>)
    ensures Candidate(db.(versions := vs)) == Candidate(db)
  {}

  lemma PushBegins(s: State, j: nat, after: seq<Entry>, f: PushFate, i: nat)
    requires InStep(s) && i < |PushTrace(s, j, after, f)| && i < 2
    ensures InStep(PushTrace(s, j, after, f)[i])
  {
    hide InStep, PushSteps;
    if j < |s.db.lists| {
      EditInStep(s, s.db.tables, Change(s.db.lists, j, after).New());
    }
  }

  lemma NoAttempts(s: State, nftOk: Command -> bool)
    ensures Attempts(s, [], nftOk) == Pushed([], s, false, true)
  {}

  lemma HandlerInStep(s: State, e: Event, i: nat)
    requires Safe(s) && Enabled(s, e) && InStep(s) && !e.CrashIn? && i < |Trace(s, e)| && CarefulAt(s, e, i)
    ensures InStep(Trace(s, e)[i])
  {
    hide Safe, InStep, ApplyTrace, ConfirmTrace, RollbackTrace, TimerTrace, RecoverTrace, PushTrace, OutsideChange;
    match e
    case Apply(f) => ApplyInStep(s, f, i);
    case Confirm(f) => ConfirmInStep(s, f, i);
    case EditModel(ts, ls) => EditInStep(s, ts, ls);
    case Outside(k) => OutsideInStep(s, k);
    case PushList(j, after, f) =>
      if i < 2 {
        PushBegins(s, j, after, f, i);
      } else {
        PushInStep(s, j, after, f);
      }
    case _ => RevertingInStep(s, e, i);
  }

  lemma {:induction false} EventInStep(s: State, e: Event)
    requires Safe(s) && Enabled(s, e) && InStep(s) && Careful(s, e)
    ensures InStep(Next(s, e))
    decreases e
  {
    hide Safe, InStep, CarefulAt, ApplyTrace, ConfirmTrace, RollbackTrace, TimerTrace, RecoverTrace, PushTrace, OutsideChange;
    if e.CrashIn? {
      EnabledInner(s, e);
      if e.e.CrashIn? {
        EventInStep(s, e.e);
        InStepIgnoresMemory(Next(s, e.e), Next(s, e));
      } else {
        HandlerInStep(s, e.e, e.at);
        InStepIgnoresMemory(Trace(s, e.e)[e.at], Next(s, e));
      }
    } else {
      HandlerInStep(s, e, |Trace(s, e)| - 1);
    }
  }

  lemma EditInStep(s: State, ts: seq<Table>, ls: seq<NamedList>)
    requires InStep(s)
    ensures InStep(s.(db := s.db.(tables := ts, lists := ls)))
  {
    hide Latest, Matches;
  }

  ghost predicate CarefulRun(s: State, es: seq<Event>)
    decreases |es|
  {
    es == [] || (Careful(s, es[0]) && CarefulRun(Next(s, es[0]), es[1..]))
  }

  lemma {:induction false} StaysInStep(s: State, es: seq<Event>)
    requires Safe(s) && InStep(s) && IsRun(s, es) && CarefulRun(s, es)
    ensures InStep(After(s, es))
    decreases |es|
  {
    hide Safe, InStep, Next, Enabled, Careful;
    if es != [] {
      NextIsSafe(s, es[0]);
      EventInStep(s, es[0]);
      StaysInStep(Next(s, es[0]), es[1..]);
    }
  }

  /** On every careful run from a fresh installation, through applies, rejections, confirms, reverts,
      failed reverts, recoveries, model edits, pushes and crashes: with no apply armed, or one that
      is loaded, the applied baseline is the rendering of exactly what the kernel holds in those
      tables; with one armed but not loaded, the baseline before it is. */
  lemma BaselineTruth(s: State, es: seq<Event>)
    requires Initial(s) && IsRun(s, es) && CarefulRun(s, es)
    ensures var t := After(s, es);
            if t.db.pending.None? || t.unconfirmed.Some? then Holds(t.kernel, t.db.versions)
            else Holds(t.kernel, Before(t.db.versions))
  {
    hide Matches;
    InitialIsSafe(s);
    StaysInStep(s, es);
    var vs := After(s, es).db.versions;
    if vs != [] {
      LatestLast(vs);
    }
  }

  // ── Where it breaks ───────────────────────────────────────────────────────

  // The baseline before the newest version.
  function Recorded(vs: seq<Version>): (c: seq<Decl>) {
    match Latest(Before(vs))
    case None => []
    case Some(c) => c
  }

  /** A configuration declares no recorded table differently from the recorded text, and every further
      table of it is in the kernel as rendered. */
  ghost predicate Agrees(k: Ruleset, recorded: seq<Decl>, c: seq<Decl>) {
    forall d :: d in c ==> if d.ref in Refs(recorded) then d in recorded else d.ref in k && Settled(k[d.ref]) == d.body
  }

  lemma AgreesExactly(k: Ruleset, recorded: seq<Decl>, c: seq<Decl>)
    requires Matches(k, recorded)
    ensures Matches(k, c) <==> Agrees(k, recorded, c)
  {
    hide Settled;
    forall d | d in c && d.ref in Refs(recorded)
      ensures d in recorded <==> d.ref in k && Settled(k[d.ref]) == d.body
    {
      var i :| 0 <= i < |recorded| && Refs(recorded)[i] == d.ref;
      assert recorded[i] in recorded;
      if Settled(k[d.ref]) == d.body {
        assert d == recorded[i];
      }
    }
  }

  // The newest version is in force with no row, and the kernel holds what was in force before it.
  ghost predicate Stranded(t: State) {
    && t.db.pending.None? && t.db.versions != []
    && InForce(t.db.versions[|t.db.versions| - 1])
    && Holds(t.kernel, Before(t.db.versions))
  }

  lemma StrandedExactly(t: State)
    requires Stranded(t)
    ensures var n := |t.db.versions| - 1;
            Holds(t.kernel, t.db.versions) <==> Agrees(t.kernel, Recorded(t.db.versions), t.db.versions[n].config)
  {
    hide Matches, Agrees;
    var n := |t.db.versions| - 1;
    LatestLast(t.db.versions);
    MatchesNothing(t.kernel);
    AgreesExactly(t.kernel, Recorded(t.db.versions), t.db.versions[n].config);
  }

  lemma MatchesNothing(k: Ruleset)
    ensures Matches(k, [])
  {}

  lemma ApplyStrands(s: State, f: ApplyFate, i: nat)
    requires Safe(s) && InStep(s) && i < |ApplyTrace(s, f)| && Strands(s, Apply(f), i)
    ensures Stranded(ApplyTrace(s, f)[i])
  {
    hide Run, Script, Candidate, Take, Touched, Latest, Matches, Restorable, SoundModel, SoundKernel, Refs;
    var vs := s.db.versions;
    assert (vs + [Version(Candidate(s.db), Pending)])[..|vs|] == vs;
  }

  lemma ConfirmStrands(s: State, f: ConfirmFate, i: nat)
    requires Safe(s) && InStep(s) && i < |ConfirmTrace(s, f)| && Strands(s, Confirm(f), i)
    ensures Stranded(ConfirmTrace(s, f)[i])
  {
    hide Safe, ConfirmTrace, Latest, Matches, LedgerAt;
    ConfirmLength(s, f);
    ConfirmedAt(s, f, i);
    var vs := s.db.versions;
    assert WithStatus(vs, |vs| - 1, Confirmed)[..|vs| - 1] == vs[..|vs| - 1];
  }

  lemma ConfirmLength(s: State, f: ConfirmFate)
    ensures |ConfirmTrace(s, f)| > 2 ==> f.readOk && s.db.pending.Some? && f.clearOk
    ensures |ConfirmTrace(s, f)| > 3 ==> f.statusOk
  {}

  lemma RevertStrands(s: State, p: PendingRow, f: RevertFate, i: nat)
    requires Safe(s) && InStep(s) && s.db.pending == Some(p) && StillPending(s)
    requires i < |RevertTrace(s, p, f)| && (i == 2 || i == 3)
    ensures Stranded(RevertTrace(s, p, f)[i])
  {
    RevertGivesBase(s);
    hide Safe, Run, BuildRevert, Latest, Matches;
  }

  lemma StrandedIgnoresMemory(s: State, s1: State)
    requires Stranded(s) && s1 == s.(mem := s1.mem, serving := s1.serving)
    ensures Stranded(s1)
  {}

  lemma RevertingStrands(s: State, e: Event, i: nat)
    requires Safe(s) && Enabled(s, e) && InStep(s) && IsRevert(e) && i < |Trace(s, e)| && Strands(s, e, i)
    ensures Stranded(Trace(s, e)[i])
  {
    hide Safe, RevertTrace, InStep, StopTimer, Stranded;
    match e
    case Rollback(f) =>
      StopTimerSafe(s, f.caught);
      var s1 := StopTimer(s, f.caught);
      StopTimerMemory(s, f.caught);
      InStepIgnoresMemory(s, s1);
      RevertStrands(s1, s.db.pending.value, f, i - 1);
    case TimerFires(v, f) =>
      var s1 := s.(mem := s.mem.(inFlight := s.mem.inFlight - multiset{v}));
      InStepIgnoresMemory(s, s1);
      ForgetsTimers(s, s1);
      RevertStrands(s1, s.db.pending.value, f, i - 1);
    case Recover(f) =>
      RevertLength(s, s.db.pending.value, f);
      RevertStrands(s, s.db.pending.value, f, if i == 2 then 2 else 3);
      StrandedIgnoresMemory(RevertTrace(s, s.db.pending.value, f)[if i == 2 then 2 else 3], Trace(s, e)[i]);
  }

  lemma HandlerStrands(s: State, e: Event, i: nat)
    requires Safe(s) && Enabled(s, e) && InStep(s) && i < |Trace(s, e)| && Strands(s, e, i)
    ensures Stranded(Trace(s, e)[i])
  {
    hide Safe, InStep, ApplyTrace, ConfirmTrace, RollbackTrace, TimerTrace, RecoverTrace, Stranded;
    match e
    case Apply(f) => ApplyStrands(s, f, i);
    case Confirm(f) => ConfirmStrands(s, f, i);
    case _ => RevertingStrands(s, e, i);
  }

  // Neither a crash nor the recovery after it changes a stranded version.
  lemma StrandedForGood(t: State, rf: RevertFate)
    requires Stranded(t)
    ensures var u := Next(Crashed(t), Recover(rf));
            Enabled(Crashed(t), Recover(rf)) && u == Crashed(t).(serving := true) && Stranded(u)
  {}

  /** When it breaks: on a careful run, ending or crashing at a point that strands a version leaves the
      baseline right, through the recovery too, if and only if the version agrees with the text
      recorded before it and the kernel. */
  lemma BaselineBreaksExactly(s: State, es: seq<Event>, e: Event, i: nat, rf: RevertFate)
    requires Initial(s) && IsRun(s, es) && CarefulRun(s, es)
    requires var u := After(s, es); Enabled(u, e) && i < |Trace(u, e)| && Strands(u, e, i)
    ensures var t := Trace(After(s, es), e)[i];
            var r := Next(Next(After(s, es), CrashIn(e, i)), Recover(rf));
            && Stranded(t) && r == Crashed(t).(serving := true)
            && (Holds(t.kernel, t.db.versions) <==>
                  Agrees(t.kernel, Recorded(t.db.versions), t.db.versions[|t.db.versions| - 1].config))
  {
    hide Safe, Initial, InStep, IsRun, CarefulRun, Trace, Stranded, Holds, Agrees, Strands;
    InitialIsSafe(s);
    InitialInStep(s);
    AlwaysSafe(s, es);
    StaysInStep(s, es);
    HandlerStrands(After(s, es), e, i);
    StrandedExactly(Trace(After(s, es), e)[i]);
    StrandedForGood(Trace(After(s, es), e)[i], rf);
    CrashNext(After(s, es), e, i);
  }

  lemma CrashNext(s: State, e: Event, i: nat)
    requires i < |Trace(s, e)|
    ensures Next(s, CrashIn(e, i)) == Crashed(Trace(s, e)[i])
  {
    hide ApplyTrace, ConfirmTrace, RollbackTrace, TimerTrace, RecoverTrace, PushTrace;
  }

  lemma InitialInStep(s: State)
    requires Initial(s)
    ensures InStep(s)
  {}

  // A version recorded as pending, but no row and nothing loaded.
  ghost predicate Phantom(s: State, t: State) {
    && t.kernel == s.kernel && t.db.pending.None?
    && t.db.versions == s.db.versions + [Version(Candidate(s.db), Pending)]
    && Latest(t.db.versions) == Some(Candidate(s.db))
  }

  /** The first such point: dying between recording a version and recording its row, or failing to record
      the row, leaves a pending version that was never loaded, and neither the server nor recovery
      sees it. */
  lemma PhantomVersion(s: State, f: ApplyFate, rf: RevertFate)
    requires Safe(s) && s.serving && !Refused(s, f)
    requires Enabled(s, Apply(f))
    ensures var crash := CrashIn(Apply(f), 1);
            var t := Next(Next(s, crash), Recover(rf));
            && Enabled(s, crash) && Enabled(Next(s, crash), Recover(rf))
            && Phantom(s, t)
    ensures !f.pendingOk ==> Phantom(s, Next(s, Apply(f)))
  {
    hide Safe, Run, Script, Candidate, Latest, ApplyTrace, Refused, Shows;
    FirstWrite(s, f);
    LatestAppend(s.db.versions, Version(Candidate(s.db), Pending));
  }

  // The first write of an apply is its version.
  lemma FirstWrite(s: State, f: ApplyFate)
    requires !Refused(s, f)
    ensures var t := ApplyTrace(s, f);
            && s.db.pending.None? && |t| >= 2 && t[1] == Inserted(s, Candidate(s.db))
            && (!f.pendingOk ==> |t| == 2)
  {
    hide Run, Script, Candidate, Take, Touched;
  }

  /** It misleads on a fresh installation: the baseline is the text of an apply of which the kernel has
      no table. */
  lemma PhantomMisleads(s: State)
    requires Initial(s) && s.db.tables != [] && forall r :: r in Refs(Candidate(s.db)) ==> r !in s.kernel
    ensures var es := [Recover(REVERTS), CrashIn(Apply(APPLIES), 1), Recover(REVERTS)];
            var t := After(s, es);
            && IsRun(s, es) && Latest(t.db.versions) == Some(Candidate(s.db))
            && forall d :: d in Candidate(s.db) ==> d.ref !in t.kernel
    ensures Candidate(s.db) != []
  {
    hide Safe, Run, Script, Candidate, Latest, Initial, Next, Enabled, Refused, After, IsRun, Refs;
    var s1 := Next(s, Recover(REVERTS));
    ServesFresh(s);
    FirstApply(s, s1);
    InitialIsSafe(s);
    NextIsSafe(s, Recover(REVERTS));
    PhantomVersion(s1, APPLIES, REVERTS);
    EveryTableRendered(s.db);
    forall d | d in Candidate(s.db) ensures d.ref in Refs(Candidate(s.db)) {
      RefListed(Candidate(s.db), d);
    }
    var s2 := Next(s1, CrashIn(Apply(APPLIES), 1));
    var s3 := Next(s2, Recover(REVERTS));
    RunCons(s, Recover(REVERTS), [CrashIn(Apply(APPLIES), 1), Recover(REVERTS)]);
    RunCons(s1, CrashIn(Apply(APPLIES), 1), [Recover(REVERTS)]);
    RunCons(s2, Recover(REVERTS), []);
    NoEvents(s3);
    assert [Recover(REVERTS)] + [CrashIn(Apply(APPLIES), 1), Recover(REVERTS)] == [Recover(REVERTS), CrashIn(Apply(APPLIES), 1), Recover(REVERTS)];
    assert [CrashIn(Apply(APPLIES), 1)] + [Recover(REVERTS)] == [CrashIn(Apply(APPLIES), 1), Recover(REVERTS)];
    assert [Recover(REVERTS)] + [] == [Recover(REVERTS)];
  }

  /** The second: dying between clearing the row of a reverted version and writing its status leaves
      that version pending for good, with the kernel back at what was there before it. */
  lemma RevertedStaysPending(s: State, e: Event, at: nat, rf: RevertFate)
    requires Safe(s) && StillPending(s) && Enabled(s, e) && RevertsNow(s, e) && e.rf.clearOk
    requires at == SettleIndex(e) - 1
    ensures var t := Next(Next(s, CrashIn(e, at)), Recover(rf));
            && at < |Trace(s, e)| && Enabled(s, CrashIn(e, at))
            && t.db.pending.None? && t.db.versions == s.db.versions && t.kernel == s.base
            && t.db.versions[s.db.pending.value.version].status.Pending?
  {
    hide Safe, Run, BuildRevert, WithStatus, StopTimer;
    RevertGivesBase(s);
    StopTimerSafe(s, e.rf.caught);
  }
}
