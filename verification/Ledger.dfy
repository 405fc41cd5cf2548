/** The applied-table ledger: what the next apply diffs against to remove dropped tables
    (internal/web/apply.go, internal/web/model.go). */
module Ledger {
  import opened Wrappers
  import opened Addresses
  import opened Model
  import opened Sets
  import opened Kernel
  import opened Render
  import opened Bans
  import opened ListSync
  import opened Protocol
  import opened CrashSafety
  import opened Lifecycle

  // The tables of the newest confirmed version.
  function LastConfirmed(vs: seq<Version>): (r: set<TableRef>) {
    if vs == [] then {}
    else if vs[|vs| - 1].status.Confirmed? then ToSet(Refs(vs[|vs| - 1].config))
    else LastConfirmed(vs[..|vs| - 1])
  }

  // Every table some confirmed version declared.
  function EverConfirmed(vs: seq<Version>): (r: set<TableRef>) {
    if vs == [] then {}
    else
      (if vs[|vs| - 1].status.Confirmed? then ToSet(Refs(vs[|vs| - 1].config)) else {}) +
      EverConfirmed(vs[..|vs| - 1])
  }

  function ConfigRefs(s: State, v: nat): (r: set<TableRef>)
    requires v < |s.db.versions|
  {
    ToSet(Refs(s.db.versions[v].config))
  }

  /** The ledger names the newest confirmed version's tables, and of all tables ever confirmed
      exactly those are in the kernel; while a row is armed, in the ruleset a revert would bring
      back, and the kernel has the armed version's instead once that is loaded. */
  ghost predicate LedgerHolds(s: State) {
    && ToSet(s.db.ledger) == LastConfirmed(s.db.versions)
    && (s.db.pending.Some? ==>
          && s.db.pending.value.version == |s.db.versions| - 1
          && !s.db.versions[s.db.pending.value.version].status.Confirmed?)
    && (forall r :: r in EverConfirmed(s.db.versions) ==> (r in Resting(s) <==> r in s.db.ledger))
    && (s.unconfirmed.None? ==> forall r :: r in EverConfirmed(s.db.versions) ==> (r in s.kernel <==> r in Resting(s)))
    && (s.unconfirmed.Some? && s.unconfirmed.value < |s.db.versions| ==>
          forall r :: r in EverConfirmed(s.db.versions) + ConfigRefs(s, s.unconfirmed.value) ==>
            (r in s.kernel <==> r in ConfigRefs(s, s.unconfirmed.value)))
  }

  // The ruleset that stays unless the armed version is confirmed.
  ghost function Resting(s: State): (k: Ruleset) {
    if s.db.pending.Some? then s.base else s.kernel
  }

  /** What the ledger is for: it names the tables of the newest confirmed apply, and of all tables
      ever confirmed exactly those are in the kernel. */
  ghost predicate LedgerTells(s: State) {
    && ToSet(s.db.ledger) == LastConfirmed(s.db.versions)
    && forall r :: r in EverConfirmed(s.db.versions) ==> (r in s.kernel <==> r in s.db.ledger)
  }

  // ── The runs it holds on ──────────────────────────────────────────────────

  // The tables the ledger names once a confirm is through the first `at` of its states.
  ghost function LedgerAt(s: State, f: ConfirmFate, at: nat): (r: set<TableRef>) {
    ToSet(if f.statusOk && f.ledgerOk && at >= 4 then ConfirmedTables(s, f) else s.db.ledger)
  }

  /** What a confirm that cleared its row needs. Once the version is confirmed: the ledger names
      its tables, and it is the one loaded, or else it drops no ledger table and has only tables
      the kernel has. Before that: the version, if loaded, has the ledger's among the tables
      confirmed before. */
  ghost predicate Right(s: State, f: ConfirmFate, at: nat) {
    f.readOk && s.db.pending.Some? && f.clearOk && at >= 2 && s.db.pending.value.version < |s.db.versions| ==>
      var applied := ConfigRefs(s, s.db.pending.value.version);
      var loaded := s.unconfirmed == Some(s.db.pending.value.version);
      if f.statusOk && at >= 3 then
        LedgerAt(s, f, at) == applied && (loaded || (ToSet(s.db.ledger) <= applied && applied <= s.kernel.Keys))
      else
        loaded ==> ToSet(s.db.ledger) == applied * EverConfirmed(s.db.versions)
  }

  /** Every confirm is right where it ends or is cut off, and nobody else creates or deletes the
      tables of recorded versions. Whatever else fails or crashes, the ledger holds. */
  ghost predicate Clean(s: State, e: Event)
    decreases e
  {
    match e
    case Confirm(f) => Right(s, f, |ConfirmTrace(s, f)| - 1)
    case Outside(k) => forall v, r :: 0 <= v < |s.db.versions| && r in ConfigRefs(s, v) ==> (r in k <==> r in s.kernel)
    case CrashIn(e', n) => if e'.Confirm? then Right(s, e'.cf, n) else Clean(s, e')
    case _ => true
  }

  // ── Versions that do not count ────────────────────────────────────────────

  lemma AppendPending(vs: seq<Version>, v: Version)
    requires !v.status.Confirmed?
    ensures LastConfirmed(vs + [v]) == LastConfirmed(vs) && EverConfirmed(vs + [v]) == EverConfirmed(vs)
  {
    assert (vs + [v])[..|vs|] == vs;
  }

  lemma LastBecomes(vs: seq<Version>, st: Status)
    requires vs != [] && !vs[|vs| - 1].status.Confirmed?
    ensures var w := WithStatus(vs, |vs| - 1, st);
            && |w| == |vs|
            && (!st.Confirmed? ==> LastConfirmed(w) == LastConfirmed(vs) && EverConfirmed(w) == EverConfirmed(vs))
            && (st.Confirmed? ==>
                  && LastConfirmed(w) == ToSet(Refs(vs[|vs| - 1].config))
                  && EverConfirmed(w) == EverConfirmed(vs) + ToSet(Refs(vs[|vs| - 1].config)))
  {
    var n := |vs| - 1;
    assert WithStatus(vs, n, st)[..n] == vs[..n];
  }

  lemma {:induction false} EverIsRecorded(s: State, vs: seq<Version>, r: TableRef)
    requires vs <= s.db.versions && r in EverConfirmed(vs)
    ensures exists v :: 0 <= v < |s.db.versions| && r in ConfigRefs(s, v)
  {
    var n := |vs| - 1;
    if r !in ToSet(Refs(vs[n].config)) || !vs[n].status.Confirmed? {
      EverIsRecorded(s, vs[..n], r);
    } else {
      assert r in ConfigRefs(s, n);
    }
  }

  lemma {:induction false} UpdateKeepsRefs(vs: seq<Version>, config: seq<Decl>)
    requires Latest(vs).Some? && Refs(config) == Refs(Latest(vs).value)
    ensures LastConfirmed(UpdateLatest(vs, config)) == LastConfirmed(vs)
    ensures EverConfirmed(UpdateLatest(vs, config)) == EverConfirmed(vs)
  {
    hide Refs;
    var n := |vs| - 1;
    var u := UpdateLatest(vs, config);
    if InForce(vs[n]) {
      assert u[..n] == vs[..n];
    } else {
      UpdateKeepsRefs(vs[..n], config);
      assert u[..n] == UpdateLatest(vs[..n], config);
    }
  }

  // ── The tables a script leaves ────────────────────────────────────────────

  lemma {:induction false} ElementsKeepTables(k: Ruleset, script: seq<Command>)
    requires forall c :: c in script ==> c.AddElements? || c.DeleteElements?
    requires Run(k, script).Some?
    ensures Run(k, script).value.Keys == k.Keys
    decreases |script|
  {
    hide SoundSet;
    if script != [] {
      assert script[0] in script;
      ElementsKeepTables(Exec(k, script[0]).value, script[1..]);
    }
  }

  lemma {:induction false} PreservedAdds(doc: seq<ListedSet>, keep: set<SetKey>)
    ensures forall c :: c in BuildPreserved(doc, keep) ==> c.AddElements?
  {
    hide Emits, Carried;
    if doc != [] {
      PreservedAdds(doc[1..], keep);
    }
  }

  /** An apply removes exactly the ledger's tables the model dropped, and adds the model's. */
  lemma ScriptTables(db: Db, k: Ruleset, listing: seq<ListedSet>)
    requires SoundModel(db.tables, db.lists) && Run(k, Script(db, listing)).Some?
    ensures Run(k, Script(db, listing)).value.Keys == k.Keys - ToSet(db.ledger) + ToSet(Refs(Candidate(db)))
  {
    hide Run, LoadModel, BuildApply, BuildPreserved, KeepOf, SoundBody, Refs;
    ConfigSound(db.tables, db.lists);
    var c := Candidate(db);
    var removed := Minus(db.ledger, Refs(c));
    var preserved := BuildPreserved(listing, KeepOf(Trees(db)));
    ApplyRuns(k, c, removed, preserved);
    PreservedAdds(listing, KeepOf(Trees(db)));
    ElementsKeepTables(Overlay(k, c) - ToSet(removed), preserved);
    OverlayKeys(k, c);
    MinusContent(db.ledger, Refs(c));
  }

  // ── Handlers ──────────────────────────────────────────────────────────────

  lemma ApplyHolds(s: State, f: ApplyFate, i: nat)
    requires Safe(s) && s.serving && LedgerHolds(s)
    requires i < |ApplyTrace(s, f)|
    ensures LedgerHolds(ApplyTrace(s, f)[i])
  {
    hide Run, Script, Candidate, Take, Touched, LastConfirmed, EverConfirmed, ToSet, Restorable, SoundModel, SoundKernel;
    if i > 0 {
      var vs := s.db.versions;
      var c := Candidate(s.db);
      AppendPending(vs, Version(c, Pending));
      LastBecomes(vs + [Version(c, Pending)], Failed);
      var t := ApplyTrace(s, f)[i];
      if i >= 3 && f.loadOk && f.pendingOk {
        ScriptTables(s.db, s.kernel, f.listing);
        assert ConfigRefs(t, |vs|) == ToSet(Refs(c));
        MemberOf(s.db.ledger);
      }
    }
  }

  lemma MemberOf(refs: seq<TableRef>)
    ensures forall r :: r in ToSet(refs) <==> r in refs
  {}

  lemma {:induction false} LastWasConfirmed(vs: seq<Version>)
    ensures LastConfirmed(vs) <= EverConfirmed(vs)
  {
    if vs != [] && !vs[|vs| - 1].status.Confirmed? {
      LastWasConfirmed(vs[..|vs| - 1]);
    }
  }

  // What the database is at each point of a confirm that clears its row.
  lemma ConfirmedAt(s: State, f: ConfirmFate, at: nat)
    requires f.readOk && s.db.pending.Some? && f.clearOk && 2 <= at < |ConfirmTrace(s, f)|
    ensures var t := ConfirmTrace(s, f)[at];
            && t.db.pending.None? && t.unconfirmed.None? && t.kernel == s.kernel
            && t.db.versions == (if f.statusOk && at >= 3 then WithStatus(s.db.versions, s.db.pending.value.version, Confirmed)
                                 else s.db.versions)
            && ToSet(t.db.ledger) == LedgerAt(s, f, at)
  {
    hide ToSet, WithStatus, ConfirmedTables, StopTimer;
    StopTimerMemory(s, f.caught);
  }

  /** A confirm that clears its row leaves the ledger telling the truth exactly when it is right:
      at its end, and at every point where a crash can cut it off. */
  lemma ConfirmRightExactly(s: State, f: ConfirmFate, at: nat)
    requires Safe(s) && LedgerHolds(s) && s.db.pending.Some?
    requires f.readOk && f.clearOk && 2 <= at < |ConfirmTrace(s, f)|
    ensures LedgerTells(ConfirmTrace(s, f)[at]) <==> Right(s, f, at)
    ensures LedgerHolds(ConfirmTrace(s, f)[at]) <==> Right(s, f, at)
  {
    hide Safe, ConfirmTrace, LastConfirmed, EverConfirmed, ToSet, WithStatus, Refs, LedgerAt;
    var v := s.db.pending.value.version;
    var t := ConfirmTrace(s, f)[at];
    ConfirmedAt(s, f, at);
    LastBecomes(s.db.versions, Confirmed);
    LastWasConfirmed(s.db.versions);
    OwnArmed(s);
    var applied := ConfigRefs(s, v);
    var ever := EverConfirmed(s.db.versions);
    assert applied == ToSet(Refs(s.db.versions[v].config));
    MemberOf(s.db.ledger);
    MemberOf(t.db.ledger);
    if f.statusOk && at >= 3 {
      RightTables(s.kernel.Keys, ever, ToSet(s.db.ledger), applied, s.unconfirmed == Some(v));
      assert EverConfirmed(t.db.versions) == ever + applied;
    } else {
      assert ToSet(t.db.ledger) == ToSet(s.db.ledger) by { LedgerNotYet(s, f, at); }
    }
  }

  lemma LedgerNotYet(s: State, f: ConfirmFate, at: nat)
    requires !(f.statusOk && at >= 3)
    ensures LedgerAt(s, f, at) == ToSet(s.db.ledger)
  {}

  // The kernel has, of the tables ever confirmed, the armed version's or the ledger's.
  lemma RightTables(kernel: set<TableRef>, ever: set<TableRef>, ledger: set<TableRef>, applied: set<TableRef>, loaded: bool)
    requires ledger <= ever
    requires loaded ==> forall r :: r in ever + applied ==> (r in kernel <==> r in applied)
    requires !loaded ==> forall r :: r in ever ==> (r in kernel <==> r in ledger)
    ensures (forall r :: r in ever + applied ==> (r in kernel <==> r in applied)) <==>
            (loaded || (ledger <= applied && applied <= kernel))
  {}

  lemma OwnArmed(s: State)
    requires Safe(s)
    ensures s.unconfirmed.Some? ==> s.db.pending.Some? && s.unconfirmed == Some(s.db.pending.value.version)
  {
    hide Restorable;
  }

  lemma ConfirmHolds(s: State, f: ConfirmFate, i: nat)
    requires Safe(s) && s.serving && LedgerHolds(s)
    requires Right(s, f, i) && i < |ConfirmTrace(s, f)|
    ensures LedgerHolds(ConfirmTrace(s, f)[i])
  {
    hide Safe, LedgerHolds, Right, ConfirmTrace;
    if f.readOk && s.db.pending.Some? && f.clearOk && i >= 2 {
      ConfirmRightExactly(s, f, i);
    } else {
      ConfirmBefore(s, f, i);
      HoldsIgnoresMemory(s, ConfirmTrace(s, f)[i]);
    }
  }

  lemma ConfirmBefore(s: State, f: ConfirmFate, i: nat)
    requires i < |ConfirmTrace(s, f)|
    requires !(f.readOk && s.db.pending.Some? && f.clearOk && i >= 2)
    ensures ConfirmTrace(s, f)[i] == s.(mem := ConfirmTrace(s, f)[i].mem)
  {
    hide WithStatus, ConfirmedTables;
  }

  lemma RevertHolds(s: State, p: PendingRow, f: RevertFate, i: nat)
    requires Safe(s) && LedgerHolds(s) && s.db.pending == Some(p)
    requires i < |RevertTrace(s, p, f)|
    ensures LedgerHolds(RevertTrace(s, p, f)[i])
  {
    hide Safe, Run, BuildRevert, LastConfirmed, EverConfirmed, ToSet, WithStatus, Refs;
    RevertGivesBase(s);
    LastBecomes(s.db.versions, Reverted);
  }

  lemma HoldsIgnoresMemory(s: State, s1: State)
    requires LedgerHolds(s) && s1 == s.(mem := s1.mem, serving := s1.serving)
    ensures LedgerHolds(s1)
  {
    hide LastConfirmed, EverConfirmed, ToSet, Refs;
  }

  lemma RollbackHolds(s: State, f: RevertFate, i: nat)
    requires Safe(s) && LedgerHolds(s) && i < |RollbackTrace(s, f)|
    ensures LedgerHolds(RollbackTrace(s, f)[i])
  {
    hide Safe, RevertTrace, LedgerHolds, Refs, StopTimer;
    if s.db.pending.Some? && f.readOk {
      var s1 := StopTimer(s, f.caught);
      StopTimerSafe(s, f.caught);
      StopTimerMemory(s, f.caught);
      HoldsIgnoresMemory(s, s1);
      RevertHolds(s1, s.db.pending.value, f, if i == 0 then 0 else i - 1);
    }
  }

  lemma TimerHolds(s: State, v: nat, f: RevertFate, i: nat)
    requires Safe(s) && LedgerHolds(s) && i < |TimerTrace(s, v, f)|
    requires Enabled(s, TimerFires(v, f))
    ensures LedgerHolds(TimerTrace(s, v, f)[i])
  {
    hide Safe, RevertTrace, LedgerHolds, Refs;
    var s1 := s.(mem := s.mem.(inFlight := s.mem.inFlight - multiset{v}));
    HoldsIgnoresMemory(s, s1);
    if s.db.pending.Some? && f.readOk && s.db.pending.value.version == v {
      ForgetsTimers(s, s1);
      RevertHolds(s1, s.db.pending.value, f, if i == 0 then 0 else i - 1);
    }
  }

  lemma RecoverHolds(s: State, f: RevertFate, i: nat)
    requires Safe(s) && LedgerHolds(s) && i < |RecoverTrace(s, f)|
    ensures LedgerHolds(RecoverTrace(s, f)[i])
  {
    hide Safe, RevertTrace, LedgerHolds, Refs;
    var t := RecoverTrace(s, f);
    if s.db.pending.Some? && f.readOk {
      var n := |RevertTrace(s, s.db.pending.value, f)|;
      RevertHolds(s, s.db.pending.value, f, if i < n then i else n - 1);
      HoldsIgnoresMemory(t[if i < n then i else n - 1], t[i]);
    } else {
      HoldsIgnoresMemory(s, s.(serving := true));
    }
  }

  lemma RevertingHolds(s: State, e: Event, i: nat)
    requires Safe(s) && Enabled(s, e) && LedgerHolds(s)
    requires IsRevert(e) && i < |Trace(s, e)|
    ensures LedgerHolds(Trace(s, e)[i])
  {
    hide Safe, RollbackTrace, TimerTrace, RecoverTrace, LedgerHolds, Refs;
    match e
    case Rollback(f) => RollbackHolds(s, f, i);
    case TimerFires(v, f) => TimerHolds(s, v, f, i);
    case Recover(f) => RecoverHolds(s, f, i);
  }

  lemma OutsideHolds(s: State, k: Ruleset)
    requires Safe(s) && LedgerHolds(s) && Clean(s, Outside(k))
    ensures LedgerHolds(OutsideChange(s, k))
  {
    hide LastConfirmed, EverConfirmed, SoundModel, SoundKernel, Refs, Take;
    var t := OutsideChange(s, k);
    forall r | r in EverConfirmed(s.db.versions) ensures r in k <==> r in s.kernel {
      EverIsRecorded(s, s.db.versions, r);
    }
    forall r | r in EverConfirmed(s.db.versions)
      ensures r in (if t.db.pending.Some? then t.base else t.kernel) <==> r in t.db.ledger
    {
      if s.db.pending.Some? {
        assert r in ToSet(SnapRefs(s.db.pending.value.prev)) || (r in s.kernel <==> r in s.base);
      }
    }
    if s.unconfirmed.Some? && s.unconfirmed.value < |s.db.versions| {
      assert ConfigRefs(t, s.unconfirmed.value) == ConfigRefs(s, s.unconfirmed.value);
    }
  }

  lemma {:induction false} AttemptsKeepTables(s: State, cmds: seq<Command>, nftOk: Command -> bool)
    requires forall c :: c in cmds ==> c.AddElements? || c.DeleteElements?
    ensures var r := Attempts(s, cmds, nftOk);
            && (forall i :: 0 <= i < |r.states| ==> r.states[i] == s.(kernel := r.states[i].kernel) && r.states[i].kernel.Keys == s.kernel.Keys)
            && r.end == s.(kernel := r.end.kernel) && r.end.kernel.Keys == s.kernel.Keys
    decreases |cmds|
  {
    hide SoundSet;
    if cmds != [] {
      assert cmds[0] in cmds;
      if nftOk(cmds[0]) && Exec(s.kernel, cmds[0]).Some? {
        AttemptsKeepTables(s.(kernel := Exec(s.kernel, cmds[0]).value), cmds[1..], nftOk);
      } else {
        AttemptsKeepTables(s, cmds[1..], nftOk);
      }
    }
  }

  lemma {:induction false} PushIsElements(trees: seq<TableTree>, l: string, add: seq<Literal>, del: seq<Literal>, order: nat -> Order)
    ensures forall c :: c in PushAll(trees, l, add, del, order) ==> c.AddElements? || c.DeleteElements?
  {
    if trees != [] {
      PushIsElements(trees[1..], l, add, del, order);
      TableIsElements(trees[0], l, add, del, order(|trees|));
    }
  }

  lemma TableIsElements(t: TableTree, l: string, add: seq<Literal>, del: seq<Literal>, o: Order)
    ensures forall c :: c in PushTable(t, l, add, del, o) ==> c.AddElements? || c.DeleteElements?
  {
    hide OfFamily, SetName;
  }

  lemma SameRefs(tables: seq<Table>, lists: seq<NamedList>, lists': seq<NamedList>)
    ensures Refs(Config(LoadModel(tables, lists))) == Refs(Config(LoadModel(tables, lists')))
  {
    hide Loaded, RenderTable;
    forall i | 0 <= i < |tables| ensures Config(LoadModel(tables, lists))[i].ref == Config(LoadModel(tables, lists'))[i].ref {
      RenderedRef(tables[i], lists);
      RenderedRef(tables[i], lists');
    }
  }

  // With no apply armed, only the ledger, the statuses and the set of tables matter.
  lemma HoldsByTables(s: State, t: State)
    requires Safe(s) && LedgerHolds(s) && s.db.pending.None?
    requires t.db.pending.None? && t.unconfirmed == s.unconfirmed && t.serving == s.serving && t.mem == s.mem
    requires t.db.ledger == s.db.ledger && t.kernel.Keys == s.kernel.Keys
    requires LastConfirmed(t.db.versions) == LastConfirmed(s.db.versions)
    requires EverConfirmed(t.db.versions) == EverConfirmed(s.db.versions)
    ensures LedgerHolds(t)
  {
    hide LastConfirmed, EverConfirmed, ToSet, Refs;
  }

  lemma PushHolds(s: State, j: nat, after: seq<Entry>, f: PushFate, i: nat)
    requires Safe(s) && s.serving && LedgerHolds(s)
    requires i < |PushTrace(s, j, after, f)|
    ensures LedgerHolds(PushTrace(s, j, after, f)[i])
  {
    hide Safe, LedgerHolds, LastConfirmed, EverConfirmed, Refs, Attempts, PushAll, Candidate, Latest, UpdateLatest, Trees;
    if j < |s.db.lists| {
      var c := Change(s.db.lists, j, after);
      var s1 := s.(db := s.db.(lists := c.New()));
      EditHolds(s, s.db.tables, c.New());
      var t := PushTrace(s, j, after, f);
      if i >= 2 {
        var cmds := PushAll(Trees(s1.db), c.Name(), c.Adds(), c.Dels(), f.order);
        PushIsElements(Trees(s1.db), c.Name(), c.Adds(), c.Dels(), f.order);
        AttemptsKeepTables(s1, cmds, f.nftOk);
        SameTables(s, c.New());
        UpdateKeepsRefs(s.db.versions, Candidate(s1.db));
        var r := Attempts(s1, cmds, f.nftOk);
        if i < 2 + |r.states| {
          assert t[i] == r.states[i - 2];
        }
        HoldsByTables(s, t[i]);
      }
    }
  }

  lemma SameTables(s: State, lists: seq<NamedList>)
    ensures Refs(Candidate(s.db.(lists := lists))) == Refs(Candidate(s.db))
  {
    SameRefs(s.db.tables, s.db.lists, lists);
  }

  lemma EditHolds(s: State, ts: seq<Table>, ls: seq<NamedList>)
    requires LedgerHolds(s)
    ensures var t := s.(db := s.db.(tables := ts, lists := ls)); LedgerHolds(t)
  {
    hide LastConfirmed, EverConfirmed, ToSet, Refs;
  }

  lemma HandlerHolds(s: State, e: Event, i: nat)
    requires Safe(s) && Enabled(s, e) && LedgerHolds(s) && !e.CrashIn?
    requires i < |Trace(s, e)| && Clean(s, CrashIn(e, i))
    ensures LedgerHolds(Trace(s, e)[i])
  {
    hide Safe, LedgerHolds, ApplyTrace, ConfirmTrace, RollbackTrace, TimerTrace, RecoverTrace, PushTrace, OutsideChange;
    match e
    case Apply(f) => ApplyHolds(s, f, i);
    case Confirm(f) => ConfirmHolds(s, f, i);
    case EditModel(ts, ls) => EditHolds(s, ts, ls);
    case Outside(k) => OutsideHolds(s, k);
    case PushList(j, after, f) => PushHolds(s, j, after, f, i);
    case _ => RevertingHolds(s, e, i);
  }

  lemma CrashHolds(s: State)
    requires LedgerHolds(s)
    ensures LedgerHolds(Crashed(s))
  {
    hide LastConfirmed, EverConfirmed, ToSet, Refs;
  }

  lemma {:induction false} EventHolds(s: State, e: Event)
    requires Safe(s) && Enabled(s, e) && LedgerHolds(s) && Clean(s, e)
    ensures LedgerHolds(Next(s, e))
    decreases e
  {
    hide Safe, LedgerHolds, ApplyTrace, ConfirmTrace, RollbackTrace, TimerTrace, RecoverTrace, PushTrace, OutsideChange;
    if e.CrashIn? {
      EnabledInner(s, e);
      if e.e.CrashIn? {
        EventHolds(s, e.e);
        CrashHolds(Next(s, e.e));
      } else {
        HandlerHolds(s, e.e, e.at);
        CrashHolds(Trace(s, e.e)[e.at]);
      }
    } else {
      HandlerHolds(s, e, |Trace(s, e)| - 1);
    }
  }

  ghost predicate CleanRun(s: State, es: seq<Event>)
    decreases |es|
  {
    es == [] || (Clean(s, es[0]) && CleanRun(Next(s, es[0]), es[1..]))
  }

  lemma {:induction false} LedgerAlwaysHolds(s: State, es: seq<Event>)
    requires Safe(s) && LedgerHolds(s) && IsRun(s, es) && CleanRun(s, es)
    ensures LedgerHolds(After(s, es))
    decreases |es|
  {
    hide Safe, LedgerHolds, Next, Enabled, Clean;
    if es != [] {
      NextIsSafe(s, es[0]);
      EventHolds(s, es[0]);
      LedgerAlwaysHolds(Next(s, es[0]), es[1..]);
    }
  }

  /** From a fresh installation, on every clean run: with no apply armed, the ledger is the table
      set of the newest confirmed apply, and of all tables ever confirmed exactly the ledger's are
      in the kernel. */
  lemma LedgerTruth(s: State, es: seq<Event>)
    requires Initial(s) && IsRun(s, es) && CleanRun(s, es)
    ensures After(s, es).db.pending.None? ==> LedgerTells(After(s, es))
  {
    InitialIsSafe(s);
    LedgerAlwaysHolds(s, es);
  }

  /** And no condition on confirms is too strong: the first confirm of such a run that clears its
      row, whole or cut off, leaves the ledger telling the truth if and only if it is clean. */
  lemma LedgerTruthExactly(s: State, es: seq<Event>, f: ConfirmFate, at: nat)
    requires Initial(s) && IsRun(s, es) && CleanRun(s, es)
    requires After(s, es).serving && After(s, es).db.pending.Some? && f.readOk && f.clearOk
    requires 2 <= at < |ConfirmTrace(After(s, es), f)|
    ensures var u := After(s, es);
            && (LedgerTells(Next(u, Confirm(f))) <==> Clean(u, Confirm(f)))
            && (LedgerTells(Next(u, CrashIn(Confirm(f), at))) <==> Clean(u, CrashIn(Confirm(f), at)))
  {
    hide Safe, Initial, LedgerHolds, IsRun, CleanRun, ConfirmTrace, LedgerTells, Clean, Next;
    InitialIsSafe(s);
    InitialHolds(s);
    AlwaysSafe(s, es);
    LedgerAlwaysHolds(s, es);
    CleanExactly(After(s, es), f, at);
  }

  lemma CleanExactly(s: State, f: ConfirmFate, at: nat)
    requires Safe(s) && LedgerHolds(s) && s.db.pending.Some? && f.readOk && f.clearOk
    requires 2 <= at < |ConfirmTrace(s, f)|
    ensures LedgerTells(Next(s, Confirm(f))) <==> Clean(s, Confirm(f))
    ensures LedgerTells(Next(s, CrashIn(Confirm(f), at))) <==> Clean(s, CrashIn(Confirm(f), at))
  {
    hide Safe, LedgerHolds, Right, ConfirmTrace, EverConfirmed, LastConfirmed, ToSet;
    ConfirmRightExactly(s, f, at);
    ConfirmRightExactly(s, f, |ConfirmTrace(s, f)| - 1);
  }

  /** With every write succeeding: the confirm of a loaded version is right exactly when it records
      that version's tables. Confirming one that is not loaded (its load was rejected, or it was
      reverted, but its row not cleared) takes more: it drops no ledger table, and the kernel has
      all of its tables. */
  lemma ConfirmedLedgerExactly(s: State, f: ConfirmFate)
    requires Safe(s) && LedgerHolds(s) && s.db.pending.Some?
    requires f.readOk && f.clearOk && f.statusOk && f.ledgerOk
    ensures var v := s.db.pending.value.version;
            var t := Next(s, Confirm(f));
            && v < |s.db.versions|
            && (s.unconfirmed == Some(v) ==> (LedgerTells(t) <==> ToSet(ConfirmedTables(s, f)) == ConfigRefs(s, v)))
            && (s.unconfirmed != Some(v) ==>
                  (LedgerTells(t) <==>
                     && ToSet(ConfirmedTables(s, f)) == ConfigRefs(s, v)
                     && ToSet(s.db.ledger) <= ConfigRefs(s, v) <= s.kernel.Keys))
  {
    hide Safe, LedgerHolds, ConfirmTrace, EverConfirmed, LastConfirmed, ToSet, Refs, ConfirmedTables, LedgerTells;
    RowInRange(s);
    FullConfirm(s, f);
    ConfirmRightExactly(s, f, 5);
  }

  lemma FullConfirm(s: State, f: ConfirmFate)
    requires f.readOk && s.db.pending.Some? && f.clearOk && f.statusOk && f.ledgerOk
    ensures |ConfirmTrace(s, f)| == 6
  {}

  /** What a confirm records: the tables captured when it was applied, or, when these are lost, those of
      the live model, if it can be read. */
  lemma ConfirmedTablesRead(s: State, f: ConfirmFate)
    ensures s.mem.applied.Some? ==> ConfirmedTables(s, f) == s.mem.applied.value
    ensures s.mem.applied.None? && !f.modelOk ==> ConfirmedTables(s, f) == []
    ensures s.mem.applied.None? && f.modelOk ==>
              var r := ConfirmedTables(s, f);
              |r| == |s.db.tables| && forall i :: 0 <= i < |r| ==> r[i] == TableRef(s.db.tables[i].family, s.db.tables[i].name)
  {
    hide RendersTable;
    ModelRenders(s.db.tables, s.db.lists);
  }

  // ── The process that applied knows the tables ─────────────────────────────

  /** The armed version is loaded, and the process remembers its tables. */
  ghost predicate Captured(s: State) {
    && s.serving && s.db.pending.Some? && s.db.pending.value.version < |s.db.versions|
    && s.unconfirmed == Some(s.db.pending.value.version)
    && s.mem.applied == Some(Refs(s.db.versions[s.db.pending.value.version].config))
  }

  // The row stays, no crash, and no revert reaches nft.
  ghost predicate Undisturbed(s: State, es: seq<Event>)
    decreases |es|
  {
    s.db.pending.Some? && (es == [] || (!es[0].CrashIn? && !RevertsNow(s, es[0]) && Undisturbed(Next(s, es[0]), es[1..])))
  }

  lemma StaysCaptured(s: State, e: Event)
    requires Safe(s) && Captured(s) && Enabled(s, e) && !e.CrashIn? && !RevertsNow(s, e) && Next(s, e).db.pending.Some?
    ensures Captured(Next(s, e))
  {
    hide Safe, Refs, Run, BuildRevert, StopTimer, Mix, SnapRefs, PushSteps, Refused, ConfirmedTables, WithStatus;
    match e
    case Apply(f) => RefusedWhilePending(s, f);
    case Confirm(f) => StopTimerMemory(s, f.caught);
    case Rollback(f) => StopTimerMemory(s, f.caught);
    case PushList(j, after, f) => NoPushWhilePending(s, j, after, f);
    case _ =>
  }

  lemma {:induction false} UndisturbedIsCaptured(s: State, es: seq<Event>)
    requires Safe(s) && Captured(s) && IsRun(s, es) && Undisturbed(s, es)
    ensures Captured(After(s, es))
    decreases |es|
  {
    hide Safe, Captured, Next, Enabled, RevertsNow;
    if es != [] {
      NextIsSafe(s, es[0]);
      StaysCaptured(s, es[0]);
      UndisturbedIsCaptured(Next(s, es[0]), es[1..]);
    }
  }

  /** Confirming in the process that applied is right, however the model is edited in between: after
      an apply that loads and any run without a crash or a revert, a confirm whose writes succeed
      leaves the ledger telling the truth. */
  lemma ConfirmByApplier(s: State, es: seq<Event>, f: ApplyFate, later: seq<Event>, c: ConfirmFate)
    requires Initial(s) && IsRun(s, es + [Apply(f)] + later) && CleanRun(s, es + [Apply(f)] + later)
    requires var u := After(s, es); !Refused(u, f) && f.pendingOk && f.loadOk && Undisturbed(Next(u, Apply(f)), later)
    requires c.readOk && c.clearOk && c.statusOk && c.ledgerOk
    ensures LedgerTells(After(s, es + [Apply(f)] + later + [Confirm(c)]))
  {
    hide Safe, Initial, LedgerHolds, IsRun, CleanRun, Captured, Next, LedgerTells, Refused, Clean, Undisturbed;
    InitialIsSafe(s);
    InitialHolds(s);
    var u := After(s, es);
    var run := es + [Apply(f)] + later;
    SplitRun(s, es, [Apply(f)] + later);
    assert es + ([Apply(f)] + later) == run;
    RunCons(u, Apply(f), later);
    AlwaysSafe(s, es);
    NextIsSafe(u, Apply(f));
    AppliedIsCaptured(u, f);
    UndisturbedIsCaptured(Next(u, Apply(f)), later);
    var w := After(s, run);
    AlwaysSafe(s, run);
    LedgerAlwaysHolds(s, run);
    CapturedConfirms(w, c);
    SplitRun(s, run, [Confirm(c)]);
    RunCons(w, Confirm(c), []);
    NoEvents(Next(w, Confirm(c)));
    assert [Confirm(c)] + [] == [Confirm(c)];
  }

  lemma AppliedIsCaptured(s: State, f: ApplyFate)
    requires Enabled(s, Apply(f)) && !Refused(s, f) && f.pendingOk && f.loadOk
    ensures Captured(Next(s, Apply(f)))
  {
    hide Run, Script, Candidate, Take, Touched, Refs;
  }

  lemma CapturedConfirms(s: State, f: ConfirmFate)
    requires Safe(s) && LedgerHolds(s) && Captured(s)
    requires f.readOk && f.clearOk && f.statusOk && f.ledgerOk
    ensures LedgerTells(Next(s, Confirm(f)))
  {
    hide Safe, LedgerHolds, LedgerTells, Next, Refs;
    ConfirmedLedgerExactly(s, f);
  }

  lemma {:induction false} SplitRun(s: State, es: seq<Event>, fs: seq<Event>)
    ensures IsRun(s, es + fs) <==> IsRun(s, es) && IsRun(After(s, es), fs)
    ensures After(s, es + fs) == After(After(s, es), fs)
    decreases |es|
  {
    hide Enabled, Next;
    if es == [] {
      assert es + fs == fs;
    } else {
      assert (es + fs)[1..] == es[1..] + fs;
      SplitRun(Next(s, es[0]), es[1..], fs);
    }
  }

  /** So the next apply that loads removes exactly what the model dropped: of all tables ever
      confirmed, exactly the candidate's remain. */
  lemma NextApplyRemovesDropped(s: State, f: ApplyFate)
    requires Safe(s) && s.serving && LedgerHolds(s) && s.db.pending.None?
    requires !Refused(s, f) && f.pendingOk && f.loadOk
    ensures forall r :: r in EverConfirmed(s.db.versions) ==>
              (r in Next(s, Apply(f)).kernel <==> r in Refs(Candidate(s.db)))
  {
    hide Run, Script, Candidate, Take, Touched, EverConfirmed, LastConfirmed, SoundModel, SoundKernel, Restorable, Refs;
    ScriptTables(s.db, s.kernel, f.listing);
    MemberOf(s.db.ledger);
    MemberOf(Refs(Candidate(s.db)));
  }

  // ── A confirm cut off before it wrote the ledger ──────────────────────────

  // An apply is loaded and armed.
  ghost predicate AwaitsConfirm(s: State) {
    && Safe(s) && s.serving && LedgerHolds(s) && s.db.pending.Some?
    && s.unconfirmed == Some(s.db.pending.value.version)
  }

  // The version a confirm confirms.
  ghost function ArmedVersion(s: State): (v: nat)
    requires AwaitsConfirm(s)
    ensures v < |s.db.versions|
  {
    s.db.pending.value.version
  }

  // The tables nftably answers for once the operator confirms: of every version ever confirmed,
  // and of the armed one.
  ghost function Owned(s: State): (r: set<TableRef>)
    requires AwaitsConfirm(s)
  {
    EverConfirmed(s.db.versions) + ConfigRefs(s, ArmedVersion(s))
  }

  /** Row cleared, ledger not written; the status may have been, and the model may have changed. */
  ghost predicate CutShort(s: State, t: State, settled: bool)
    requires AwaitsConfirm(s)
  {
    && t.db.pending.None? && t.db.ledger == s.db.ledger && t.kernel == s.kernel
    && t.db.versions == if settled then WithStatus(s.db.versions, ArmedVersion(s), Confirmed) else s.db.versions
  }

  /** The ledger then names the tables nftably left in the kernel exactly when the confirmed apply
      has the tables of the one before. Read against the statuses it tells the truth exactly then,
      too; or, when the version was left pending, exactly when the two agree on the tables
      confirmed before. */
  lemma StaleLedgerExactly(s: State, t: State, settled: bool)
    requires AwaitsConfirm(s) && CutShort(s, t, settled)
    ensures var applied := ConfigRefs(s, ArmedVersion(s));
            && ((forall r :: r in Owned(s) ==> (r in t.kernel <==> r in t.db.ledger)) <==> ToSet(s.db.ledger) == applied)
            && (LedgerTells(t) <==> ToSet(s.db.ledger) == if settled then applied else applied * EverConfirmed(s.db.versions))
  {
    hide LastConfirmed, EverConfirmed, Restorable, SoundModel, SoundKernel, WithStatus, Refs, Safe;
    var v := ArmedVersion(s);
    LastBecomes(s.db.versions, Confirmed);
    LastWasConfirmed(s.db.versions);
    assert ConfigRefs(s, v) == ToSet(Refs(s.db.versions[v].config));
    assert forall r :: r in Owned(s) ==> (r in t.kernel <==> r in ConfigRefs(s, v));
    MemberOf(s.db.ledger);
    if settled {
      assert EverConfirmed(t.db.versions) == Owned(s) && LastConfirmed(t.db.versions) == ConfigRefs(s, v);
    } else {
      assert forall r :: r in EverConfirmed(s.db.versions) ==> r in Owned(s);
    }
  }

  // The crash points of a confirm between clearing the row and writing the ledger.
  ghost predicate CutAt(f: ConfirmFate, at: nat) {
    f.readOk && f.clearOk && (at == 2 || (at == 3 && f.statusOk))
  }

  /** Where the clean-run condition bites: a crash after a confirm cleared the row but before it
      wrote the ledger, and the recovery after it, keep the old ledger; and when that is wrong. */
  lemma CrashInConfirmKeepsOldLedger(s: State, f: ConfirmFate, at: nat, rf: RevertFate)
    requires AwaitsConfirm(s) && CutAt(f, at)
    ensures var crash := CrashIn(Confirm(f), at);
            var t := Next(Next(s, crash), Recover(rf));
            var applied := ConfigRefs(s, ArmedVersion(s));
            && Enabled(s, crash) && Enabled(Next(s, crash), Recover(rf))
            && CutShort(s, t, at == 3) && t.serving
            && ((forall r :: r in Owned(s) ==> (r in t.kernel <==> r in t.db.ledger)) <==> ToSet(s.db.ledger) == applied)
            && (LedgerTells(t) <==> ToSet(s.db.ledger) == if at == 3 then applied else applied * EverConfirmed(s.db.versions))
  {
    hide Safe, ConfirmedTables, LedgerHolds, EverConfirmed, LastConfirmed, Refs, LedgerTells, WithStatus, StopTimer;
    StopTimerMemory(s, f.caught);
    var t := Next(Next(s, CrashIn(Confirm(f), at)), Recover(rf));
    StaleLedgerExactly(s, t, at == 3);
  }

  /** The same without any crash, when the write of the status or of the ledger fails. */
  lemma FailedConfirmKeepsOldLedger(s: State, f: ConfirmFate)
    requires AwaitsConfirm(s) && f.readOk && f.clearOk && !(f.statusOk && f.ledgerOk)
    ensures var t := Next(s, Confirm(f));
            var applied := ConfigRefs(s, ArmedVersion(s));
            && CutShort(s, t, f.statusOk)
            && (LedgerTells(t) <==> ToSet(s.db.ledger) == if f.statusOk then applied else applied * EverConfirmed(s.db.versions))
  {
    hide Safe, ConfirmedTables, LedgerHolds, EverConfirmed, LastConfirmed, Refs, LedgerTells, WithStatus, StopTimer;
    StopTimerMemory(s, f.caught);
    StaleLedgerExactly(s, Next(s, Confirm(f)), f.statusOk);
  }

  /** What a wrong ledger costs. Let the armed version's row be gone, its tables still in the kernel,
      whatever the ledger. Of the tables nftably answers for, the next apply that loads leaves its
      own and the orphans, the armed version's tables the ledger does not name. So it removes
      exactly what the model dropped if and only if the model still has every orphan. */
  lemma NextApplyKeepsOrphans(s: State, t: State, f: ApplyFate)
    requires AwaitsConfirm(s) && t.kernel == s.kernel && Safe(t)
    requires !Refused(t, f) && f.pendingOk && f.loadOk
    ensures var k := Next(t, Apply(f)).kernel;
            var orphans := ConfigRefs(s, ArmedVersion(s)) - ToSet(t.db.ledger);
            var candidate := ToSet(Refs(Candidate(t.db)));
            && (forall r :: r in Owned(s) ==> (r in k <==> r in candidate || r in orphans))
            && ((forall r :: r in Owned(s) ==> (r in k <==> r in candidate)) <==> orphans <= candidate)
  {
    hide Run, Script, Candidate, Take, Touched, EverConfirmed, LastConfirmed, SoundModel, SoundKernel, Restorable, Refs, WithStatus;
    SafeModel(t);
    ScriptTables(t.db, t.kernel, f.listing);
  }

  lemma SafeModel(s: State)
    requires Safe(s)
    ensures SoundModel(s.db.tables, s.db.lists)
  {}

  // Every call succeeds.
  const APPLIES := ApplyFate(true, true, [], true, true, true, true, true, true)
  const CONFIRMS := ConfirmFate(true, true, true, true, true, true)
  const REVERTS := RevertFate(true, true, true, true, true)

  /** A run that shows it: on a fresh installation apply any model, crash in the confirm, drop every
      table from the model and apply again. The tables are still in the kernel: no table of the
      model and none of the ledger. */
  lemma CrashOrphansTables(s: State)
    requires Initial(s) && s.db.tables != []
    ensures var es := [Recover(REVERTS), Apply(APPLIES), CrashIn(Confirm(CONFIRMS), 3), Recover(REVERTS),
                       EditModel([], s.db.lists), Apply(APPLIES)];
            var t := After(s, es);
            && IsRun(s, es)
            && t.db.tables == [] && t.db.ledger == []
            && Refs(Candidate(s.db)) != [] && forall r :: r in Refs(Candidate(s.db)) ==> r in t.kernel
  {
    hide Safe, Run, Script, Candidate, Refs, LedgerHolds, Enabled, Next, After, IsRun, EverConfirmed, Refused, Initial, CutShort;
    var s1 := Next(s, Recover(REVERTS));
    ServesFresh(s);
    var s2 := Next(s1, Apply(APPLIES));
    FirstApply(s, s1);
    CrashAndDrop(s2);
    var s3 := Next(s2, CrashIn(Confirm(CONFIRMS), 3));
    var s4 := Next(s3, Recover(REVERTS));
    var s5 := Next(s4, EditModel([], s.db.lists));
    LoadsEmpty(s5);
    LedgerStays(s2, s5);
    NextApplyKeepsOrphans(s2, s5, APPLIES);
    SixEvents(s, Recover(REVERTS), Apply(APPLIES), CrashIn(Confirm(CONFIRMS), 3), Recover(REVERTS), EditModel([], s.db.lists), Apply(APPLIES));
    EveryTableRendered(s.db);
  }

  /** The same without a failing write: die once the first apply is armed, let the recovery fail, drop
      every table from the model, then confirm and apply, with every call succeeding. The confirm
      records the live model's tables, none, so the tables it confirmed stay in the kernel. */
  lemma FailedRecoveryOrphansTables(s: State, rf: RevertFate)
    requires Initial(s) && s.db.tables != [] && (!rf.readOk || !rf.loadOk)
    ensures var es := [Recover(REVERTS), CrashIn(Apply(APPLIES), 4), Recover(rf), EditModel([], s.db.lists),
                       Confirm(CONFIRMS), Apply(APPLIES)];
            var u := After(s, es[..5]);
            var t := After(s, es);
            && IsRun(s, es)
            && u.db.versions == [Version(Candidate(s.db), Confirmed)] && !LedgerTells(u)
            && t.db.tables == [] && t.db.ledger == []
            && Refs(Candidate(s.db)) != [] && forall r :: r in Refs(Candidate(s.db)) ==> r in t.kernel
  {
    hide Safe, Run, Script, Candidate, Refs, LedgerHolds, Enabled, Next, After, IsRun, EverConfirmed, Refused, Initial, LedgerTells;
    var s1 := Next(s, Recover(REVERTS));
    ServesFresh(s);
    FirstApply(s, s1);
    var s2 := Next(s1, CrashIn(Apply(APPLIES), 4));
    ArmedCrash(s1);
    var s3 := Next(s2, Recover(rf));
    var s4 := Next(s3, EditModel([], s.db.lists));
    FailedRecoveryAndDrop(Next(s1, Apply(APPLIES)), rf);
    var s5 := Next(s4, Confirm(CONFIRMS));
    EveryTableRendered(s.db);
    MemberOf(Refs(Candidate(s.db)));
    assert Refs(Candidate(s.db))[0] in ConfigRefs(s4, 0);
    ConfirmsEmpty(s4);
    LoadsEmpty(s5);
    NextApplyKeepsOrphans(s4, s5, APPLIES);
    SixEvents(s, Recover(REVERTS), CrashIn(Apply(APPLIES), 4), Recover(rf), EditModel([], s.db.lists), Confirm(CONFIRMS), Apply(APPLIES));
  }

  lemma LedgerStays(s: State, t: State)
    requires AwaitsConfirm(s) && CutShort(s, t, true)
    ensures t.db.ledger == s.db.ledger && t.kernel == s.kernel
  {}

  lemma EveryTableRendered(db: Db)
    requires db.tables != []
    ensures Refs(Candidate(db)) != []
  {
    hide Loaded, RenderTable;
  }

  // From an armed apply: crash in the confirm, recover, empty the model.
  lemma CrashAndDrop(s: State)
    requires AwaitsConfirm(s)
    ensures var s3 := Next(s, CrashIn(Confirm(CONFIRMS), 3));
            var s4 := Next(s3, Recover(REVERTS));
            var edit := EditModel([], s.db.lists);
            var s5 := Next(s4, edit);
            && Enabled(s, CrashIn(Confirm(CONFIRMS), 3)) && Enabled(s3, Recover(REVERTS)) && Enabled(s4, edit)
            && CutShort(s, s5, true) && Safe(s5) && s5.serving && s5.db.tables == [] && s5.db.pending.None?
  {
    hide Safe, LedgerHolds, EverConfirmed, ConfirmTrace, RecoverTrace, SoundModel;
    var s3 := Next(s, CrashIn(Confirm(CONFIRMS), 3));
    var s4 := Next(s3, Recover(REVERTS));
    CrashInConfirmKeepsOldLedger(s, CONFIRMS, 3, REVERTS);
    NextIsSafe(s, CrashIn(Confirm(CONFIRMS), 3));
    NextIsSafe(s3, Recover(REVERTS));
    SafeModel(s);
    EmptyModelSound(s.db.tables, s.db.lists);
    NextIsSafe(s4, EditModel([], s.db.lists));
  }

  // A crash right after an apply was armed loses the memory, nothing else.
  lemma ArmedCrash(s: State)
    requires Enabled(s, Apply(APPLIES)) && !Refused(s, APPLIES)
    ensures Enabled(s, CrashIn(Apply(APPLIES), 4)) && Next(s, CrashIn(Apply(APPLIES), 4)) == Crashed(Next(s, Apply(APPLIES)))
  {
    hide Run, Script, Candidate, Take, Touched, Refs;
  }

  // From an armed apply: crash, fail to recover, empty the model.
  lemma FailedRecoveryAndDrop(s: State, rf: RevertFate)
    requires AwaitsConfirm(s) && (!rf.readOk || !rf.loadOk)
    ensures var s2 := Crashed(s);
            var s3 := Next(s2, Recover(rf));
            var edit := EditModel([], s.db.lists);
            var s4 := Next(s3, edit);
            && Enabled(s2, Recover(rf)) && Enabled(s3, edit)
            && AwaitsConfirm(s4) && s4.mem.applied.None? && s4.db.tables == []
            && s4.db.versions == s.db.versions && s4.db.pending == s.db.pending && s4.kernel == s.kernel
            && s4.db.ledger == s.db.ledger
  {
    hide Safe, LedgerHolds, SoundModel, Run, BuildRevert;
    var s2 := Crashed(s);
    var s3 := Next(s2, Recover(rf));
    CrashIsSafe(s);
    CrashHolds(s);
    NextIsSafe(s2, Recover(rf));
    EventHolds(s2, Recover(rf));
    SafeModel(s);
    EmptyModelSound(s.db.tables, s.db.lists);
    NextIsSafe(s3, EditModel([], s.db.lists));
    EventHolds(s3, EditModel([], s.db.lists));
  }

  // Confirming with an empty model and nothing remembered.
  lemma ConfirmsEmpty(s: State)
    requires AwaitsConfirm(s) && s.mem.applied.None? && s.db.tables == []
    ensures var t := Next(s, Confirm(CONFIRMS));
            && Enabled(s, Confirm(CONFIRMS)) && Safe(t) && t.serving && t.db.pending.None?
            && t.db.tables == [] && t.db.ledger == [] && t.kernel == s.kernel
            && t.db.versions == WithStatus(s.db.versions, ArmedVersion(s), Confirmed)
            && (LedgerTells(t) <==> ConfigRefs(s, ArmedVersion(s)) == {})
  {
    hide Safe, LedgerHolds, LedgerTells, WithStatus, LastConfirmed, EverConfirmed, StopTimer;
    StopTimerMemory(s, CONFIRMS.caught);
    NextIsSafe(s, Confirm(CONFIRMS));
    ConfirmedLedgerExactly(s, CONFIRMS);
  }

  lemma FiveEvents(s: State, e1: Event, e2: Event, e3: Event, e4: Event, e5: Event)
    ensures var s1 := Next(s, e1);
            var s2 := Next(s1, e2);
            var s3 := Next(s2, e3);
            var s4 := Next(s3, e4);
            && After(s, [e1, e2, e3, e4, e5]) == Next(s4, e5)
            && (IsRun(s, [e1, e2, e3, e4, e5]) <==>
                  Enabled(s, e1) && Enabled(s1, e2) && Enabled(s2, e3) && Enabled(s3, e4) && Enabled(s4, e5))
  {
    hide Next, Enabled, After, IsRun;
    var s2 := Next(Next(s, e1), e2);
    var s4 := Next(Next(s2, e3), e4);
    RunCons(s, e1, [e2, e3, e4, e5]);
    RunCons(Next(s, e1), e2, [e3, e4, e5]);
    RunCons(s2, e3, [e4, e5]);
    RunCons(Next(s2, e3), e4, [e5]);
    RunCons(s4, e5, []);
    NoEvents(Next(s4, e5));
    assert [e1] + [e2, e3, e4, e5] == [e1, e2, e3, e4, e5];
    assert [e2] + [e3, e4, e5] == [e2, e3, e4, e5];
    assert [e3] + [e4, e5] == [e3, e4, e5];
    assert [e4] + [e5] == [e4, e5] && [e5] + [] == [e5];
  }

  lemma SixEvents(s: State, e1: Event, e2: Event, e3: Event, e4: Event, e5: Event, e6: Event)
    ensures var s1 := Next(s, e1);
            var s2 := Next(s1, e2);
            var s3 := Next(s2, e3);
            var s4 := Next(s3, e4);
            var s5 := Next(s4, e5);
            && After(s, [e1, e2, e3, e4, e5, e6]) == Next(s5, e6)
            && After(s, [e1, e2, e3, e4, e5, e6][..5]) == s5
            && (IsRun(s, [e1, e2, e3, e4, e5, e6]) <==>
                  Enabled(s, e1) && Enabled(s1, e2) && Enabled(s2, e3) && Enabled(s3, e4) && Enabled(s4, e5) && Enabled(s5, e6))
  {
    hide Next, Enabled, After, IsRun;
    FiveEvents(s, e1, e2, e3, e4, e5);
    FiveEvents(Next(s, e1), e2, e3, e4, e5, e6);
    RunCons(s, e1, [e2, e3, e4, e5, e6]);
    assert [e1] + [e2, e3, e4, e5, e6] == [e1, e2, e3, e4, e5, e6];
    assert [e1, e2, e3, e4, e5, e6][..5] == [e1, e2, e3, e4, e5];
  }

  lemma NoEvents(s: State)
    ensures After(s, []) == s && IsRun(s, [])
  {}

  // A fresh installation starts serving with nothing recorded.
  lemma ServesFresh(s: State)
    requires Initial(s)
    ensures Enabled(s, Recover(REVERTS)) && Next(s, Recover(REVERTS)) == s.(serving := true)
  {
    hide SoundModel, SoundKernel;
  }

  lemma InitialHolds(s: State)
    requires Initial(s)
    ensures LedgerHolds(s)
  {}

  // Its first apply loads and is armed, with an empty ledger.
  lemma FirstApply(s: State, s1: State)
    requires Initial(s) && s1 == s.(serving := true)
    ensures var t := Next(s1, Apply(APPLIES));
            && Enabled(s1, Apply(APPLIES)) && !Refused(s1, APPLIES) && AwaitsConfirm(t) && ArmedVersion(t) == 0
            && t.db.versions == [Version(Candidate(s.db), Pending)]
            && ConfigRefs(t, 0) == ToSet(Refs(Candidate(s.db)))
            && t.db.ledger == [] && t.db.tables == s.db.tables && t.db.lists == s.db.lists
  {
    hide Safe, Run, Script, LedgerHolds, SoundKernel;
    InitialIsSafe(s);
    InitialHolds(s);
    ServesFresh(s);
    ScriptRuns(s1.db, s1.kernel);
    NextIsSafe(s, Recover(REVERTS));
    EventHolds(s, Recover(REVERTS));
    NextIsSafe(s1, Apply(APPLIES));
    EventHolds(s1, Apply(APPLIES));
  }

  lemma EmptyModelSound(tables: seq<Table>, lists: seq<NamedList>)
    requires SoundModel(tables, lists)
    ensures SoundModel([], lists)
  {}

  // With an empty model and nothing armed, an apply loads.
  lemma LoadsEmpty(s: State)
    requires Safe(s) && s.serving && s.db.pending.None? && s.db.tables == []
    ensures Enabled(s, Apply(APPLIES)) && !Refused(s, APPLIES)
    ensures Refs(Candidate(s.db)) == []
    ensures Next(s, Apply(APPLIES)).db.tables == [] && Next(s, Apply(APPLIES)).db.ledger == s.db.ledger
  {
    hide Run, Script, SoundModel, SoundKernel, Restorable;
    SafeModel(s);
    ScriptRuns(s.db, s.kernel);
  }

  lemma RunCons(s: State, e: Event, es: seq<Event>)
    ensures IsRun(s, [e] + es) <==> Enabled(s, e) && IsRun(Next(s, e), es)
    ensures After(s, [e] + es) == After(Next(s, e), es)
  {
    hide Enabled, Next;
    assert ([e] + es)[1..] == es;
  }
}
