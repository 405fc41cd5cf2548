/** Version lifecycle and timers (internal/web/apply.go, internal/store/configversions.go). */
module Lifecycle {
  import opened Wrappers
  import opened Addresses
  import opened Model
  import opened Sets
  import opened Kernel
  import opened Render
  import opened Bans
  import opened ListSync
  import opened Protocol
  import opened CrashSafety

  predicate Terminal(st: Status) {
    !st.Pending?
  }

  /** The pending row points at a version that was already given up. */
  predicate FailedRow(s: State) {
    && s.db.pending.Some?
    && s.db.pending.value.version < |s.db.versions|
    && s.db.versions[s.db.pending.value.version].status.Failed?
  }

  // In every run a pending row's version is pending, or failed: nothing else can be armed.
  predicate RowStatus(s: State) {
    s.db.pending.Some? ==>
      && s.db.pending.value.version < |s.db.versions|
      && (s.db.versions[s.db.pending.value.version].status.Pending? || FailedRow(s))
  }

  /** The event gets as far as writing the final status of the pending row's version. */
  ghost predicate Settles(s: State, e: Event)
    decreases e
  {
    s.db.pending.Some? &&
    match e
    case Confirm(f) => f.readOk && f.clearOk && f.statusOk
    case Rollback(f) => f.readOk && f.loadOk && f.clearOk && f.statusOk
    case TimerFires(v, f) => v == s.db.pending.value.version && f.readOk && f.loadOk && f.clearOk && f.statusOk
    case Recover(f) => f.readOk && f.loadOk && f.clearOk && f.statusOk
    case CrashIn(e', n) => Settles(s, e') && (e'.CrashIn? || n >= SettleIndex(e'))
    case _ => false
  }

  // Which state of its trace is the first with the status written.
  function SettleIndex(e: Event): (n: nat) {
    if e.Confirm? then 3 else if e.Recover? then 4 else 5
  }

  function FinalStatus(e: Event): (st: Status)
    ensures st.Confirmed? || st.Reverted?
    decreases e
  {
    if e.CrashIn? then FinalStatus(e.e) else if e.Confirm? then Confirmed else Reverted
  }

  /** The apply whose load nft rejected, whose row could not be cleared, but whose version was
      marked failed: handleApply ignores both errors. */
  ghost predicate RejectedUncleared(s: State, e: Event)
    decreases e
  {
    match e
    case Apply(f) => !Refused(s, f) && f.pendingOk && !f.loadOk && !f.clearOk && f.statusOk
    case CrashIn(e', n) => RejectedUncleared(s, e') && (e'.CrashIn? || n == 3)
    case _ => false
  }

  ghost predicate SameStatuses(s: State, t: State) {
    && |s.db.versions| <= |t.db.versions|
    && forall v :: 0 <= v < |s.db.versions| ==> t.db.versions[v].status == s.db.versions[v].status
  }

  // All statuses as before, but for the pending row's version.
  ghost predicate SettledTo(s: State, t: State, st: Status) {
    && s.db.pending.Some?
    && |s.db.versions| == |t.db.versions|
    && forall v :: 0 <= v < |s.db.versions| ==>
         t.db.versions[v].status == if v == s.db.pending.value.version then st else s.db.versions[v].status
  }

  lemma {:induction false} UpdateLatestStatuses(vs: seq<Version>, config: seq<Decl>)
    ensures forall v :: 0 <= v < |vs| ==> UpdateLatest(vs, config)[v].status == vs[v].status
  {
    if vs != [] && !InForce(vs[|vs| - 1]) {
      UpdateLatestStatuses(vs[..|vs| - 1], config);
    }
  }

  // ── What each handler writes, state by state ──────────────────────────────

  lemma ApplyWrites(s: State, f: ApplyFate, i: nat)
    requires i < |ApplyTrace(s, f)|
    ensures var t := ApplyTrace(s, f)[i];
            if i == 0 then t == s
            else
              && s.db.pending.None?
              && (exists st :: t.db.versions == s.db.versions + [Version(Candidate(s.db), st)])
              && (t.db.pending.Some? ==> t.db.pending.value.version == |s.db.versions|)
              && (FailedRow(t) <==> RejectedUncleared(s, Apply(f)) && i == 3)
              && RowStatus(t)
    ensures RejectedUncleared(s, Apply(f)) ==> |ApplyTrace(s, f)| == 4
  {
    hide Run, Script, Candidate, Take, Touched, Refs;
    if i > 0 {
      var vs := s.db.versions;
      var c := Candidate(s.db);
      assert (vs + [Version(c, Pending)])[|vs| := Version(c, Failed)] == vs + [Version(c, Failed)];
    }
  }

  lemma ConfirmWrites(s: State, f: ConfirmFate, i: nat)
    requires i < |ConfirmTrace(s, f)|
    ensures var t := ConfirmTrace(s, f)[i];
            && t.db.pending == (if i >= 2 then None else s.db.pending)
            && (if i >= 3 then s.db.pending.Some? && t.db.versions == WithStatus(s.db.versions, s.db.pending.value.version, Confirmed)
                else t.db.versions == s.db.versions)
    ensures |ConfirmTrace(s, f)| > 3 <==> Settles(s, Confirm(f))
  {
    hide ConfirmedTables, WithStatus;
  }

  lemma RevertWrites(s: State, p: PendingRow, f: RevertFate, i: nat)
    requires Safe(s) && s.db.pending == Some(p) && i < |RevertTrace(s, p, f)|
    ensures var t := RevertTrace(s, p, f)[i];
            && t.db.pending == (if i >= 2 then None else s.db.pending)
            && t.db.versions == (if i >= 4 then WithStatus(s.db.versions, p.version, Reverted) else s.db.versions)
            && (i >= 3 ==> t.mem.applied.None?)
    ensures |RevertTrace(s, p, f)| == 5 <==> f.loadOk && f.clearOk && f.statusOk
    ensures |RevertTrace(s, p, f)| <= 5
  {
    RevertGivesBase(s);
    hide Safe, Run, BuildRevert, WithStatus;
  }

  // Rollback, timer and recovery: a step of their own before or after the revert.
  lemma RevertingWrites(s: State, e: Event, i: nat)
    requires Safe(s) && Enabled(s, e) && IsRevert(e) && i < |Trace(s, e)|
    ensures var t := Trace(s, e)[i];
            && (t.db.pending == s.db.pending || t.db.pending.None?)
            && (i >= SettleIndex(e) && Settles(s, e) ==> t.db.pending.None?)
            && t.db.versions ==
                 if i >= SettleIndex(e) && Settles(s, e) then WithStatus(s.db.versions, s.db.pending.value.version, Reverted)
                 else s.db.versions
    ensures Settles(s, e) ==> |Trace(s, e)| > SettleIndex(e)
  {
    hide Safe, RollbackTrace, TimerTrace, RecoverTrace, WithStatus;
    match e
    case Rollback(f) => RollbackWrites(s, f, i);
    case TimerFires(v, f) => TimerWrites(s, v, f, i);
    case Recover(f) => RecoverWrites(s, f, i);
  }

  // What the revert handlers share: the row, and the versions once settled.
  ghost predicate RevertedAt(s: State, t: State, e: Event, i: nat) {
    && (t.db.pending == s.db.pending || t.db.pending.None?)
    && (i >= SettleIndex(e) && Settles(s, e) ==> t.db.pending.None?)
    && t.db.versions ==
         if i >= SettleIndex(e) && Settles(s, e) then WithStatus(s.db.versions, s.db.pending.value.version, Reverted)
         else s.db.versions
  }

  lemma RollbackWrites(s: State, f: RevertFate, i: nat)
    requires Safe(s) && i < |RollbackTrace(s, f)|
    ensures RevertedAt(s, RollbackTrace(s, f)[i], Rollback(f), i)
    ensures Settles(s, Rollback(f)) ==> |RollbackTrace(s, f)| > 5
  {
    hide Safe, RevertTrace, WithStatus, StopTimer;
    if s.db.pending.Some? && f.readOk {
      StopTimerSafe(s, f.caught);
      RevertWrites(StopTimer(s, f.caught), s.db.pending.value, f, if i == 0 then 0 else i - 1);
    }
  }

  lemma TimerWrites(s: State, v: nat, f: RevertFate, i: nat)
    requires Safe(s) && i < |TimerTrace(s, v, f)|
    ensures RevertedAt(s, TimerTrace(s, v, f)[i], TimerFires(v, f), i)
    ensures Settles(s, TimerFires(v, f)) ==> |TimerTrace(s, v, f)| > 5
  {
    hide Safe, RevertTrace, WithStatus;
    if s.db.pending.Some? && f.readOk && s.db.pending.value.version == v {
      var s1 := s.(mem := s.mem.(inFlight := s.mem.inFlight - multiset{v}));
      ForgetsTimers(s, s1);
      RevertWrites(s1, s.db.pending.value, f, if i == 0 then 0 else i - 1);
    }
  }

  lemma RecoverWrites(s: State, f: RevertFate, i: nat)
    requires Safe(s) && i < |RecoverTrace(s, f)|
    ensures RevertedAt(s, RecoverTrace(s, f)[i], Recover(f), i)
    ensures Settles(s, Recover(f)) ==> |RecoverTrace(s, f)| > 4
  {
    hide Safe, RevertTrace, WithStatus;
    if s.db.pending.Some? && f.readOk {
      var n := |RevertTrace(s, s.db.pending.value, f)|;
      RevertWrites(s, s.db.pending.value, f, if i < n then i else n - 1);
    }
  }

  /** A crash leaves database and kernel as they were at the cut and forgets the rest: nothing is served,
      no timer is armed or in flight, and the tables captured at apply time are lost. */
  lemma CrashForgets(s: State, e: Event, n: nat, v: nat, rf: RevertFate)
    requires Enabled(s, CrashIn(e, n))
    ensures var t, cut := Next(s, CrashIn(e, n)), Trace(s, e)[n];
            && t.db == cut.db && t.kernel == cut.kernel
            && !t.serving && t.mem.timer.None? && t.mem.applied.None? && !Enabled(t, TimerFires(v, rf))
  {}

  /** What a process remembers of an apply it forgets when the apply is resolved: a confirm or a revert
      that gets as far as writing the status leaves no applied tables behind. */
  lemma ResolvingForgets(s: State, e: Event)
    requires Safe(s) && Enabled(s, e) && !e.CrashIn? && Settles(s, e)
    ensures Next(s, e).mem.applied.None?
  {
    hide Safe, RevertTrace, WithStatus, StopTimer, ConfirmedTables;
    match e
    case Confirm(f) =>
    case Rollback(f) =>
      StopTimerSafe(s, f.caught);
      var s1 := StopTimer(s, f.caught);
      RevertWrites(s1, s.db.pending.value, f, |RevertTrace(s1, s.db.pending.value, f)| - 1);
    case TimerFires(v, f) =>
      var s1 := s.(mem := s.mem.(inFlight := s.mem.inFlight - multiset{v}));
      ForgetsTimers(s, s1);
      RevertWrites(s1, s.db.pending.value, f, |RevertTrace(s1, s.db.pending.value, f)| - 1);
    case Recover(f) =>
      RevertWrites(s, s.db.pending.value, f, |RevertTrace(s, s.db.pending.value, f)| - 1);
  }

  // Every other event leaves the row and the statuses alone.
  lemma OtherWrites(s: State, e: Event, i: nat)
    requires e.EditModel? || e.Outside? || e.PushList?
    requires i < |Trace(s, e)|
    ensures SameStatuses(s, Trace(s, e)[i]) && |Trace(s, e)[i].db.versions| == |s.db.versions|
    ensures Trace(s, e)[i].db.pending == s.db.pending
  {
    hide PushTrace, Mix, SnapRefs;
    if e.PushList? {
      PushStatuses(s, e.i, e.after, e.pf, i);
    }
  }

  /** What any event does to the statuses, state by state. */
  lemma HandlerStatuses(s: State, e: Event, i: nat)
    requires Safe(s) && Enabled(s, e) && !e.CrashIn? && i < |Trace(s, e)|
    ensures var t := Trace(s, e)[i];
            if Settles(s, e) && i >= SettleIndex(e) then SettledTo(s, t, FinalStatus(e)) && t.db.pending.None?
            else SameStatuses(s, t)
    ensures Settles(s, e) ==> |Trace(s, e)| > SettleIndex(e)
  {
    RowInRange(s);
    hide Safe, ApplyTrace, ConfirmTrace, RollbackTrace, TimerTrace, RecoverTrace, PushTrace, RowStatus, FailedRow, SameStatuses, SettledTo, WithStatus;
    var t := Trace(s, e)[i];
    KeptStatuses(s, t);
    if e.Apply? {
      ApplyWrites(s, e.af, i);
      if i > 0 {
        var st :| t.db.versions == s.db.versions + [Version(Candidate(s.db), st)];
        OneMore(s, t, Version(Candidate(s.db), st));
      }
    } else if e.Confirm? {
      ConfirmWrites(s, e.cf, i);
      SettlesTo(s, t, Confirmed);
    } else if IsRevert(e) {
      RevertingWrites(s, e, i);
      SettlesTo(s, t, Reverted);
    } else {
      OtherWrites(s, e, i);
    }
  }

  lemma KeptStatuses(s: State, t: State)
    ensures t.db.versions == s.db.versions ==> SameStatuses(s, t)
  {}

  lemma OneMore(s: State, t: State, v: Version)
    requires t.db.versions == s.db.versions + [v]
    ensures SameStatuses(s, t)
  {}

  lemma SettlesTo(s: State, t: State, st: Status)
    requires s.db.pending.Some? ==> s.db.pending.value.version < |s.db.versions|
    ensures s.db.pending.Some? && t.db.versions == WithStatus(s.db.versions, s.db.pending.value.version, st) ==> SettledTo(s, t, st)
  {}

  lemma RowInRange(s: State)
    requires Safe(s)
    ensures s.db.pending.Some? ==> s.db.pending.value.version < |s.db.versions|
  {}

  lemma PushStatuses(s: State, j: nat, after: seq<Entry>, f: PushFate, i: nat)
    requires i < |PushTrace(s, j, after, f)|
    ensures SameStatuses(s, PushTrace(s, j, after, f)[i]) && |PushTrace(s, j, after, f)[i].db.versions| == |s.db.versions|
    ensures PushTrace(s, j, after, f)[i].db.pending == s.db.pending
  {
    hide Candidate, PushAll, Attempts, Latest, UpdateLatest, Trees;
    if j < |s.db.lists| {
      var c := Change(s.db.lists, j, after);
      var s1 := s.(db := s.db.(lists := c.New()));
      var cmds := PushAll(Trees(s1.db), c.Name(), c.Adds(), c.Dels(), f.order);
      AttemptsKeepDb(s1, cmds, f.nftOk);
      UpdateLatestStatuses(s.db.versions, Candidate(s1.db));
      var t := PushTrace(s, j, after, f);
      var r := Attempts(s1, cmds, f.nftOk);
      if 2 <= i < 2 + |r.states| && |t| > 2 {
        assert t[i] == r.states[i - 2];
      }
    }
  }

  lemma {:induction false} EventStatuses(s: State, e: Event)
    requires Safe(s) && Enabled(s, e)
    ensures if Settles(s, e) then SettledTo(s, Next(s, e), FinalStatus(e)) && Next(s, e).db.pending.None? else SameStatuses(s, Next(s, e))
    decreases e
  {
    hide Safe, Enabled, ApplyTrace, ConfirmTrace, RollbackTrace, TimerTrace, RecoverTrace, PushTrace;
    if e.CrashIn? {
      if e.e.CrashIn? {
        EnabledInner(s, e);
        EventStatuses(s, e.e);
      } else {
        EnabledInner(s, e);
        HandlerStatuses(s, e.e, e.at);
      }
    } else {
      HandlerStatuses(s, e, |Trace(s, e)| - 1);
    }
  }

  lemma EnabledInner(s: State, e: Event)
    requires e.CrashIn? && Enabled(s, e)
    ensures Enabled(s, e.e) && e.at < |Trace(s, e.e)|
  {}

  /** Some version that had reached a final status changed it. */
  ghost predicate ChangesTerminal(s: State, t: State) {
    exists v :: 0 <= v < |s.db.versions| && v < |t.db.versions| && Terminal(s.db.versions[v].status) && t.db.versions[v].status != s.db.versions[v].status
  }

  /** A final status changes exactly when the pending row's version has already failed and the
      event resolves that row. */
  lemma TerminalChangesExactly(s: State, e: Event)
    requires Safe(s) && RowStatus(s) && Enabled(s, e)
    ensures ChangesTerminal(s, Next(s, e)) <==> FailedRow(s) && Settles(s, e)
  {
    hide Safe, Enabled, Next, Settles;
    EventStatuses(s, e);
    if FailedRow(s) && Settles(s, e) {
      var v := s.db.pending.value.version;
      assert v < |Next(s, e).db.versions| && Next(s, e).db.versions[v].status == FinalStatus(e);
    }
  }

  // ── When a failed row comes about ─────────────────────────────────────────

  lemma HandlerRow(s: State, e: Event, i: nat)
    requires Safe(s) && RowStatus(s) && Enabled(s, e) && !e.CrashIn? && i < |Trace(s, e)|
    ensures RowStatus(Trace(s, e)[i])
    ensures !FailedRow(s) ==> (FailedRow(Trace(s, e)[i]) <==> RejectedUncleared(s, e) && i == 3)
    ensures RejectedUncleared(s, e) ==> |Trace(s, e)| == 4
  {
    hide Safe, ApplyTrace, ConfirmTrace, RollbackTrace, TimerTrace, RecoverTrace, PushTrace;
    if e.Apply? {
      ApplyWrites(s, e.af, i);
    } else if e.Confirm? {
      ConfirmWrites(s, e.cf, i);
    } else if IsRevert(e) {
      RevertingWrites(s, e, i);
    } else {
      OtherWrites(s, e, i);
    }
  }

  /** A failed row comes about exactly through a rejected apply whose row could not be cleared. */
  lemma {:induction false} FailedRowExactly(s: State, e: Event)
    requires Safe(s) && RowStatus(s) && Enabled(s, e)
    ensures RowStatus(Next(s, e))
    ensures !FailedRow(s) ==> (FailedRow(Next(s, e)) <==> RejectedUncleared(s, e))
    decreases e
  {
    hide Safe, Enabled, ApplyTrace, ConfirmTrace, RollbackTrace, TimerTrace, RecoverTrace, PushTrace, Refused;
    if e.CrashIn? {
      EnabledInner(s, e);
      if e.e.CrashIn? {
        FailedRowExactly(s, e.e);
      } else {
        HandlerRow(s, e.e, e.at);
      }
    } else {
      HandlerRow(s, e, |Trace(s, e)| - 1);
    }
  }

  ghost predicate NoneRejectedUncleared(s: State, es: seq<Event>)
    decreases |es|
  {
    es == [] || (!RejectedUncleared(s, es[0]) && NoneRejectedUncleared(Next(s, es[0]), es[1..]))
  }

  /** On every run in which no rejected apply fails to clear its row, whatever else fails and
      wherever it crashes, a final status is final. */
  lemma {:induction false} TerminalIsFinal(s: State, es: seq<Event>, v: nat)
    requires Safe(s) && RowStatus(s) && !FailedRow(s) && IsRun(s, es) && NoneRejectedUncleared(s, es)
    requires v < |s.db.versions| && Terminal(s.db.versions[v].status)
    ensures v < |After(s, es).db.versions| && After(s, es).db.versions[v].status == s.db.versions[v].status
    decreases |es|
  {
    hide Safe, Enabled, Next, RejectedUncleared;
    if es != [] {
      NextIsSafe(s, es[0]);
      EventStatuses(s, es[0]);
      TerminalChangesExactly(s, es[0]);
      FailedRowExactly(s, es[0]);
      TerminalIsFinal(Next(s, es[0]), es[1..], v);
    }
  }

  /** Without that condition it is not: a failed version can end up confirmed. */
  lemma FailedCanBecomeConfirmed(s: State)
    requires Initial(s)
    ensures var fate := ApplyFate(true, true, [], true, true, true, false, false, true);
            var e1 := Recover(RevertFate(true, true, true, true, true));
            var e2 := Apply(fate);
            var e3 := Confirm(ConfirmFate(true, true, true, true, true, true));
            var s1 := Next(s, e1);
            var s2 := Next(s1, e2);
            && Enabled(s, e1) && Enabled(s1, e2) && Enabled(s2, e3)
            && |s2.db.versions| == 1 && s2.db.versions[0].status == Failed
            && |Next(s2, e3).db.versions| == 1 && Next(s2, e3).db.versions[0].status == Confirmed
  {
    hide Refs, Script, Run, Candidate, Take, Touched;
    ScriptRuns(s.db, s.kernel);
  }

  /** A script without carried bans never faults, whatever the model and the ruleset. */
  lemma ScriptRuns(db: Db, k: Ruleset)
    requires SoundModel(db.tables, db.lists)
    ensures Run(k, Script(db, [])).Some?
  {
    hide SoundBody, Run, BuildApply, LoadModel;
    ConfigSound(db.tables, db.lists);
    var removed := Minus(db.ledger, Refs(Candidate(db)));
    ApplyRuns(k, Candidate(db), removed, []);
    RunNothing(Overlay(k, Candidate(db)) - ToSet(removed));
  }

  // ── Timers ────────────────────────────────────────────────────────────────

  /** The apply of version v is over: it was recorded and is not the pending one. */
  predicate Resolved(s: State, v: nat) {
    v < |s.db.versions| && (s.db.pending.Some? ==> s.db.pending.value.version != v)
  }

  lemma {:induction false} StaysResolved(s: State, e: Event, v: nat)
    requires Safe(s) && Resolved(s, v) && Enabled(s, e)
    ensures Resolved(Next(s, e), v)
    decreases e
  {
    hide Safe, Enabled, ApplyTrace, ConfirmTrace, RollbackTrace, TimerTrace, RecoverTrace, PushTrace;
    if e.CrashIn? {
      EnabledInner(s, e);
      if e.e.CrashIn? {
        StaysResolved(s, e.e, v);
      } else {
        ResolvedAt(s, e.e, v, e.at);
      }
    } else {
      ResolvedAt(s, e, v, |Trace(s, e)| - 1);
    }
  }

  lemma ResolvedAt(s: State, e: Event, v: nat, i: nat)
    requires Safe(s) && Resolved(s, v) && Enabled(s, e) && !e.CrashIn? && i < |Trace(s, e)|
    ensures Resolved(Trace(s, e)[i], v)
  {
    hide Safe, ApplyTrace, ConfirmTrace, RollbackTrace, TimerTrace, RecoverTrace, PushTrace;
    if e.Apply? {
      ApplyWrites(s, e.af, i);
    } else if e.Confirm? {
      ConfirmWrites(s, e.cf, i);
    } else if IsRevert(e) {
      RevertingWrites(s, e, i);
    } else {
      OtherWrites(s, e, i);
    }
  }

  lemma {:induction false} ResolvedForever(s: State, es: seq<Event>, v: nat)
    requires Safe(s) && Resolved(s, v) && IsRun(s, es)
    ensures Resolved(After(s, es), v)
    decreases |es|
  {
    hide Trace, Enabled, Safe;
    if es != [] {
      StaysResolved(s, es[0], v);
      NextIsSafe(s, es[0]);
      ResolvedForever(Next(s, es[0]), es[1..], v);
    }
  }

  /** A timer never reverts any apply but its own: once version v is resolved, its callback does
      nothing to the database or the kernel in any state of any later run, however many stale
      timers are still to fire. */
  lemma StaleTimerHarmless(s: State, es: seq<Event>, v: nat, f: RevertFate)
    requires Safe(s) && Resolved(s, v) && IsRun(s, es)
    ensures Next(After(s, es), TimerFires(v, f)).db == After(s, es).db
    ensures Next(After(s, es), TimerFires(v, f)).kernel == After(s, es).kernel
  {
    ResolvedForever(s, es, v);
  }

  // ── The armed timer ───────────────────────────────────────────────────────

  /** An apply that loads arms its timer: one more callback of its version is to come. */
  lemma ApplyArms(s: State, f: ApplyFate)
    requires Enabled(s, Apply(f)) && !Refused(s, f) && f.pendingOk && f.loadOk
    ensures var t := Next(s, Apply(f));
            var id := |s.db.versions|;
            && t.db.pending.Some? && t.db.pending.value.version == id && t.unconfirmed == Some(id)
            && t.mem.timer == Some(id) && t.mem.inFlight == s.mem.inFlight + multiset{id}
            && t.serving && forall rf :: Enabled(t, TimerFires(id, rf))
  {
    hide Run, Script, Candidate, Take, Touched, Refs;
  }

  /** The event is no crash, and neither stops a timer nor is the callback of version v. */
  predicate Spares(e: Event, v: nat) {
    match e
    case CrashIn(_, _) => false
    case Confirm(f) => !f.readOk || !f.caught
    case Rollback(f) => !f.readOk || !f.caught
    case TimerFires(u, _) => u != v
    case _ => true
  }

  // The timers after a confirm and after a revert.
  lemma ConfirmTimers(s: State, f: ConfirmFate)
    ensures var t := Last(ConfirmTrace(s, f));
            var u := if f.readOk && s.db.pending.Some? then StopTimer(s, f.caught) else s;
            t.serving == s.serving && t.mem.timer == u.mem.timer && t.mem.inFlight == u.mem.inFlight
  {
    hide WithStatus, ConfirmedTables;
  }

  lemma RevertTimers(s: State, p: PendingRow, f: RevertFate)
    ensures var t := Last(RevertTrace(s, p, f));
            t.serving == s.serving && t.mem.timer == s.mem.timer && t.mem.inFlight == s.mem.inFlight
  {
    hide Run, BuildRevert, WithStatus;
  }

  lemma RollbackTimers(s: State, f: RevertFate)
    ensures var t := Last(RollbackTrace(s, f));
            var u := if f.readOk && s.db.pending.Some? then StopTimer(s, f.caught) else s;
            t.serving == s.serving && t.mem.timer == u.mem.timer && t.mem.inFlight == u.mem.inFlight
  {
    hide RevertTrace, StopTimer;
    StopTimerMemory(s, f.caught);
    if f.readOk && s.db.pending.Some? {
      RevertTimers(StopTimer(s, f.caught), s.db.pending.value, f);
    }
  }

  lemma TimerTimers(s: State, v: nat, f: RevertFate)
    ensures var t := Last(TimerTrace(s, v, f)); t.serving == s.serving && t.mem.inFlight == s.mem.inFlight - multiset{v}
  {
    hide RevertTrace;
    if s.db.pending.Some? {
      RevertTimers(s.(mem := s.mem.(inFlight := s.mem.inFlight - multiset{v})), s.db.pending.value, f);
    }
  }

  lemma ApplyTimers(s: State, f: ApplyFate)
    ensures var t := Last(ApplyTrace(s, f)); t.serving == s.serving && s.mem.inFlight <= t.mem.inFlight
  {
    hide Run, Script, Candidate, Take, Touched, Refs, WithStatus;
  }

  lemma StaysInFlight(s: State, e: Event, v: nat)
    requires s.serving && v in s.mem.inFlight && Enabled(s, e) && Spares(e, v)
    ensures Next(s, e).serving && v in Next(s, e).mem.inFlight
  {
    hide ApplyTrace, ConfirmTrace, RollbackTrace, TimerTrace, RecoverTrace, PushTrace, Mix, SnapRefs;
    match e
    case Apply(f) => ApplyTimers(s, f);
    case Confirm(f) => ConfirmTimers(s, f);
    case Rollback(f) => RollbackTimers(s, f);
    case TimerFires(u, f) => TimerTimers(s, u, f);
    case PushList(j, after, f) => PushKeepsMemory(s, j, after, f);
    case _ =>
  }

  lemma PushKeepsMemory(s: State, j: nat, after: seq<Entry>, f: PushFate)
    ensures var t := Last(PushTrace(s, j, after, f)); t.mem == s.mem && t.serving == s.serving
  {
    hide Candidate, PushAll, Attempts, Latest, UpdateLatest, Trees;
    if j < |s.db.lists| {
      var c := Change(s.db.lists, j, after);
      var s1 := s.(db := s.db.(lists := c.New()));
      AttemptsKeepMemory(s1, PushAll(Trees(s1.db), c.Name(), c.Adds(), c.Dels(), f.order), f.nftOk);
    }
  }

  lemma {:induction false} AttemptsKeepMemory(s: State, cmds: seq<Command>, nftOk: Command -> bool)
    ensures var r := Attempts(s, cmds, nftOk);
            && (forall t :: t in r.states ==> t.mem == s.mem && t.serving == s.serving)
            && r.end.mem == s.mem && r.end.serving == s.serving
    decreases |cmds|
  {
    hide Exec;
    if cmds != [] {
      if nftOk(cmds[0]) && Exec(s.kernel, cmds[0]).Some? {
        AttemptsKeepMemory(s.(kernel := Exec(s.kernel, cmds[0]).value), cmds[1..], nftOk);
      } else {
        AttemptsKeepMemory(s, cmds[1..], nftOk);
      }
    }
  }

  lemma {:induction false} RunStaysInFlight(s: State, es: seq<Event>, v: nat)
    requires s.serving && v in s.mem.inFlight && IsRun(s, es) && forall e :: e in es ==> Spares(e, v)
    ensures After(s, es).serving && v in After(s, es).mem.inFlight
    decreases |es|
  {
    hide Next, Enabled, Spares;
    if es != [] {
      assert es[0] in es;
      StaysInFlight(s, es[0], v);
      RunStaysInFlight(Next(s, es[0]), es[1..], v);
    }
  }

  /** The auto-revert, from the apply to its effect: after an apply that loads and any run without a
      crash during which the row stays pending and nothing stops or fires its timer, the callback can
      still come; and when its calls succeed it leaves every table the apply touched as it was before
      the apply, no other table changed, the row gone and the version reverted. */
  lemma AutoRevertComes(s: State, f: ApplyFate, es: seq<Event>, rf: RevertFate)
    requires Safe(s) && Enabled(s, Apply(f)) && !Refused(s, f) && f.pendingOk && f.loadOk
    requires var t := Next(s, Apply(f)); IsRun(t, es) && Held(t, es)
    requires forall e :: e in es ==> Spares(e, |s.db.versions|)
    ensures var id := |s.db.versions|;
            var u := After(Next(s, Apply(f)), es);
            var w := Next(u, TimerFires(id, rf));
            && Enabled(u, TimerFires(id, rf))
            && (rf.readOk && rf.loadOk ==>
                  && (forall r :: if r in ToSet(Touched(s.db)) then AgreeAt(w.kernel, s.kernel, r) else AgreeAt(w.kernel, u.kernel, r))
                  && (rf.clearOk && rf.statusOk ==>
                        w.db.pending.None? && id < |w.db.versions| && w.db.versions[id].status.Reverted?))
  {
    hide Safe, Next, Enabled, Touched, ToSet, Refused, Trace, SnapRefs, AgreeAt;
    var id := |s.db.versions|;
    var t := Next(s, Apply(f));
    var u := After(t, es);
    NotPending(s, f);
    ApplyArms(s, f);
    RunStaysInFlight(t, es, id);
    HeldKeepsRow(t, es);
    InFlightCanFire(u, id, rf);
    if rf.readOk && rf.loadOk {
      CrashSafeRevert(s, f, Apply(f), es, TimerFires(id, rf));
      NextIsSafe(s, Apply(f));
      AlwaysSafe(t, es);
      EventStatuses(u, TimerFires(id, rf));
      RowInRange(u);
    }
  }

  lemma NotPending(s: State, f: ApplyFate)
    requires !Refused(s, f)
    ensures s.db.pending.None?
  {}

  lemma InFlightCanFire(s: State, v: nat, rf: RevertFate)
    requires s.serving && v in s.mem.inFlight
    ensures Enabled(s, TimerFires(v, rf))
  {}

  /** Confirming and rolling back disarm first: the timer is stopped, and unless it was already
      running its callback will not come. */
  lemma ResolvingDisarms(s: State, e: Event, v: nat)
    requires s.db.pending.Some? && s.mem.timer == Some(v)
    requires (e.Confirm? && e.cf.readOk) || (e.Rollback? && e.rf.readOk)
    ensures var t := Next(s, e);
            var caught := if e.Confirm? then e.cf.caught else e.rf.caught;
            t.mem.timer.None? && t.mem.inFlight == if caught then s.mem.inFlight - multiset{v} else s.mem.inFlight
  {
    hide ConfirmTrace, RollbackTrace;
    if e.Confirm? {
      ConfirmTimers(s, e.cf);
    } else {
      RollbackTimers(s, e.rf);
    }
  }
}
