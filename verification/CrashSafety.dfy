/** Crash safety of the apply: on every run, whatever fails and wherever the process dies, the
    pending row can still bring back the ruleset from before the apply. */
module CrashSafety {
  import opened Wrappers
  import opened Addresses
  import opened Model
  import opened Lists
  import opened Sets
  import opened Kernel
  import opened Render
  import opened Bans
  import opened ListSync
  import opened Protocol

  /** The pending row is the snapshot of `base` on exactly the tables the apply touches, and
      the kernel differs from `base` there only. */
  ghost predicate Restorable(s: State, p: PendingRow) {
    && p.version < |s.db.versions|
    && SoundKernel(s.base)
    && p.prev == Take(s.base, SnapRefs(p.prev))
    && ToSet(SnapRefs(p.prev)) == ToSet(Refs(s.db.versions[p.version].config)) + ToSet(s.db.ledger)
    && AgreeOutside(s.kernel, s.base, ToSet(SnapRefs(p.prev)))
  }

  ghost predicate Safe(s: State) {
    && SoundModel(s.db.tables, s.db.lists)
    && SoundKernel(s.kernel)
    && (s.db.pending.Some? ==> Restorable(s, s.db.pending.value))
    && (s.unconfirmed.Some? ==> s.db.pending.Some? && s.db.pending.value.version == s.unconfirmed.value)
    && (forall v :: v in s.mem.inFlight ==> v < |s.db.versions|)
  }

  ghost predicate AllSafe(t: seq<State>) {
    forall i :: 0 <= i < |t| ==> Safe(t[i])
  }

  // ── What a script can reach ───────────────────────────────────────────────

  ghost predicate Names(script: seq<Command>, refs: set<TableRef>) {
    forall c :: c in script ==> c.ref in refs
  }

  lemma {:induction false} RunFrame(k: Ruleset, script: seq<Command>, refs: set<TableRef>)
    requires Names(script, refs) && Run(k, script).Some?
    ensures AgreeOutside(Run(k, script).value, k, refs)
    decreases |script|
  {
    hide SoundSet, SoundBody, CanMerge, Merge;
    if script != [] {
      var k' := Exec(k, script[0]).value;
      assert script[0] in script;
      assert AgreeOutside(k', k, refs);
      RunFrame(k', script[1..], refs);
    }
  }

  lemma NamesAppend(a: seq<Command>, b: seq<Command>, refs: set<TableRef>)
    requires Names(a, refs) && Names(b, refs)
    ensures Names(a + b, refs)
  {}

  lemma {:induction false} ApplyNames(decls: seq<Decl>)
    ensures Names(ApplyTables(decls), ToSet(Refs(decls)))
  {
    if decls != [] {
      ApplyNames(decls[1..]);
      assert Refs(decls) == [decls[0].ref] + Refs(decls[1..]);
      NamesAppend(Replace(decls[0].ref) + [Load(decls[0].ref, decls[0].body)], ApplyTables(decls[1..]), ToSet(Refs(decls)));
    }
  }

  lemma {:induction false} RemovalNames(remove: seq<TableRef>)
    ensures Names(ApplyRemovals(remove), ToSet(remove))
  {
    if remove != [] {
      RemovalNames(remove[1..]);
      assert remove == [remove[0]] + remove[1..];
      NamesAppend(Replace(remove[0]), ApplyRemovals(remove[1..]), ToSet(remove));
    }
  }

  lemma {:induction false} PreservedNames(doc: seq<ListedSet>, trees: seq<TableTree>)
    ensures Names(BuildPreserved(doc, KeepOf(trees)), ToSet(Refs(Config(trees))))
  {
    hide Carried, RenderTable, KeepOf;
    if doc != [] {
      PreservedNames(doc[1..], trees);
      if Emits(doc[0], KeepOf(trees)) {
        KeepOfContent(trees, KeyOf(doc[0]));
        var i, d :| 0 <= i < |trees| && d in trees[i].dynSets && KeyOf(doc[0]) == SetKey(RenderTable(trees[i]).ref, d.name);
        assert Refs(Config(trees))[i] == doc[0].ref;
      }
    }
  }

  lemma ScriptNames(db: Db, listing: seq<ListedSet>)
    ensures Names(Script(db, listing), ToSet(Touched(db)))
  {
    hide ApplyTables, ApplyRemovals, BuildPreserved, KeepOf, Trees;
    var trees := Trees(db);
    var removed := Minus(db.ledger, Refs(Candidate(db)));
    ApplyNames(Config(trees));
    RemovalNames(removed);
    PreservedNames(listing, trees);
    UnionContent(Refs(Candidate(db)), db.ledger);
    MinusContent(db.ledger, Refs(Candidate(db)));
  }

  lemma TakeRefs(k: Ruleset, refs: seq<TableRef>)
    ensures SnapRefs(Take(k, refs)) == refs
  {}

  // ── Every handler keeps it, state by state ────────────────────────────────

  lemma ApplyStaysSafe(s: State, f: ApplyFate)
    requires Safe(s) && s.serving
    ensures AllSafe(ApplyTrace(s, f))
  {
    hide SoundKernel, SoundModel, AgreeOutside, Run, Script, Candidate, Take, ToSet, Refs, Union;
    if !Refused(s, f) {
      var id := |s.db.versions|;
      var touched := Touched(s.db);
      var s1 := Inserted(s, Candidate(s.db));
      if f.pendingOk {
        var s2 := Armed(s1, id, Take(s.kernel, touched));
        TakeRefs(s.kernel, touched);
        UnionContent(Refs(Candidate(s.db)), s.db.ledger);
        AgreeReflexive(s.kernel, ToSet(touched));
        assert Safe(s2);
        if f.loadOk {
          ScriptNames(s.db, f.listing);
          RunFrame(s.kernel, Script(s.db, f.listing), ToSet(touched));
          RunKeepsSound(s.kernel, Script(s.db, f.listing));
        }
      }
    }
  }

  lemma AgreeReflexive(k: Ruleset, refs: set<TableRef>)
    ensures AgreeOutside(k, k, refs)
  {}

  lemma SettleSafe(s: State, id: nat, st: Status)
    requires Safe(s)
    ensures Safe(Settle(s, id, st))
  {
    hide SoundKernel, SoundModel, AgreeOutside, Take, ToSet, Refs;
  }

  lemma ConfirmStaysSafe(s: State, f: ConfirmFate)
    requires Safe(s)
    ensures AllSafe(ConfirmTrace(s, f))
  {
    hide SoundKernel, SoundModel, Restorable, ConfirmedTables, Settle, StopTimer;
    if f.readOk && s.db.pending.Some? {
      var p := s.db.pending.value;
      StopTimerSafe(s, f.caught);
      var s1 := StopTimer(s, f.caught);
      var s2 := Cleared(s1);
      assert Safe(s2);
      SettleSafe(s2, p.version, Confirmed);
      var s3 := Settle(s2, p.version, Confirmed);
      assert s3.db.pending.None? && |s3.db.versions| == |s2.db.versions| by {
        SettleShape(s2, p.version, Confirmed);
      }
      var s4 := if f.ledgerOk then s3.(db := s3.db.(ledger := ConfirmedTables(s, f))) else s3;
      assert Safe(s4);
      var s5 := s4.(mem := s4.mem.(applied := None));
      assert Safe(s5);
    }
  }

  lemma SettleShape(s: State, id: nat, st: Status)
    ensures Settle(s, id, st) == s.(db := Settle(s, id, st).db)
    ensures Settle(s, id, st).db == s.db.(versions := WithStatus(s.db.versions, id, st))
    ensures |WithStatus(s.db.versions, id, st)| == |s.db.versions|
  {}

  /** From any safe state with a pending row, loading the revert script gives back `base`. */
  lemma RevertGivesBase(s: State)
    requires Safe(s) && s.db.pending.Some?
    ensures Run(s.kernel, BuildRevert(s.db.pending.value.prev)) == Some(s.base)
  {
    hide Run, BuildRevert, SoundKernel, SoundModel, AgreeOutside, Take;
    var p := s.db.pending.value;
    RevertRestores(s.kernel, s.base, SnapRefs(p.prev));
  }

  lemma RevertStaysSafe(s: State, f: RevertFate)
    requires Safe(s) && s.db.pending.Some?
    ensures AllSafe(RevertTrace(s, s.db.pending.value, f))
  {
    hide Run, BuildRevert, SoundKernel, SoundModel, AgreeOutside, Take, ToSet, Refs;
    RevertGivesBase(s);
    AgreeReflexive(s.base, ToSet(SnapRefs(s.db.pending.value.prev)));
  }

  lemma StopTimerSafe(s: State, caught: bool)
    requires Safe(s)
    ensures Safe(StopTimer(s, caught)) && StopTimer(s, caught).db == s.db
    ensures StopTimer(s, caught).kernel == s.kernel && StopTimer(s, caught).base == s.base
  {
    hide SoundKernel, SoundModel, AgreeOutside, Take, ToSet, Refs;
  }

  lemma MixFacts(earlier: Ruleset, k: Ruleset, refs: seq<TableRef>)
    requires SoundKernel(earlier) && SoundKernel(k)
    ensures SoundKernel(Mix(earlier, k, ToSet(refs)))
    ensures Take(Mix(earlier, k, ToSet(refs)), refs) == Take(earlier, refs)
    ensures AgreeOutside(k, Mix(earlier, k, ToSet(refs)), ToSet(refs))
  {
    hide SoundBody;
    forall i | 0 <= i < |refs| ensures Take(Mix(earlier, k, ToSet(refs)), refs)[i] == Take(earlier, refs)[i] {
      assert refs[i] in ToSet(refs);
    }
  }

  lemma OutsideStaysSafe(s: State, k: Ruleset)
    requires Safe(s) && SoundKernel(k)
    ensures Safe(OutsideChange(s, k))
  {
    hide SoundKernel, SoundModel, AgreeOutside, Take, ToSet, Refs, Mix;
    if s.db.pending.Some? {
      MixFacts(s.base, k, SnapRefs(s.db.pending.value.prev));
    }
  }

  lemma {:induction false} AttemptsStaySafe(s: State, cmds: seq<Command>, nftOk: Command -> bool)
    requires Safe(s) && s.db.pending.None?
    ensures var r := Attempts(s, cmds, nftOk);
            AllSafe(r.states) && Safe(r.end) && r.end.db == s.db && r.end.mem == s.mem
    decreases |cmds|
  {
    hide SoundKernel, SoundModel, Exec, Restorable;
    if cmds != [] {
      if nftOk(cmds[0]) && Exec(s.kernel, cmds[0]).Some? {
        ExecKeepsSound(s.kernel, cmds[0]);
        AttemptsStaySafe(s.(kernel := Exec(s.kernel, cmds[0]).value), cmds[1..], nftOk);
      } else {
        AttemptsStaySafe(s, cmds[1..], nftOk);
      }
    }
  }

  lemma UpdatedModelSound(tables: seq<Table>, lists: seq<NamedList>, i: nat, after: seq<Entry>)
    requires SoundModel(tables, lists) && i < |lists| && SoundList(after)
    ensures SoundModel(tables, Updated(lists, i, after))
  {
    hide SoundList, DistinctTables;
    var u := Updated(lists, i, after);
    forall l | l in u ensures SoundList(l.entries) {
      var j :| 0 <= j < |u| && u[j] == l;
      assert j == i || l == lists[j];
    }
  }

  lemma PushStaysSafe(s: State, i: nat, after: seq<Entry>, f: PushFate)
    requires Safe(s) && i < |s.db.lists| && SoundList(after)
    ensures AllSafe(PushTrace(s, i, after, f))
  {
    hide SoundKernel, SoundModel, Attempts, Candidate, SoundList, PushAll, Latest, UpdateLatest, AgreeOutside, Take, ToSet, Refs, Trees;
    var c := Change(s.db.lists, i, after);
    var s1 := s.(db := s.db.(lists := c.New()));
    UpdatedModelSound(s.db.tables, s.db.lists, i, after);
    assert Safe(s1);
    if s.db.pending.None? {
      AttemptsStaySafe(s1, PushAll(Trees(s1.db), c.Name(), c.Adds(), c.Dels(), f.order), f.nftOk);
    }
  }

  /** Safety holds in every state any event passes through, crashes included. */
  lemma {:induction false} EventStaysSafe(s: State, e: Event)
    requires Safe(s) && Enabled(s, e)
    ensures AllSafe(Trace(s, e))
    decreases e
  {
    hide SoundKernel, SoundModel, Restorable, ApplyTrace, ConfirmTrace, RevertTrace, PushTrace, OutsideChange;
    match e
    case Apply(f) => ApplyStaysSafe(s, f);
    case Confirm(f) => ConfirmStaysSafe(s, f);
    case Rollback(f) =>
      StopTimerSafe(s, f.caught);
      if s.db.pending.Some? {
        RevertStaysSafe(StopTimer(s, f.caught), f);
      }
    case TimerFires(v, f) =>
      var s1 := s.(mem := s.mem.(inFlight := s.mem.inFlight - multiset{v}));
      ForgetsTimers(s, s1);
      if s.db.pending.Some? {
        RevertStaysSafe(s1, f);
      }
    case Recover(f) =>
      if s.db.pending.Some? {
        RevertStaysSafe(s, f);
      }
      ServingIsSafe(RecoverTrace(s, f));
    case EditModel(ts, ls) =>
      EditIsSafe(s, ts, ls);
    case Outside(k) => OutsideStaysSafe(s, k);
    case PushList(i, after, f) => PushStaysSafe(s, i, after, f);
    case CrashIn(e', n) =>
      EventStaysSafe(s, e');
      CrashIsSafe(Trace(s, e')[n]);
  }

  lemma ForgetsTimers(s: State, s1: State)
    requires Safe(s) && s1 == s.(mem := s1.mem) && s1.mem.inFlight <= s.mem.inFlight
    ensures Safe(s1)
  {
    hide SoundKernel, SoundModel, AgreeOutside, Take, ToSet, Refs;
    forall v | v in s1.mem.inFlight ensures v in s.mem.inFlight {}
  }

  lemma ServingIsSafe(t: seq<State>)
    requires |t| >= 2 && AllSafe(t[..|t| - 1]) && t[|t| - 1] == t[|t| - 2].(serving := true)
    ensures AllSafe(t)
  {
    hide SoundKernel, SoundModel, AgreeOutside, Take, ToSet, Refs;
    assert t[..|t| - 1][|t| - 2] == t[|t| - 2];
    forall i | 0 <= i < |t| ensures Safe(t[i]) {
      if i < |t| - 1 {
        assert t[..|t| - 1][i] == t[i];
      }
    }
  }

  lemma EditIsSafe(s: State, ts: seq<Table>, ls: seq<NamedList>)
    requires Safe(s) && SoundModel(ts, ls)
    ensures Safe(s.(db := s.db.(tables := ts, lists := ls)))
  {
    hide SoundKernel, SoundModel, AgreeOutside, Take, ToSet, Refs;
  }

  lemma CrashIsSafe(s: State)
    requires Safe(s)
    ensures Safe(Crashed(s))
  {
    hide SoundKernel, SoundModel, AgreeOutside, Take, ToSet, Refs;
  }

  /** Every state of every run is safe: whenever an applied config is in the kernel
      unconfirmed, the pending row names it and holds the pre-apply state of exactly the tables
      it touched. */
  lemma {:induction false} AlwaysSafe(s: State, es: seq<Event>)
    requires Safe(s) && IsRun(s, es)
    ensures Safe(After(s, es))
    decreases |es|
  {
    hide Safe, Next;
    if es != [] {
      NextIsSafe(s, es[0]);
      AlwaysSafe(Next(s, es[0]), es[1..]);
    }
  }

  lemma NextIsSafe(s: State, e: Event)
    requires Safe(s) && Enabled(s, e)
    ensures Safe(Next(s, e))
  {
    hide Safe, Trace;
    EventStaysSafe(s, e);
  }

  lemma InitialIsSafe(s: State)
    requires Initial(s)
    ensures Safe(s)
  {}

  // ── The pending row is never overwritten, and reverting restores ──────────

  predicate IsRevert(e: Event) {
    e.Rollback? || e.TimerFires? || e.Recover?
  }

  /** Rollback, the apply's own timer and startup recovery all act on the pending row. */
  ghost predicate RevertsNow(s: State, e: Event) {
    && s.db.pending.Some? && IsRevert(e) && e.rf.readOk && e.rf.loadOk
    && (e.TimerFires? ==> e.v == s.db.pending.value.version)
  }

  /** A revert that reaches nft always succeeds, and leaves the kernel at `base`. */
  lemma RevertingRestores(s: State, e: Event)
    requires Safe(s) && Enabled(s, e) && RevertsNow(s, e)
    ensures Next(s, e).kernel == s.base && Next(s, e).unconfirmed.None?
  {
    hide Safe, BuildRevert, Run;
    RevertGivesBase(s);
    if e.Rollback? {
      StopTimerSafe(s, e.rf.caught);
    }
  }

  // What an event may do to a row that is pending: keep it and its history, or resolve it.
  ghost predicate KeepsRow(s: State, t: State) {
    t.db.pending.Some? ==>
      && t.db.pending == s.db.pending
      && forall r :: r in ToSet(SnapRefs(s.db.pending.value.prev)) ==> AgreeAt(t.base, s.base, r)
  }

  lemma AttemptsKeepDb(s: State, cmds: seq<Command>, nftOk: Command -> bool)
    ensures forall t :: t in Attempts(s, cmds, nftOk).states ==> t.db == s.db && t.base == s.base
    ensures Attempts(s, cmds, nftOk).end.db == s.db && Attempts(s, cmds, nftOk).end.base == s.base
    decreases |cmds|
  {
    hide Exec;
    if cmds != [] {
      if nftOk(cmds[0]) && Exec(s.kernel, cmds[0]).Some? {
        AttemptsKeepDb(s.(kernel := Exec(s.kernel, cmds[0]).value), cmds[1..], nftOk);
      } else {
        AttemptsKeepDb(s, cmds[1..], nftOk);
      }
    }
  }

  /** An armed snapshot is never overwritten: in every state an event passes through, the row is
      the same row or it is gone. */
  lemma {:induction false} RowNeverOverwritten(s: State, e: Event)
    requires s.db.pending.Some? && Enabled(s, e)
    ensures forall i :: 0 <= i < |Trace(s, e)| ==> KeepsRow(s, Trace(s, e)[i])
    decreases e
  {
    hide Trace, KeepsRow;
    match e
    case CrashIn(e', n) =>
      RowNeverOverwritten(s, e');
      CrashKeepsRow(s, e', n);
    case _ =>
      HandlerKeepsRow(s, e);
  }

  lemma CrashKeepsRow(s: State, e: Event, n: nat)
    requires n < |Trace(s, e)| && KeepsRow(s, Trace(s, e)[n])
    ensures forall i :: 0 <= i < |Trace(s, CrashIn(e, n))| ==> KeepsRow(s, Trace(s, CrashIn(e, n))[i])
  {
    hide ApplyTrace, ConfirmTrace, RollbackTrace, TimerTrace, RecoverTrace, PushTrace, SnapRefs;
  }

  lemma RevertKeepsRow(s: State, s1: State, f: RevertFate)
    requires s.db.pending.Some? && s1.db == s.db && s1.base == s.base
    ensures forall i :: 0 <= i < |RevertTrace(s1, s.db.pending.value, f)| ==> KeepsRow(s, RevertTrace(s1, s.db.pending.value, f)[i])
  {
    hide Run, BuildRevert, SnapRefs, ToSet;
  }

  lemma HandlerKeepsRow(s: State, e: Event)
    requires s.db.pending.Some? && Enabled(s, e) && !e.CrashIn?
    ensures forall i :: 0 <= i < |Trace(s, e)| ==> KeepsRow(s, Trace(s, e)[i])
  {
    hide RevertTrace, ConfirmTrace, SnapRefs, ToSet, PushSteps, Mix, Refused;
    if e.Apply? {
      RefusedWhilePending(s, e.af);
    } else if e.Confirm? {
      ConfirmKeepsRow(s, e.cf);
    } else if e.Rollback? {
      RevertKeepsRow(s, StopTimer(s, e.rf.caught), e.rf);
    } else if e.TimerFires? {
      RevertKeepsRow(s, s.(mem := s.mem.(inFlight := s.mem.inFlight - multiset{e.v})), e.rf);
    } else if e.Recover? {
      RevertKeepsRow(s, s, e.rf);
    } else if e.Outside? {
      OutsideKeepsRow(s, e.k);
    } else if e.PushList? {
      NoPushWhilePending(s, e.i, e.after, e.pf);
    }
  }

  lemma RefusedWhilePending(s: State, f: ApplyFate)
    requires s.db.pending.Some?
    ensures Refused(s, f)
  {}

  lemma ConfirmKeepsRow(s: State, f: ConfirmFate)
    requires s.db.pending.Some?
    ensures forall i :: 0 <= i < |ConfirmTrace(s, f)| ==> KeepsRow(s, ConfirmTrace(s, f)[i])
  {
    hide ConfirmedTables, SnapRefs, ToSet;
  }

  lemma OutsideKeepsRow(s: State, k: Ruleset)
    requires s.db.pending.Some?
    ensures KeepsRow(s, OutsideChange(s, k)) && KeepsRow(s, s)
  {}

  lemma NoPushWhilePending(s: State, i: nat, after: seq<Entry>, f: PushFate)
    requires s.db.pending.Some? && i < |s.db.lists|
    ensures var s1 := s.(db := s.db.(lists := Updated(s.db.lists, i, after)));
            PushTrace(s, i, after, f) == [s, s1]
  {
    hide PushedSteps, Candidate, Latest;
  }

  // The row stays pending through the whole run.
  ghost predicate Held(s: State, es: seq<Event>)
    decreases |es|
  {
    s.db.pending.Some? && (es == [] || Held(Next(s, es[0]), es[1..]))
  }

  lemma {:induction false} HeldKeepsRow(s: State, es: seq<Event>)
    requires IsRun(s, es) && Held(s, es)
    ensures KeepsRow(s, After(s, es)) && After(s, es).db.pending.Some?
    decreases |es|
  {
    hide Trace, Enabled;
    if es != [] {
      RowNeverOverwritten(s, es[0]);
      HeldKeepsRow(Next(s, es[0]), es[1..]);
    }
  }

  /** The armed state of an apply: it remembers the kernel it started from. */
  lemma ArmsPreApply(s: State, f: ApplyFate, i: nat)
    requires s.db.pending.None? && i < |ApplyTrace(s, f)|
    ensures var t := ApplyTrace(s, f)[i];
            t.db.pending.Some? ==>
              && t.base == s.kernel
              && SnapRefs(t.db.pending.value.prev) == Touched(s.db)
              && t.db.pending.value == PendingRow(|s.db.versions|, Take(s.kernel, Touched(s.db)))
  {
    hide Run, Script, Candidate, Take, Touched;
    TakeRefs(s.kernel, Touched(s.db));
  }

  /** Crash-safe revert, end to end. Start an apply from any safe state; let it be cut short by a
      crash after any of its writes or not; let any run follow during which it stays pending
      (edits, failed reverts, crashes, failed recoveries, outside changes); then a rollback, its
      timer or a recovery that reaches nft puts every table the apply touched back to exactly
      its pre-apply state, and changes no other table. */
  lemma CrashSafeRevert(s: State, f: ApplyFate, start: Event, es: seq<Event>, e: Event)
    requires Safe(s) && s.db.pending.None?
    requires start == Apply(f) || (start.CrashIn? && start.e == Apply(f))
    requires Enabled(s, start) && IsRun(Next(s, start), es) && Held(Next(s, start), es)
    requires var t := After(Next(s, start), es); Enabled(t, e) && RevertsNow(t, e)
    ensures var t := After(Next(s, start), es);
            forall r :: if r in ToSet(Touched(s.db)) then AgreeAt(Next(t, e).kernel, s.kernel, r)
                        else AgreeAt(Next(t, e).kernel, t.kernel, r)
  {
    hide Safe, Next, Trace, Enabled, Touched, Take, ToSet;
    NextIsSafe(s, start);
    var s1 := Next(s, start);
    AlwaysSafe(s1, es);
    var t := After(s1, es);
    HeldKeepsRow(s1, es);
    ArmedByStart(s, f, start);
    RevertingRestores(t, e);
    SafeAgrees(t);
    forall r ensures if r in ToSet(Touched(s.db)) then AgreeAt(Next(t, e).kernel, s.kernel, r) else AgreeAt(Next(t, e).kernel, t.kernel, r) {
      if r in ToSet(Touched(s.db)) {
        assert AgreeAt(t.base, s1.base, r);
      }
    }
  }

  lemma ArmedByStart(s: State, f: ApplyFate, start: Event)
    requires s.db.pending.None? && Enabled(s, start)
    requires start == Apply(f) || (start.CrashIn? && start.e == Apply(f))
    requires Next(s, start).db.pending.Some?
    ensures Next(s, start).base == s.kernel
    ensures SnapRefs(Next(s, start).db.pending.value.prev) == Touched(s.db)
  {
    hide ApplyTrace, Touched;
    var t := ApplyTrace(s, f);
    ArmsPreApply(s, f, if start.CrashIn? then start.at else |t| - 1);
  }

  lemma SafeAgrees(t: State)
    requires Safe(t) && t.db.pending.Some?
    ensures forall r :: r !in ToSet(SnapRefs(t.db.pending.value.prev)) ==> AgreeAt(t.base, t.kernel, r)
  {
    hide SoundKernel, SoundModel, Take, ToSet, Refs;
  }
}
