/** The handlers themselves, updating the server's state in place. Every successful write is
    recorded in a ghost log, and each handler is proved to write exactly the states of its trace
    in that order, so the run theorems speak about these methods. */
module Server {
  import opened Wrappers
  import opened Addresses
  import opened Model
  import opened Lists
  import opened Sets
  import opened Kernel
  import opened Render
  import opened Bans
  import opened ListSync
  import opened Protocol
  import Baseline

  // The states after the row is written: loaded and armed, or cleaned up.
  function LoadStates(s: State, id: nat, refs: seq<TableRef>, k: Ruleset, f: ApplyFate): (t: seq<State>) {
    if f.loadOk then [Running(s, k, Some(id)), Arm(Running(s, k, Some(id)), id, refs)]
    else
      var c := if f.clearOk then Cleared(s) else s;
      (if f.clearOk then [c] else []) + (if f.statusOk then [Settle(c, id, Failed)] else [])
  }

  // The states an apply that was not refused writes.
  function CommitStates(s: State, candidate: seq<Decl>, snaps: seq<Snapshot>, k: Ruleset, f: ApplyFate): (t: seq<State>) {
    var id := |s.db.versions|;
    var s1 := Inserted(s, candidate);
    var s2 := Armed(s1, id, snaps);
    [s1] + (if f.pendingOk then [s2] + LoadStates(s2, id, Refs(candidate), k, f) else [])
  }

  lemma CommitIsTrace(s: State, f: ApplyFate)
    requires !Refused(s, f)
    ensures ApplyTrace(s, f)[1..] ==
              CommitStates(s, Candidate(s.db), Take(s.kernel, Touched(s.db)), Run(s.kernel, Script(s.db, f.listing)).value, f)
  {
    hide Candidate, Take, Touched, Run, Script, Inserted, Armed, Running, Arm, Settle, Cleared;
  }

  lemma PushTraceIs(s: State, i: nat, after: seq<Entry>, f: PushFate)
    requires i < |s.db.lists|
    ensures var c := Change(s.db.lists, i, after);
            var s1 := s.(db := s.db.(lists := Updated(s.db.lists, i, after)));
            PushTrace(s, i, after, f)[1..] == [s1] + PushSteps(s1, Candidate(s.db), c.Name(), c.Adds(), c.Dels(), f)
  {
    hide PushSteps, Candidate;
  }

  // Where an apply that loads ends: the model in the kernel, and its timer armed.
  lemma LoadedEnd(s: State, f: ApplyFate)
    requires !Refused(s, f) && f.pendingOk && f.loadOk
    ensures var t := Last(ApplyTrace(s, f)[1..]);
            && t.mem.timer == Some(|s.db.versions|) && t.mem.inFlight == s.mem.inFlight + multiset{|s.db.versions|}
            && t.db.pending.Some? && t.db.pending.value.version == |s.db.versions|
            && (SoundModel(s.db.tables, s.db.lists) ==> HoldsTables(t.kernel, s.db.tables))
  {
    hide Run, Script, Candidate, Take, Touched, Refs, SoundModel, HoldsTables;
    if SoundModel(s.db.tables, s.db.lists) {
      Baseline.AppliedTables(s, f);
    }
  }

  // A timer callback takes itself out of the bag, then reverts if the row is its own.
  lemma TimerTraceIs(s: State, v: nat, f: RevertFate)
    ensures var s1 := s.(mem := s.mem.(inFlight := s.mem.inFlight - multiset{v}));
            TimerTrace(s, v, f)[1..] ==
              if !f.readOk || s.db.pending.None? || s.db.pending.value.version != v then [s1]
              else [s1] + RevertTrace(s1, s.db.pending.value, f)[1..]
  {
    hide RevertTrace;
    var s1 := s.(mem := s.mem.(inFlight := s.mem.inFlight - multiset{v}));
    if s.db.pending.Some? {
      var t := RevertTrace(s1, s.db.pending.value, f);
      assert t == [s1] + t[1..];
    }
  }

  // What a confirm records depends on the remembered tables and the model only.
  lemma RecordsAlike(s: State, t: State, f: ConfirmFate)
    requires s.mem.applied == t.mem.applied && s.db.tables == t.db.tables && s.db.lists == t.db.lists
    ensures ConfirmedTables(s, f) == ConfirmedTables(t, f)
  {}

  // The newest version in force gets the new text.
  method RewriteLatest(vs: seq<Version>, config: seq<Decl>) returns (r: seq<Version>)
    ensures r == UpdateLatest(vs, config)
  {
    var i := |vs|;
    assert vs[..i] == vs && vs[i..] == [];
    while i > 0 && !InForce(vs[i - 1])
      invariant 0 <= i <= |vs|
      invariant UpdateLatest(vs, config) == UpdateLatest(vs[..i], config) + vs[i..]
    {
      i := i - 1;
      assert vs[..i + 1][..i] == vs[..i];
      assert vs[i..] == [vs[i]] + vs[i + 1..];
    }
    if i > 0 {
      r := vs[i - 1 := vs[i - 1].(config := config)];
      assert r == vs[..i][i - 1 := vs[i - 1].(config := config)] + vs[i..];
    } else {
      r := vs;
      assert vs[..0] == [] && vs[0..] == vs;
    }
  }

  class Server {
    // database
    var versions: seq<Version>
    var pending: Option<PendingRow>
    var ledger: seq<TableRef>
    var tables: seq<Table>
    var lists: seq<NamedList>
    // the kernel behind nft
    var kernel: Ruleset
    // process memory
    var serving: bool
    var timer: Option<nat>
    var applied: Option<seq<TableRef>>
    var inFlight: multiset<nat>
    // history
    ghost var base: Ruleset
    ghost var unconfirmed: Option<nat>
    ghost var log: seq<State>

    ghost function Now(): (s: State)
      reads this
    {
      State(Db(versions, pending, ledger, tables, lists), kernel, serving, Memory(timer, applied, inFlight), base, unconfirmed)
    }

    // The log so far, extended by the given states, ends in the present one.
    twostate predicate Wrote(new states: seq<State>)
      reads this
    {
      && log == old(log) + states
      && Now() == if states == [] then old(Now()) else Last(states)
    }

    constructor (tables: seq<Table>, lists: seq<NamedList>, kernel: Ruleset)
      requires SoundModel(tables, lists) && SoundKernel(kernel)
      ensures Initial(Now()) && log == []
    {
      versions, pending, ledger, this.tables, this.lists := [], None, [], tables, lists;
      this.kernel := kernel;
      serving, timer, applied, inFlight := false, None, None, multiset{};
      base, unconfirmed, log := map[], None, [];
    }

    // ── Writes of the store (configversions.go) ─────────────────────────────

    method InsertConfigVersion(config: seq<Decl>, works: bool) returns (id: Option<nat>)
      modifies this
      ensures id == if works then Some(|old(versions)|) else None
      ensures Wrote(if works then [Inserted(old(Now()), config)] else [])
    {
      if !works {
        return None;
      }
      id := Some(|versions|);
      versions := versions + [Version(config, Pending)];
      log := log + [Now()];
    }

    method SetConfigVersionStatus(id: nat, status: Status, works: bool) returns (ok: bool)
      modifies this
      ensures ok == works
      ensures Wrote(if works then [Settle(old(Now()), id, status)] else [])
    {
      if works {
        if id < |versions| {
          versions := versions[id := versions[id].(status := status)];
        }
        log := log + [Now()];
      }
      return works;
    }

    // INSERT with a fixed key: refuses to overwrite an existing row.
    method SetPendingApply(p: PendingRow, works: bool) returns (ok: bool)
      modifies this
      ensures ok == (works && old(pending).None?)
      ensures Wrote(if ok then [Armed(old(Now()), p.version, p.prev)] else [])
    {
      if !works || pending.Some? {
        return false;
      }
      pending := Some(p);
      base := kernel;
      log := log + [Now()];
      return true;
    }

    method ClearPendingApply(works: bool) returns (ok: bool)
      modifies this
      ensures ok == works
      ensures Wrote(if works then [Cleared(old(Now()))] else [])
    {
      if works {
        pending := None;
        unconfirmed := None;
        log := log + [Now()];
      }
      return works;
    }

    method SetAppliedTables(refs: seq<TableRef>, works: bool)
      modifies this
      ensures Wrote(if works then [Recorded(old(Now()), refs)] else [])
    {
      if works {
        ledger := refs;
        log := log + [Now()];
      }
    }

    method LatestAppliedConfig() returns (c: Option<seq<Decl>>)
      ensures c == Latest(versions)
    {
      var i := |versions|;
      assert versions[..i] == versions;
      while i > 0
        invariant 0 <= i <= |versions|
        invariant Latest(versions[..i]) == Latest(versions)
      {
        assert versions[..i][..i - 1] == versions[..i - 1];
        i := i - 1;
        if InForce(versions[i]) {
          return Some(versions[i].config);
        }
      }
      return None;
    }

    method UpdateLatestAppliedConfig(config: seq<Decl>, works: bool) returns (ok: bool)
      modifies this
      ensures ok == works
      ensures Wrote(if works then [old(Now()).(db := old(Now()).db.(versions := UpdateLatest(old(versions), config)))] else [])
    {
      if !works {
        return false;
      }
      versions := RewriteLatest(versions, config);
      log := log + [Now()];
      return true;
    }

    // ── Calls of nft ────────────────────────────────────────────────────────

    // nft -c -f: would the script commit?
    method CheckFile(script: seq<Command>, works: bool) returns (ok: bool)
      ensures ok == (works && Run(kernel, script).Some?)
    {
      return works && Run(kernel, script).Some?;
    }

    // nft -f: commits the whole script or leaves the ruleset as it was.
    method ApplyFile(script: seq<Command>, works: bool, ghost runs: Option<nat>) returns (ok: bool)
      modifies this
      ensures ok == (works && Run(old(kernel), script).Some?)
      ensures Wrote(if ok then [Running(old(Now()), Run(old(kernel), script).value, runs)] else [])
    {
      var r := Run(kernel, script);
      if !works || r.None? {
        return false;
      }
      kernel := r.value;
      unconfirmed := runs;
      log := log + [Now()];
      return true;
    }

    // ── Process memory ──────────────────────────────────────────────────────

    method StopPendingTimer(caught: bool)
      modifies this
      ensures Wrote([StopTimer(old(Now()), caught)])
    {
      if timer.Some? {
        if caught {
          inFlight := inFlight - multiset{timer.value};
        }
        timer := None;
      }
      log := log + [Now()];
    }

    method ArmTimer(id: nat, refs: seq<TableRef>)
      modifies this
      ensures Wrote([Arm(old(Now()), id, refs)])
    {
      timer := Some(id);
      inFlight := inFlight + multiset{id};
      applied := Some(refs);
      log := log + [Now()];
    }

    method ForgetApplied()
      modifies this
      ensures Wrote([Forgot(old(Now()))])
    {
      applied := None;
      log := log + [Now()];
    }

    // ── The handlers (apply.go) ─────────────────────────────────────────────

    // Everything an apply works out before it writes: the candidate, the snapshots a revert
    // needs, and the script with the live bans carried over.
    method Prepare(listing: seq<ListedSet>) returns (candidate: seq<Decl>, snaps: seq<Snapshot>, script: seq<Command>)
      ensures candidate == Candidate(Now().db)
      ensures snaps == Take(kernel, Touched(Now().db))
      ensures script == Script(Now().db, listing)
      ensures |candidate| == |tables|
      ensures forall i :: 0 <= i < |tables| ==>
                candidate[i].ref == TableRef(tables[i].family, tables[i].name) && RendersTable(tables[i], candidate[i].body)
    {
      ModelRenders(tables, lists);
      var trees := LoadTrees(tables, lists);
      candidate := Config(trees);
      var current := Refs(candidate);
      var removed := RefsMinus(ledger, current);
      var touched := UnionRefs(current, ledger);
      snaps := SnapshotTables(kernel, touched);
      var keep := KeepKeys(trees);
      var preserved := BuildPreservedElements(listing, keep);
      script := BuildApplyFile(candidate, removed);
      script := script + preserved;
    }

    method HandleApply(f: ApplyFate)
      modifies this
      ensures Wrote(ApplyTrace(old(Now()), f)[1..])
      ensures !old(Refused(Now(), f)) && f.pendingOk && f.loadOk ==>
                && timer == Some(|old(versions)|) && inFlight == old(inFlight) + multiset{|old(versions)|}
                && pending.Some? && pending.value.version == |old(versions)|
                && (SoundModel(old(tables), old(lists)) ==> HoldsTables(kernel, old(tables)))
    {
      hide HoldsTables, SoundModel;
      if !Refused(Now(), f) && f.pendingOk && f.loadOk {
        LoadedEnd(Now(), f);
      }
      if !f.readOk || pending.Some? {
        return;
      }
      var candidate, snaps, script := Prepare(f.listing);
      if !f.snapshotOk {
        return;
      }
      var checked := CheckFile(script, f.checkOk);
      if !checked || !f.insertOk {
        return;
      }
      CommitIsTrace(Now(), f);
      hide Refused, Candidate, Script, Take, Touched, Run, CommitStates, ApplyTrace;
      CommitApply(candidate, snaps, script, f);
    }

    // The writes of an apply, in order: version, pending row, kernel, timer.
    method CommitApply(candidate: seq<Decl>, snaps: seq<Snapshot>, script: seq<Command>, f: ApplyFate)
      requires f.insertOk && pending.None? && Run(kernel, script).Some?
      modifies this
      ensures Wrote(CommitStates(old(Now()), candidate, snaps, Run(old(kernel), script).value, f))
    {
      hide Run, LoadStates, Settle, Cleared, Arm, Running;
      var id := InsertConfigVersion(candidate, f.insertOk);
      var armed := SetPendingApply(PendingRow(id.value, snaps), f.pendingOk);
      if armed {
        LoadApply(id.value, candidate, script, f);
      }
    }

    // With the row written: the kernel, then the timer; or the clean-up of a rejection.
    method LoadApply(id: nat, candidate: seq<Decl>, script: seq<Command>, f: ApplyFate)
      requires Run(kernel, script).Some?
      modifies this
      ensures Wrote(LoadStates(old(Now()), id, Refs(candidate), Run(old(kernel), script).value, f))
    {
      hide Run, Running, Arm, Settle, Cleared, Refs;
      var loaded := ApplyFile(script, f.loadOk, Some(id));
      if !loaded {
        RejectApply(id, f);
        return;
      }
      ArmTimer(id, Refs(candidate));
    }

    // nft rejected the load: both errors of the clean-up are ignored.
    method RejectApply(id: nat, f: ApplyFate)
      modifies this
      ensures var s2 := old(Now());
              var s3 := if f.clearOk then Cleared(s2) else s2;
              Wrote((if f.clearOk then [s3] else []) + (if f.statusOk then [Settle(s3, id, Failed)] else []))
    {
      var _ := ClearPendingApply(f.clearOk);
      var _ := SetConfigVersionStatus(id, Failed, f.statusOk);
    }

    method HandleApplyConfirm(f: ConfirmFate)
      modifies this
      ensures Wrote(ConfirmTrace(old(Now()), f)[1..])
    {
      hide StopTimer, WithStatus, ConfirmedTables;
      ghost var s := Now();
      if !f.readOk || pending.None? {
        return;
      }
      var p := pending.value;
      StopPendingTimer(f.caught);
      StopTimerMemory(s, f.caught);
      var cleared := ClearPendingApply(f.clearOk);
      if !cleared {
        return;
      }
      var settled := SetConfigVersionStatus(p.version, Confirmed, f.statusOk);
      if !settled {
        return;
      }
      ghost var s3 := Now();
      RecordsAlike(s, s3, f);
      hide ConfirmedTables;
      RecordConfirmed(f);
    }

    // The tables captured at apply time, or the live model's if a restart lost them.
    method TablesToRecord(f: ConfirmFate) returns (refs: seq<TableRef>)
      ensures refs == ConfirmedTables(Now(), f)
    {
      if applied.Some? {
        return applied.value;
      }
      if !f.modelOk {
        return [];
      }
      var trees := LoadTrees(tables, lists);
      return Refs(Config(trees));
    }

    method RecordConfirmed(f: ConfirmFate)
      modifies this
      ensures var s3 := old(Now());
              var s4 := if f.ledgerOk then Recorded(s3, ConfirmedTables(s3, f)) else s3;
              Wrote((if f.ledgerOk then [s4] else []) + [Forgot(s4)])
    {
      var refs := TablesToRecord(f);
      hide ConfirmedTables;
      SetAppliedTables(refs, f.ledgerOk);
      ForgetApplied();
    }

    method Revert(p: PendingRow, f: RevertFate)
      modifies this
      ensures Wrote(RevertTrace(old(Now()), p, f)[1..])
    {
      var script := BuildRevertFile(p.prev);
      var loaded := ApplyFile(script, f.loadOk, None);
      if !loaded {
        return;
      }
      var cleared := ClearPendingApply(f.clearOk);
      if !cleared {
        return;
      }
      ForgetApplied();
      var _ := SetConfigVersionStatus(p.version, Reverted, f.statusOk);
    }

    method HandleApplyRollback(f: RevertFate)
      modifies this
      ensures Wrote(RollbackTrace(old(Now()), f)[1..])
    {
      if !f.readOk || pending.None? {
        return;
      }
      var p := pending.value;
      StopPendingTimer(f.caught);
      Revert(p, f);
    }

    // A timer callback that got the lock.
    method AutoRevert(v: nat, f: RevertFate)
      modifies this
      ensures Wrote(TimerTrace(old(Now()), v, f)[1..])
    {
      hide RevertTrace, TimerTrace;
      TimerTraceIs(Now(), v, f);
      inFlight := inFlight - multiset{v};
      log := log + [Now()];
      if !f.readOk || pending.None? || pending.value.version != v {
        return;
      }
      Revert(pending.value, f);
    }

    // Runs once before the server serves anything.
    method RecoverPendingApply(f: RevertFate)
      modifies this
      ensures Wrote(RecoverTrace(old(Now()), f)[1..])
    {
      ghost var s := Now();
      if f.readOk && pending.Some? {
        Revert(pending.value, f);
        assert Now() == Last(RevertTrace(s, s.db.pending.value, f));
      }
      serving := true;
      log := log + [Now()];
    }

    // ── Pushing a list change (listsync.go) ─────────────────────────────────

    // One element command, its own transaction.
    method SetElementOp(c: Command, works: bool) returns (ok: bool)
      modifies this
      ensures ok == (works && Exec(old(kernel), c).Some?)
      ensures Wrote(if ok then [old(Now()).(kernel := Exec(old(kernel), c).value)] else [])
    {
      var r := Exec(kernel, c);
      if !works || r.None? {
        return false;
      }
      kernel := r.value;
      log := log + [Now()];
      return true;
    }

    method RunCommands(cmds: seq<Command>, nftOk: Command -> bool) returns (pushed: bool, allOk: bool)
      modifies this
      ensures var r := Attempts(old(Now()), cmds, nftOk);
              pushed == r.any && allOk == r.allOk && Wrote(r.states) && Now() == r.end
    {
      ghost var s := Now();
      ghost var all := Attempts(s, cmds, nftOk);
      pushed, allOk := false, true;
      for i := 0 to |cmds|
        invariant var rest := Attempts(Now(), cmds[i..], nftOk);
                  && log + rest.states == old(log) + all.states
                  && rest.end == all.end
                  && (pushed || rest.any <==> all.any)
                  && (allOk && rest.allOk <==> all.allOk)
      {
        assert cmds[i..][0] == cmds[i] && cmds[i..][1..] == cmds[i + 1..];
        ghost var here := Now();
        var ok := SetElementOp(cmds[i], nftOk(cmds[i]));
        if ok {
          pushed := true;
          assert Attempts(here, cmds[i..], nftOk).states == [Now()] + Attempts(Now(), cmds[i + 1..], nftOk).states;
        } else {
          allOk := false;
        }
      }
      EndOfAttempts(s, cmds, nftOk);
    }

    method PushSetElements(prior: seq<Decl>, l: string, add: seq<Literal>, del: seq<Literal>, f: PushFate) returns (done: bool)
      modifies this
      ensures Wrote(PushSteps(old(Now()), prior, l, add, del, f))
    {
      if |add| == 0 && |del| == 0 {
        return false;
      }
      var latest := LatestAppliedConfig();
      if !f.readOk || latest != Some(prior) || pending.Some? {
        return false;
      }
      done := PushNow(l, add, del, f);
    }

    method PushNow(l: string, add: seq<Literal>, del: seq<Literal>, f: PushFate) returns (done: bool)
      modifies this
      ensures Wrote(PushedSteps(old(Now()), l, add, del, f))
    {
      var candidate, cmds := PushPlan(l, add, del, f.order);
      AttemptsKeepVersions(Now(), cmds, f.nftOk);
      hide Candidate, Trees, PushAll, Attempts, UpdateLatest;
      var pushed, allOk := RunCommands(cmds, f.nftOk);
      if !pushed || !allOk {
        return false;
      }
      done := UpdateLatestAppliedConfig(candidate, f.updateOk);
    }

    // The new rendering, and the element commands table by table.
    method PushPlan(l: string, add: seq<Literal>, del: seq<Literal>, order: nat -> Order) returns (candidate: seq<Decl>, cmds: seq<Command>)
      ensures candidate == Candidate(Now().db)
      ensures cmds == PushAll(Trees(Now().db), l, add, del, order)
    {
      var trees := LoadTrees(tables, lists);
      candidate := Config(trees);
      cmds := PushCommands(trees, l, add, del, order);
    }

    // A feed refresh or a block: replace one list's entries, then push the difference.
    method ChangeList(i: nat, after: seq<Entry>, f: PushFate)
      requires i < |lists|
      modifies this
      ensures Wrote(PushTrace(old(Now()), i, after, f)[1..])
    {
      hide Candidate, PushSteps, PushTrace, Updated, Missing, Cidrs;
      PushTraceIs(Now(), i, after, f);
      var prior, name, add, del := Difference(i, after);
      StoreEntries(i, after);
      var _ := PushSetElements(prior, name, add, del, f);
    }

    // modelRender before the change, and the change's delta.
    method Difference(i: nat, after: seq<Entry>) returns (prior: seq<Decl>, name: string, add: seq<Literal>, del: seq<Literal>)
      requires i < |lists|
      ensures prior == Candidate(Now().db)
      ensures var c := Change(lists, i, after); name == c.Name() && add == c.Adds() && del == c.Dels()
    {
      var trees := LoadTrees(tables, lists);
      prior := Config(trees);
      name := lists[i].name;
      add, del := ListEntryDelta(lists[i].entries, after);
    }

    method StoreEntries(i: nat, after: seq<Entry>)
      requires i < |lists|
      modifies this
      ensures Wrote([old(Now()).(db := old(Now()).db.(lists := Updated(old(lists), i, after)))])
    {
      lists := lists[i := lists[i].(entries := after)];
      log := log + [Now()];
    }
  }

  lemma {:induction false} EndOfAttempts(s: State, cmds: seq<Command>, nftOk: Command -> bool)
    ensures var r := Attempts(s, cmds, nftOk);
            r.end == if r.states == [] then s else Last(r.states)
    decreases |cmds|
  {
    hide Exec;
    if cmds != [] {
      if nftOk(cmds[0]) && Exec(s.kernel, cmds[0]).Some? {
        EndOfAttempts(s.(kernel := Exec(s.kernel, cmds[0]).value), cmds[1..], nftOk);
      } else {
        EndOfAttempts(s, cmds[1..], nftOk);
      }
    }
  }

  lemma {:induction false} AttemptsKeepVersions(s: State, cmds: seq<Command>, nftOk: Command -> bool)
    ensures Attempts(s, cmds, nftOk).end.db == s.db
    decreases |cmds|
  {
    hide Exec;
    if cmds != [] {
      if nftOk(cmds[0]) && Exec(s.kernel, cmds[0]).Some? {
        AttemptsKeepVersions(s.(kernel := Exec(s.kernel, cmds[0]).value), cmds[1..], nftOk);
      } else {
        AttemptsKeepVersions(s, cmds[1..], nftOk);
      }
    }
  }
}
