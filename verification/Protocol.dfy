/** The armed-apply protocol as a state machine with crashes (internal/web/apply.go,
    internal/store/configversions.go). A handler is the list of states it passes through, one
    after each successful write, so that a crash can be placed between any two of them. */
module Protocol {
  import opened Wrappers
  import opened Addresses
  import opened Model
  import opened Lists
  import opened Sets
  import opened Kernel
  import opened Render
  import opened Bans
  import opened ListSync

  datatype Status = Pending | Confirmed | Reverted | Failed

  datatype Version = Version(config: seq<Decl>, status: Status)

  /** The armed, unconfirmed apply. */
  datatype PendingRow = PendingRow(version: nat, prev: seq<Snapshot>)

  /** Durable state. A version's id is its index: ids are never reused, rows never deleted. */
  datatype Db = Db(
    versions: seq<Version>,
    pending: Option<PendingRow>,
    ledger: seq<TableRef>,
    tables: seq<Table>,
    lists: seq<NamedList>)

  /** What a restart loses: the armed timer, the applied table set, and the timer callbacks
      still to run (a stopped timer may already be waiting for the lock). */
  datatype Memory = Memory(timer: Option<nat>, applied: Option<seq<TableRef>>, inFlight: multiset<nat>)

  /** The whole system. The last two fields are history: the ruleset as it was when the pending
      row was written (followed through later outside changes to other tables), and the version
      the kernel runs without confirmation. */
  datatype State = State(
    db: Db,
    kernel: Ruleset,
    serving: bool,
    mem: Memory,
    base: Ruleset,
    unconfirmed: Option<nat>)

  const FORGOTTEN := Memory(None, None, multiset{})

  // ── Database rows ─────────────────────────────────────────────────────────

  function WithStatus(vs: seq<Version>, id: nat, st: Status): (r: seq<Version>) {
    if id < |vs| then vs[id := vs[id].(status := st)] else vs
  }

  predicate InForce(v: Version) {
    v.status.Confirmed? || v.status.Pending?
  }

  // LatestAppliedConfig: the newest confirmed or pending version.
  function Latest(vs: seq<Version>): (r: Option<seq<Decl>>) {
    if vs == [] then None
    else if InForce(vs[|vs| - 1]) then Some(vs[|vs| - 1].config)
    else Latest(vs[..|vs| - 1])
  }

  // UpdateLatestAppliedConfig: rewrite the config of that version.
  function UpdateLatest(vs: seq<Version>, config: seq<Decl>): (r: seq<Version>)
    ensures |r| == |vs|
  {
    if vs == [] then []
    else
      var n := |vs| - 1;
      if InForce(vs[n]) then vs[n := vs[n].(config := config)]
      else UpdateLatest(vs[..n], config) + [vs[n]]
  }

  // ── Single writes ─────────────────────────────────────────────────────────

  function Inserted(s: State, config: seq<Decl>): (r: State) {
    s.(db := s.db.(versions := s.db.versions + [Version(config, Pending)]))
  }

  function Armed(s: State, id: nat, prev: seq<Snapshot>): (r: State) {
    s.(db := s.db.(pending := Some(PendingRow(id, prev))), base := s.kernel)
  }

  function Cleared(s: State): (r: State) {
    s.(db := s.db.(pending := None), unconfirmed := None)
  }

  function Settle(s: State, id: nat, st: Status): (r: State) {
    s.(db := s.db.(versions := WithStatus(s.db.versions, id, st)))
  }

  function StopTimer(s: State, caught: bool): (r: State) {
    match s.mem.timer
    case None => s
    case Some(v) => s.(mem := s.mem.(timer := None, inFlight := if caught then s.mem.inFlight - multiset{v} else s.mem.inFlight))
  }

  // Stopping the timer touches nothing but the timers.
  lemma StopTimerMemory(s: State, caught: bool)
    ensures StopTimer(s, caught) == s.(mem := StopTimer(s, caught).mem)
    ensures StopTimer(s, caught).mem.applied == s.mem.applied
  {}

  function Arm(s: State, id: nat, refs: seq<TableRef>): (r: State) {
    s.(mem := Memory(Some(id), Some(refs), s.mem.inFlight + multiset{id}))
  }

  function Running(s: State, k: Ruleset, version: Option<nat>): (r: State) {
    s.(kernel := k, unconfirmed := version)
  }

  function Recorded(s: State, refs: seq<TableRef>): (r: State) {
    s.(db := s.db.(ledger := refs))
  }

  function Forgot(s: State): (r: State) {
    s.(mem := s.mem.(applied := None))
  }

  function Crashed(s: State): (r: State) {
    s.(serving := false, mem := FORGOTTEN)
  }

  // ── Events and what can go wrong in them ──────────────────────────────────

  /** Each flag is one call that may fail; `listing` is what the ban read returned. */
  datatype ApplyFate = ApplyFate(
    readOk: bool, snapshotOk: bool, listing: seq<ListedSet>, checkOk: bool, insertOk: bool,
    pendingOk: bool, loadOk: bool, clearOk: bool, statusOk: bool)

  datatype ConfirmFate = ConfirmFate(
    readOk: bool, caught: bool, clearOk: bool, statusOk: bool, modelOk: bool, ledgerOk: bool)

  datatype RevertFate = RevertFate(readOk: bool, caught: bool, loadOk: bool, clearOk: bool, statusOk: bool)

  datatype PushFate = PushFate(readOk: bool, order: nat -> Order, nftOk: Command -> bool, updateOk: bool)

  datatype Event =
    | Apply(af: ApplyFate)
    | Confirm(cf: ConfirmFate)
    | Rollback(rf: RevertFate)
    | TimerFires(v: nat, rf: RevertFate)
    | Recover(rf: RevertFate)
    | EditModel(tables: seq<Table>, lists: seq<NamedList>)
    | Outside(k: Ruleset)
    | PushList(i: nat, after: seq<Entry>, pf: PushFate)
    | CrashIn(e: Event, at: nat)

  function Last(t: seq<State>): (s: State)
    requires t != []
  {
    t[|t| - 1]
  }

  // ── The handlers ──────────────────────────────────────────────────────────

  ghost function Trees(db: Db): (t: seq<TableTree>) {
    LoadModel(db.tables, db.lists)
  }

  ghost function Candidate(db: Db): (c: seq<Decl>) {
    Config(Trees(db))
  }

  ghost function Touched(db: Db): (r: seq<TableRef>) {
    Union(Refs(Candidate(db)), db.ledger)
  }

  ghost function Script(db: Db, listing: seq<ListedSet>): (s: seq<Command>) {
    ApplyScript(Trees(db), Minus(db.ledger, Refs(Candidate(db))), listing)
  }

  ghost predicate Refused(s: State, f: ApplyFate) {
    || !f.readOk || s.db.pending.Some? || !f.snapshotOk
    || !f.checkOk || Run(s.kernel, Script(s.db, f.listing)).None?
    || !f.insertOk
  }

  ghost function ApplyTrace(s: State, f: ApplyFate): (t: seq<State>)
    ensures t != [] && t[0] == s
  {
    if Refused(s, f) then [s]
    else
      var id := |s.db.versions|;
      var s1 := Inserted(s, Candidate(s.db));
      if !f.pendingOk then [s, s1]
      else
        var s2 := Armed(s1, id, Take(s.kernel, Touched(s.db)));
        if !f.loadOk then
          var s3 := if f.clearOk then Cleared(s2) else s2;
          [s, s1, s2] + (if f.clearOk then [s3] else []) + (if f.statusOk then [Settle(s3, id, Failed)] else [])
        else
          var s3 := Running(s2, Run(s.kernel, Script(s.db, f.listing)).value, Some(id));
          [s, s1, s2, s3, Arm(s3, id, Refs(Candidate(s.db)))]
  }

  ghost function ConfirmedTables(s: State, f: ConfirmFate): (r: seq<TableRef>) {
    match s.mem.applied
    case Some(refs) => refs
    case None => if f.modelOk then Refs(Candidate(s.db)) else []
  }

  ghost function ConfirmTrace(s: State, f: ConfirmFate): (t: seq<State>)
    ensures t != [] && t[0] == s
  {
    if !f.readOk || s.db.pending.None? then [s]
    else
      var p := s.db.pending.value;
      var s1 := StopTimer(s, f.caught);
      if !f.clearOk then [s, s1]
      else
        var s2 := Cleared(s1);
        if !f.statusOk then [s, s1, s2]
        else
          var s3 := Settle(s2, p.version, Confirmed);
          var s4 := if f.ledgerOk then Recorded(s3, ConfirmedTables(s, f)) else s3;
          [s, s1, s2, s3] + (if f.ledgerOk then [s4] else []) + [Forgot(s4)]
  }

  ghost function RevertTrace(s: State, p: PendingRow, f: RevertFate): (t: seq<State>)
    ensures t != [] && t[0] == s
  {
    var run := Run(s.kernel, BuildRevert(p.prev));
    if !f.loadOk || run.None? then [s]
    else
      var s1 := Running(s, run.value, None);
      if !f.clearOk then [s, s1]
      else
        var s2 := Cleared(s1);
        var s3 := Forgot(s2);
        [s, s1, s2, s3] + (if f.statusOk then [Settle(s3, p.version, Reverted)] else [])
  }

  ghost function RollbackTrace(s: State, f: RevertFate): (t: seq<State>)
    ensures t != [] && t[0] == s
  {
    if !f.readOk || s.db.pending.None? then [s]
    else [s] + RevertTrace(StopTimer(s, f.caught), s.db.pending.value, f)
  }

  ghost function TimerTrace(s: State, v: nat, f: RevertFate): (t: seq<State>)
    ensures t != [] && t[0] == s
  {
    var s1 := s.(mem := s.mem.(inFlight := s.mem.inFlight - multiset{v}));
    if !f.readOk || s.db.pending.None? || s.db.pending.value.version != v then [s, s1]
    else [s] + RevertTrace(s1, s.db.pending.value, f)
  }

  // Recovery runs before the server starts; whatever it finds, serving begins afterwards.
  ghost function RecoverTrace(s: State, f: RevertFate): (t: seq<State>)
    ensures t != [] && t[0] == s
  {
    var t := if !f.readOk || s.db.pending.None? then [s] else RevertTrace(s, s.db.pending.value, f);
    t + [Last(t).(serving := true)]
  }

  // Outside changes to the kernel; the history follows them on tables the apply left alone.
  ghost function OutsideChange(s: State, k: Ruleset): (r: State) {
    var touched := if s.db.pending.Some? then ToSet(SnapRefs(s.db.pending.value.prev)) else {};
    s.(kernel := k, base := Mix(s.base, k, touched))
  }

  function SnapRefs(snaps: seq<Snapshot>): (r: seq<TableRef>)
    ensures |r| == |snaps|
    ensures forall i :: 0 <= i < |r| ==> r[i] == snaps[i].ref
  {
    seq(|snaps|, i requires 0 <= i < |snaps| => snaps[i].ref)
  }

  // The old ruleset on the given tables, the new one elsewhere.
  function Mix(earlier: Ruleset, later: Ruleset, refs: set<TableRef>): (r: Ruleset) {
    map r | r in earlier.Keys + later.Keys && (if r in refs then r in earlier else r in later) ::
      if r in refs then earlier[r] else later[r]
  }

  // ── Pushing a list change ─────────────────────────────────────────────────

  /** The element commands one after another, each its own transaction. */
  datatype Pushed = Pushed(states: seq<State>, end: State, any: bool, allOk: bool)

  ghost function Attempts(s: State, cmds: seq<Command>, nftOk: Command -> bool): (r: Pushed)
    decreases |cmds|
  {
    if cmds == [] then Pushed([], s, false, true)
    else if nftOk(cmds[0]) && Exec(s.kernel, cmds[0]).Some? then
      var s' := s.(kernel := Exec(s.kernel, cmds[0]).value);
      var r := Attempts(s', cmds[1..], nftOk);
      Pushed([s'] + r.states, r.end, true, r.allOk)
    else Attempts(s, cmds[1..], nftOk).(allOk := false)
  }

  // pushSetElements on its own: it steps aside unless the model was in sync before the change
  // and no apply is armed.
  ghost function PushSteps(s: State, prior: seq<Decl>, l: string, add: seq<Literal>, del: seq<Literal>, f: PushFate): (t: seq<State>) {
    if (add == [] && del == []) || !f.readOk || s.db.pending.Some? || Latest(s.db.versions) != Some(prior) then []
    else PushedSteps(s, l, add, del, f)
  }

  // The commands, and the new baseline when every one of them landed.
  ghost function PushedSteps(s: State, l: string, add: seq<Literal>, del: seq<Literal>, f: PushFate): (t: seq<State>) {
    var r := Attempts(s, PushAll(Trees(s.db), l, add, del, f.order), f.nftOk);
    r.states +
    (if r.any && r.allOk && f.updateOk
     then [r.end.(db := r.end.db.(versions := UpdateLatest(s.db.versions, Candidate(s.db))))]
     else [])
  }

  // Capture the rendering, change one list's entries, push the difference.
  ghost function PushTrace(s: State, i: nat, after: seq<Entry>, f: PushFate): (t: seq<State>)
    ensures t != [] && t[0] == s
  {
    if i >= |s.db.lists| then [s]
    else
      var c := Change(s.db.lists, i, after);
      var s1 := s.(db := s.db.(lists := c.New()));
      [s, s1] + PushSteps(s1, Candidate(s.db), c.Name(), c.Adds(), c.Dels(), f)
  }

  // ── Runs ──────────────────────────────────────────────────────────────────

  ghost function Trace(s: State, e: Event): (t: seq<State>)
    ensures t != []
    decreases e
  {
    match e
    case Apply(f) => ApplyTrace(s, f)
    case Confirm(f) => ConfirmTrace(s, f)
    case Rollback(f) => RollbackTrace(s, f)
    case TimerFires(v, f) => TimerTrace(s, v, f)
    case Recover(f) => RecoverTrace(s, f)
    case EditModel(ts, ls) => [s, s.(db := s.db.(tables := ts, lists := ls))]
    case Outside(k) => [s, OutsideChange(s, k)]
    case PushList(i, after, f) => PushTrace(s, i, after, f)
    case CrashIn(e', n) => var t := Trace(s, e'); [Crashed(t[if n < |t| then n else 0])]
  }

  ghost function Next(s: State, e: Event): (r: State) {
    Last(Trace(s, e))
  }

  /** What the store guarantees of the model it holds (its unique keys and the list rules). */
  ghost predicate SoundModel(tables: seq<Table>, lists: seq<NamedList>) {
    DistinctTables(tables) && DistinctLists(lists) && SoundLists(lists)
  }

  ghost predicate Enabled(s: State, e: Event)
    decreases e
  {
    match e
    case Apply(f) => s.serving && (f.listing == [] || Shows(f.listing, s.kernel))
    case Confirm(_) => s.serving
    case Rollback(_) => s.serving
    case TimerFires(v, _) => s.serving && v in s.mem.inFlight
    case Recover(_) => !s.serving
    case EditModel(ts, ls) => s.serving && SoundModel(ts, ls)
    case Outside(k) => SoundKernel(k)
    case PushList(i, after, f) => s.serving && i < |s.db.lists| && SoundList(after)
    case CrashIn(e', n) => Enabled(s, e') && n < |Trace(s, e')|
  }

  ghost function After(s: State, es: seq<Event>): (r: State)
    decreases |es|
  {
    if es == [] then s else After(Next(s, es[0]), es[1..])
  }

  ghost predicate IsRun(s: State, es: seq<Event>)
    decreases |es|
  {
    es == [] || (Enabled(s, es[0]) && IsRun(Next(s, es[0]), es[1..]))
  }

  /** A fresh installation on any running ruleset. */
  ghost predicate Initial(s: State) {
    && s.db.versions == [] && s.db.pending.None? && s.db.ledger == []
    && SoundModel(s.db.tables, s.db.lists)
    && SoundKernel(s.kernel)
    && !s.serving && s.mem == FORGOTTEN && s.unconfirmed.None?
  }
}
