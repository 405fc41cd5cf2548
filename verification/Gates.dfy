/** What the simulator's answer is worth past a limit, a quota or a rate ban: everything nft can come
    to, however they turn out (internal/simulate/simulate.go; the statements are rendered in
    internal/nftcat/catalogue.go). */
module Gates {
  import opened Wrappers
  import opened Addresses
  import opened Strings
  import opened Model
  import opened Matching
  import opened Simulation
  import opened Soundness

  // ── How the gates turn out, step by step ──────────────────────────────────

  predicate IsThreshold(key: string) {
    key == "limit" || key == "quota"
  }

  /** A limit and a quota match or end the rule; a rate ban drops or ends the rule. */
  ghost predicate Tame(gate: Statement -> Gate) {
    forall st: Statement ::
      && (IsThreshold(st.key) ==> gate(st) == Passes || gate(st) == Ends(GoOn))
      && (st.key == "ban.rate" ==> gate(st) == Ends(Drop) || gate(st) == Ends(GoOn))
  }

  /** How gating statements and raw rules turn out at one step of the machine: the same limit may turn
      out otherwise at the next. */
  datatype Moment = Moment(gate: Statement -> Gate, raw: Rule -> Ruling)

  function At(w: World, o: Moment): (x: World) {
    w.(gate := o.gate, raw := o.raw)
  }

  // The machine from step k on, for n steps.
  function Run(t: TableTree, w: World, o: nat -> Moment, k: nat, n: nat, m: Machine): (m': Machine)
    requires Complete(w.pkt)
    decreases n
  {
    if n == 0 then m else Run(t, w, o, k + 1, n - 1, Step(t, At(w, o(k)), m))
  }

  ghost predicate TameAlways(o: nat -> Moment) {
    forall k :: Tame(o(k).gate)
  }

  lemma {:induction false} RunAdd(t: TableTree, w: World, o: nat -> Moment, k: nat, a: nat, b: nat, m: Machine)
    requires Complete(w.pkt)
    ensures Run(t, w, o, k, a + b, m) == Run(t, w, o, k + a, b, Run(t, w, o, k, a, m))
    decreases a
  {
    hide Step;
    if a != 0 {
      RunAdd(t, w, o, k + 1, a - 1, b, Step(t, At(w, o(k)), m));
    }
  }

  lemma {:induction false} RunStaysDone(t: TableTree, w: World, o: nat -> Moment, k: nat, n: nat, m: Machine)
    requires Complete(w.pkt) && !m.Running?
    ensures Run(t, w, o, k, n, m) == m
    decreases n
  {
    if n != 0 {
      RunStaysDone(t, w, o, k + 1, n - 1, m);
    }
  }

  lemma RunOnce(t: TableTree, w: World, o: nat -> Moment, k: nat, n: nat, m: Machine)
    requires Complete(w.pkt)
    ensures Run(t, w, o, k, 0, m) == m
    ensures Run(t, w, o, k, n + 1, m) == Run(t, w, o, k + 1, n, Step(t, At(w, o(k)), m))
  {}

  // ── What a rule may do ────────────────────────────────────────────────────

  // Nothing else gates before the verdict.
  predicate Bounded(sts: seq<Statement>) {
    if sts == [] then true
    else if IsThreshold(sts[0].key) then Bounded(sts[1..])
    else if sts[0].key == "ban.rate" then true
    else if IsGate(sts[0].key) then false
    else if IsVerdict(sts[0].key) then true
    else Bounded(sts[1..])
  }

  predicate Tractable(r: Rule) {
    !IsRaw(r) && Bounded(r.statements)
  }

  // Every limit and quota matches, every rate ban drops, everything else ends the rule so.
  function Passing(v: Ruling): (o: Moment) {
    Moment(
      (st: Statement) => if IsThreshold(st.key) then Passes else if st.key == "ban.rate" then Ends(Drop) else Ends(v),
      (r: Rule) => v)
  }

  // The first gate ends the rule.
  function Failing(): (o: Moment) {
    Moment((st: Statement) => Ends(GoOn), (r: Rule) => GoOn)
  }

  function Passed(r: Rule): (v: Ruling) {
    TrueRuling(Passing(GoOn).gate, r.statements)
  }

  function Failed(r: Rule): (v: Ruling) {
    TrueRuling(Failing().gate, r.statements)
  }

  lemma TameMoments(v: Ruling)
    ensures Tame(Passing(v).gate) && Tame(Failing().gate)
  {}

  /** A tractable rule does, however its gates turn out, what it does when they all pass or when the
      first one ends it. */
  lemma {:induction false} TameRuling(gate: Statement -> Gate, sts: seq<Statement>)
    requires Tame(gate) && Bounded(sts)
    ensures var v := TrueRuling(gate, sts);
            v == TrueRuling(Passing(GoOn).gate, sts) || v == TrueRuling(Failing().gate, sts)
  {
    if sts != [] && !IsVerdict(sts[0].key) && sts[0].key != "ban.rate" {
      TameRuling(gate, sts[1..]);
      FailedRuling(sts[1..]);
    }
  }

  lemma {:induction false} FailedRuling(sts: seq<Statement>)
    requires Bounded(sts)
    ensures var v := TrueRuling(Failing().gate, sts);
            v == GoOn || v == TrueRuling(Passing(GoOn).gate, sts)
  {
    if sts != [] && !IsVerdict(sts[0].key) && sts[0].key != "ban.rate" {
      FailedRuling(sts[1..]);
    }
  }

  lemma {:induction false} UnboundedRuling(sts: seq<Statement>, v: Ruling)
    requires !Bounded(sts)
    ensures TrueRuling(Passing(v).gate, sts) == v
  {
    if IsThreshold(sts[0].key) || !IsGate(sts[0].key) {
      UnboundedRuling(sts[1..], v);
    }
  }

  lemma {:induction false} PlainRuling(sts: seq<Statement>)
    requires NoGateFirst(sts)
    ensures Bounded(sts)
    ensures TrueRuling(Passing(GoOn).gate, sts) == RuleVerdict(sts) == TrueRuling(Failing().gate, sts)
  {
    if sts != [] && !IsVerdict(sts[0].key) {
      PlainRuling(sts[1..]);
    }
  }

  // ── The ends a chain may come to ──────────────────────────────────────────

  /** From the i-th rule on: each rule that is read as matching passes or fails at its gates; one that
      is not tractable may accept or drop, among other things. */
  function EndsOf(t: TableTree, p: Packet, c: Chain, i: nat, depth: nat, limit: nat): (r: set<End>)
    requires i <= |c.rules|
    decreases limit + 1 - depth, |c.rules| - i, 1
  {
    if depth > limit then {}
    else if i == |c.rules| then {Open}
    else
      var r := c.rules[i];
      if !r.enabled || !MatchRule(t.sets, p, r.matches).Yes? then EndsOf(t, p, c, i + 1, depth, limit)
      else if !Tractable(r) then {Decided(Accept), Decided(Drop)}
      else EndsBy(t, p, c, i, depth, limit, Passed(r)) + EndsBy(t, p, c, i, depth, limit, Failed(r))
  }

  // And when the i-th rule does that.
  function EndsBy(t: TableTree, p: Packet, c: Chain, i: nat, depth: nat, limit: nat, v: Ruling): (r: set<End>)
    requires i < |c.rules| && depth <= limit
    decreases limit + 1 - depth, |c.rules| - i, 0
  {
    match v
    case Jump(target) => (
      match FindChain(t.table.chains, target)
      case None => {}
      case Some(tc) =>
        var sub := EndsOf(t, p, tc, 0, depth + 1, limit);
        if Open in sub then sub - {Open} + EndsOf(t, p, c, i + 1, depth, limit) else sub)
    case Goto(target) => (
      match FindChain(t.table.chains, target)
      case None => {}
      case Some(tc) => EndsOf(t, p, tc, 0, depth + 1, limit))
    case Return => {Open}
    case GoOn => EndsOf(t, p, c, i + 1, depth, limit)
    case _ => {Decided(v)}
  }

  /** Everything on the way is read surely and is not unknown, every target is there, and the depth
      limit is not met. */
  predicate Clear(t: TableTree, p: Packet, c: Chain, i: nat, depth: nat, limit: nat)
    requires i <= |c.rules|
    decreases limit + 1 - depth, |c.rules| - i, 1
  {
    depth <= limit &&
    (i == |c.rules| ||
     var r := c.rules[i];
     if !r.enabled then Clear(t, p, c, i + 1, depth, limit)
     else
       && RuleSure(t.sets, p, r.matches) && !MatchRule(t.sets, p, r.matches).Unknown?
       && if MatchRule(t.sets, p, r.matches).No? then Clear(t, p, c, i + 1, depth, limit)
          else
            Tractable(r) ==> ClearBy(t, p, c, i, depth, limit, Passed(r)) && ClearBy(t, p, c, i, depth, limit, Failed(r)))
  }

  predicate ClearBy(t: TableTree, p: Packet, c: Chain, i: nat, depth: nat, limit: nat, v: Ruling)
    requires i < |c.rules| && depth <= limit
    decreases limit + 1 - depth, |c.rules| - i, 0
  {
    match v
    case Jump(target) => (
      match FindChain(t.table.chains, target)
      case None => false
      case Some(tc) =>
        && Clear(t, p, tc, 0, depth + 1, limit)
        && (Open in EndsOf(t, p, tc, 0, depth + 1, limit) ==> Clear(t, p, c, i + 1, depth, limit)))
    case Goto(target) => (
      match FindChain(t.table.chains, target)
      case None => false
      case Some(tc) => Clear(t, p, tc, 0, depth + 1, limit))
    case GoOn => Clear(t, p, c, i + 1, depth, limit)
    case _ => true
  }

  /** A certain walk by sure readings and plain rules is clear, and its end is the only one. */
  lemma {:induction false} PlainEnds(t: TableTree, p: Packet, c: Chain, i: nat, depth: nat, limit: nat)
    requires i <= |c.rules|
    requires SurePath(t, p, c, i, depth, limit) && PlainPath(t, p, c, i, depth, limit)
    requires !Walk(t, p, c, i, depth, limit).uncertain
    ensures Clear(t, p, c, i, depth, limit)
    ensures EndsOf(t, p, c, i, depth, limit) == {Walk(t, p, c, i, depth, limit).end}
    decreases limit + 1 - depth, |c.rules| - i
  {
    hide MatchRule, RuleVerdict, RuleSure, NoGateFirst, Bounded, TrueRuling, IsRaw;
    if i < |c.rules| {
      var r := c.rules[i];
      if !r.enabled || !MatchRule(t.sets, p, r.matches).Yes? {
        PlainEnds(t, p, c, i + 1, depth, limit);
      } else {
        PlainRuling(r.statements);
        var v := RuleVerdict(r.statements);
        if v.Jump? {
          var tc := FindChain(t.table.chains, v.target).value;
          PlainEnds(t, p, tc, 0, depth + 1, limit);
          if !Walk(t, p, tc, 0, depth + 1, limit).end.Decided? {
            PlainEnds(t, p, c, i + 1, depth, limit);
          }
        } else if v.Goto? {
          PlainEnds(t, p, FindChain(t.table.chains, v.target).value, 0, depth + 1, limit);
        } else if v.GoOn? {
          PlainEnds(t, p, c, i + 1, depth, limit);
        }
      }
    }
  }

  // ── nft comes to no other end ─────────────────────────────────────────────

  // Both can happen: some rule on the way is not tractable, or the gates alone decide.
  predicate Torn(ends: set<End>) {
    Decided(Accept) in ends && Decided(Drop) in ends
  }

  /** However the gates turn out at each step, the machine comes to one of the ends, on top of any
      stack. */
  lemma {:induction false} RunsToEnd(
    t: TableTree, w: World, o: nat -> Moment, k: nat, p: Packet, c: Chain, i: nat, depth: nat, limit: nat, stack: seq<Frame>)
    returns (n: nat, e: End)
    requires Complete(w.pkt) && Extends(p, w.pkt) && TameAlways(o) && i <= |c.rules|
    requires Clear(t, p, c, i, depth, limit) && !Torn(EndsOf(t, p, c, i, depth, limit))
    ensures e in EndsOf(t, p, c, i, depth, limit)
    ensures Run(t, w, o, k, n, Running(Frame(c, i), stack)) == AfterChain(e, stack)
    decreases limit + 1 - depth, |c.rules| - i, 1
  {
    hide Run, MatchRule, RuleHolds, RuleSure, Extends, Tame, Bounded, TrueRuling, IsRaw, Passed, Failed, EndsBy, ClearBy;
    var m := Running(Frame(c, i), stack);
    var x := At(w, o(k));
    if i == |c.rules| {
      n, e := 1, Open;
      RunOnce(t, w, o, k, 0, m);
      RunOnce(t, w, o, k + 1, 0, Step(t, x, m));
    } else {
      var r := c.rules[i];
      if r.enabled {
        RuleAgrees(x, p, t.sets, r.matches);
      }
      if !r.enabled || MatchRule(t.sets, p, r.matches).No? {
        n, e := RunsToEnd(t, w, o, k + 1, p, c, i + 1, depth, limit, stack);
      } else {
        TameEffect(x, r);
        var v := Effect(x, r);
        n, e := EffectRuns(t, w, o, k + 1, p, c, i, depth, limit, stack, v);
        StepEffect(t, x, c, i, stack);
      }
      RunOnce(t, w, o, k, n, m);
      n := n + 1;
    }
  }

  lemma TameEffect(x: World, r: Rule)
    requires Tame(x.gate) && Tractable(r)
    ensures Effect(x, r) == Passed(r) || Effect(x, r) == Failed(r)
  {
    hide Tame, TrueRuling, Bounded;
    TameRuling(x.gate, r.statements);
  }

  // The machine after a matching rule that does v.
  function Landed(t: TableTree, c: Chain, i: nat, stack: seq<Frame>, v: Ruling): (m: Machine) {
    match v
    case Jump(target) => (
      match FindChain(t.table.chains, target)
      case None => Stuck
      case Some(tc) => Running(Frame(tc, 0), stack + [Frame(c, i + 1)]))
    case Goto(target) => (
      match FindChain(t.table.chains, target)
      case None => Stuck
      case Some(tc) => Running(Frame(tc, 0), stack))
    case Return => Pop(stack)
    case GoOn => Running(Frame(c, i + 1), stack)
    case _ => Done(Decided(v))
  }

  lemma StepEffect(t: TableTree, x: World, c: Chain, i: nat, stack: seq<Frame>)
    requires Complete(x.pkt) && i < |c.rules| && c.rules[i].enabled && RuleHolds(x, t.sets, c.rules[i].matches)
    ensures Step(t, x, Running(Frame(c, i), stack)) == Landed(t, c, i, stack, Effect(x, c.rules[i]))
  {
    hide Effect, RuleHolds;
  }

  lemma {:induction false} EffectRuns(
    t: TableTree, w: World, o: nat -> Moment, k: nat, p: Packet, c: Chain, i: nat, depth: nat, limit: nat,
    stack: seq<Frame>, v: Ruling)
    returns (n: nat, e: End)
    requires Complete(w.pkt) && Extends(p, w.pkt) && TameAlways(o) && i < |c.rules| && depth <= limit
    requires ClearBy(t, p, c, i, depth, limit, v) && !Torn(EndsBy(t, p, c, i, depth, limit, v))
    ensures e in EndsBy(t, p, c, i, depth, limit, v)
    ensures Run(t, w, o, k, n, Landed(t, c, i, stack, v)) == AfterChain(e, stack)
    decreases limit + 1 - depth, |c.rules| - i, 0
  {
    hide Run, Extends, EndsOf, Clear;
    var m := Landed(t, c, i, stack, v);
    match v
    case Jump(target) =>
      var on := Frame(c, i + 1);
      n, e := RunsToEnd(t, w, o, k, p, FindChain(t.table.chains, target).value, 0, depth + 1, limit, stack + [on]);
      if e.Open? {
        assert (stack + [on])[..|stack|] == stack;
        var n': nat;
        n', e := RunsToEnd(t, w, o, k + n, p, c, i + 1, depth, limit, stack);
        RunAdd(t, w, o, k, n, n', m);
        n := n + n';
      }
    case Goto(target) =>
      n, e := RunsToEnd(t, w, o, k, p, FindChain(t.table.chains, target).value, 0, depth + 1, limit, stack);
    case GoOn =>
      n, e := RunsToEnd(t, w, o, k, p, c, i + 1, depth, limit, stack);
    case Return =>
      n, e := 0, Open;
      RunOnce(t, w, o, k, 0, m);
    case _ =>
      n, e := 0, Decided(v);
      RunOnce(t, w, o, k, 0, m);
  }

  // ── And to each of them ───────────────────────────────────────────────────

  // The machine along a list of moments.
  function Play(t: TableTree, w: World, os: seq<Moment>, m: Machine): (m': Machine)
    requires Complete(w.pkt)
    decreases |os|
  {
    if os == [] then m else Play(t, w, os[1..], Step(t, At(w, os[0]), m))
  }

  ghost predicate AllTame(os: seq<Moment>) {
    forall k :: 0 <= k < |os| ==> Tame(os[k].gate)
  }

  lemma {:induction false} PlayAdd(t: TableTree, w: World, a: seq<Moment>, b: seq<Moment>, m: Machine)
    requires Complete(w.pkt)
    ensures Play(t, w, a + b, m) == Play(t, w, b, Play(t, w, a, m))
    decreases |a|
  {
    hide Step;
    if a == [] {
      assert a + b == b;
    } else {
      assert (a + b)[1..] == a[1..] + b;
      PlayAdd(t, w, a[1..], b, Step(t, At(w, a[0]), m));
    }
  }

  lemma PlayCons(t: TableTree, w: World, o: Moment, os: seq<Moment>, m: Machine)
    requires Complete(w.pkt)
    ensures Play(t, w, [], m) == m
    ensures Play(t, w, [o] + os, m) == Play(t, w, os, Step(t, At(w, o), m))
    ensures Tame(o.gate) && AllTame(os) ==> AllTame([o] + os)
  {
    hide Step, Tame;
    assert ([o] + os)[1..] == os;
  }

  /** Every end is come to: there are turns of the gates that lead there, on top of any stack. */
  lemma {:induction false} EndIsReached(
    t: TableTree, w: World, p: Packet, c: Chain, i: nat, depth: nat, limit: nat, stack: seq<Frame>, e: End)
    returns (os: seq<Moment>)
    requires Complete(w.pkt) && Extends(p, w.pkt) && i <= |c.rules|
    requires Clear(t, p, c, i, depth, limit) && e in EndsOf(t, p, c, i, depth, limit)
    ensures AllTame(os) && Play(t, w, os, Running(Frame(c, i), stack)) == AfterChain(e, stack)
    decreases limit + 1 - depth, |c.rules| - i, 1
  {
    hide Play, MatchRule, RuleHolds, RuleSure, Extends, Tame, Bounded, TrueRuling, IsRaw, Passed, Failed, EndsBy, ClearBy, AllTame;
    var m := Running(Frame(c, i), stack);
    var o := Failing();
    var rest: seq<Moment> := [];
    TameMoments(if e.Decided? then e.ruling else GoOn);
    TameMoments(GoOn);
    NoneTame();
    if i < |c.rules| {
      var r := c.rules[i];
      if !r.enabled || MatchRule(t.sets, p, r.matches).No? {
        rest := EndIsReached(t, w, p, c, i + 1, depth, limit, stack, e);
      } else if !Tractable(r) {
        o := Passing(e.ruling);
        UntractableEffect(At(w, o), r, e.ruling);
      } else {
        var passes := e in EndsBy(t, p, c, i, depth, limit, Passed(r));
        o := if passes then Passing(GoOn) else Failing();
        MomentEffects(w, r);
        rest := EffectReached(t, w, p, c, i, depth, limit, stack, if passes then Passed(r) else Failed(r), e);
      }
      if r.enabled {
        RuleAgrees(At(w, o), p, t.sets, r.matches);
        if MatchRule(t.sets, p, r.matches).Yes? {
          StepEffect(t, At(w, o), c, i, stack);
        }
      }
    }
    os := [o] + rest;
    PlayCons(t, w, o, rest, m);
    PlayCons(t, w, o, [], Step(t, At(w, o), m));
  }

  lemma NoneTame()
    ensures AllTame([])
  {}

  lemma UntractableEffect(x: World, r: Rule, v: Ruling)
    requires !Tractable(r) && x.gate == Passing(v).gate && x.raw == Passing(v).raw
    ensures Effect(x, r) == v
  {
    hide TrueRuling, Bounded;
    if !IsRaw(r) {
      UnboundedRuling(r.statements, v);
    }
  }

  lemma MomentEffects(w: World, r: Rule)
    requires Tractable(r)
    ensures Effect(At(w, Passing(GoOn)), r) == Passed(r) && Effect(At(w, Failing()), r) == Failed(r)
  {
    hide TrueRuling, Bounded;
  }

  lemma {:induction false} EffectReached(
    t: TableTree, w: World, p: Packet, c: Chain, i: nat, depth: nat, limit: nat, stack: seq<Frame>, v: Ruling, e: End)
    returns (os: seq<Moment>)
    requires Complete(w.pkt) && Extends(p, w.pkt) && i < |c.rules| && depth <= limit
    requires ClearBy(t, p, c, i, depth, limit, v) && e in EndsBy(t, p, c, i, depth, limit, v)
    ensures AllTame(os) && Play(t, w, os, Landed(t, c, i, stack, v)) == AfterChain(e, stack)
    decreases limit + 1 - depth, |c.rules| - i, 0
  {
    hide Play, Extends, EndsOf, Clear, AllTame;
    os := [];
    NoneTame();
    PlayCons(t, w, Failing(), [], Landed(t, c, i, stack, v));
    match v
    case Jump(target) =>
      var tc := FindChain(t.table.chains, target).value;
      var on := Frame(c, i + 1);
      if e.Decided? && e in EndsOf(t, p, tc, 0, depth + 1, limit) {
        os := EndIsReached(t, w, p, tc, 0, depth + 1, limit, stack + [on], e);
      } else {
        var a := EndIsReached(t, w, p, tc, 0, depth + 1, limit, stack + [on], Open);
        assert (stack + [on])[..|stack|] == stack;
        var b := EndIsReached(t, w, p, c, i + 1, depth, limit, stack, e);
        PlayAdd(t, w, a, b, Running(Frame(tc, 0), stack + [on]));
        os := a + b;
        TameAppend(a, b);
      }
    case Goto(target) =>
      os := EndIsReached(t, w, p, FindChain(t.table.chains, target).value, 0, depth + 1, limit, stack, e);
    case GoOn =>
      os := EndIsReached(t, w, p, c, i + 1, depth, limit, stack, e);
    case Return =>
    case _ =>
  }

  lemma TameAppend(a: seq<Moment>, b: seq<Moment>)
    requires AllTame(a) && AllTame(b)
    ensures AllTame(a + b)
  {}

  // A list of moments, then anything.
  function Endless(os: seq<Moment>): (o: nat -> Moment) {
    (k: nat) => if k < |os| then os[k] else Failing()
  }

  lemma {:induction false} EndlessRuns(t: TableTree, w: World, os: seq<Moment>, k: nat, m: Machine)
    requires Complete(w.pkt) && k <= |os|
    ensures Run(t, w, Endless(os), k, |os| - k, m) == Play(t, w, os[k..], m)
    decreases |os| - k
  {
    hide Step;
    if k < |os| {
      assert os[k..][1..] == os[k + 1..];
      EndlessRuns(t, w, os, k + 1, Step(t, At(w, os[k]), m));
    }
  }

  lemma EndlessTame(os: seq<Moment>)
    requires AllTame(os)
    ensures TameAlways(Endless(os))
  {
    hide Tame;
    TameMoments(GoOn);
  }

  // ── The whole simulation ──────────────────────────────────────────────────

  function RulingAt(b: BaseChain, e: End): (r: Option<Ruling>) {
    if e.Decided? then Some(e.ruling) else PolicyRuling(b.chain.policy)
  }

  /** How nft decides a packet on one base chain when the gates turn out so. */
  ghost predicate DecidesUnder(b: BaseChain, w: World, o: nat -> Moment, r: Ruling)
    requires Complete(w.pkt)
  {
    exists n: nat ::
      var m := Run(b.tree, w, o, 0, n, Running(Frame(b.chain, 0), []));
      m.Done? && RulingAt(b, m.end) == Some(r)
  }

  lemma DecidesUnderOnce(b: BaseChain, w: World, o: nat -> Moment, n: nat, r: Ruling)
    requires Complete(w.pkt) && DecidesUnder(b, w, o, r)
    requires Run(b.tree, w, o, 0, n, Running(Frame(b.chain, 0), [])).Done?
    ensures RulingAt(b, Run(b.tree, w, o, 0, n, Running(Frame(b.chain, 0), [])).end) == Some(r)
  {
    hide Run;
    var m := Running(Frame(b.chain, 0), []);
    var k: nat :| Run(b.tree, w, o, 0, k, m).Done? && RulingAt(b, Run(b.tree, w, o, 0, k, m).end) == Some(r);
    if k <= n {
      RunAdd(b.tree, w, o, 0, k, n - k, m);
      RunStaysDone(b.tree, w, o, k, n - k, Run(b.tree, w, o, 0, k, m));
    } else {
      RunAdd(b.tree, w, o, 0, n, k - n, m);
      RunStaysDone(b.tree, w, o, n, k - n, Run(b.tree, w, o, 0, n, m));
    }
  }

  function ChainEnds(b: BaseChain, p: Packet): (r: set<End>) {
    EndsOf(b.tree, p, b.chain, 0, 0, MAX_DEPTH)
  }

  predicate IsClear(b: BaseChain, p: Packet) {
    Clear(b.tree, p, b.chain, 0, 0, MAX_DEPTH)
  }

  /** Every completion of the packet, with gates that turn out anyhow at each step, is ruled so. */
  ghost predicate AlwaysRuled(b: BaseChain, p: Packet, r: Ruling) {
    forall w: World, o: nat -> Moment :: Completes(w, p) && TameAlways(o) ==> DecidesUnder(b, w, o, r)
  }

  predicate AllRuled(b: BaseChain, p: Packet, r: Ruling) {
    forall e :: e in ChainEnds(b, p) ==> RulingAt(b, e) == Some(r)
  }

  /** On a clear chain, nft always rules so exactly when every end is ruled so. */
  lemma AlwaysRuledExactly(b: BaseChain, p: Packet, r: Ruling)
    requires PacketFamily(p).Some? && IsClear(b, p)
    ensures AlwaysRuled(b, p, r) <==> AllRuled(b, p, r)
  {
    hide Run, Extends, EndsOf, Clear, DecidesUnder, TameAlways, Play, AllTame;
    if AllRuled(b, p, r) {
      forall w: World, o: nat -> Moment | Completes(w, p) && TameAlways(o) ensures DecidesUnder(b, w, o, r) {
        EndsRuled(b, p, w, o, r);
      }
    }
    if AlwaysRuled(b, p, r) {
      var w := SomeCompletion(p);
      forall e | e in ChainEnds(b, p) ensures RulingAt(b, e) == Some(r) {
        var os := EndIsReached(b.tree, w, p, b.chain, 0, 0, MAX_DEPTH, [], e);
        EndlessTame(os);
        EndlessRuns(b.tree, w, os, 0, Running(Frame(b.chain, 0), []));
        assert os[0..] == os;
        assert DecidesUnder(b, w, Endless(os), r);
        DecidesUnderOnce(b, w, Endless(os), |os|, r);
      }
    }
  }

  lemma EndsRuled(b: BaseChain, p: Packet, w: World, o: nat -> Moment, r: Ruling)
    requires Complete(w.pkt) && Extends(p, w.pkt) && TameAlways(o) && IsClear(b, p) && AllRuled(b, p, r)
    ensures DecidesUnder(b, w, o, r)
  {
    hide Run, Extends, EndsOf, Clear, TameAlways;
    assert !Torn(ChainEnds(b, p));
    var n, e := RunsToEnd(b.tree, w, o, 0, p, b.chain, 0, 0, MAX_DEPTH, []);
    assert Run(b.tree, w, o, 0, n, Running(Frame(b.chain, 0), [])) == Done(e);
  }

  /** When the simulator's answer is what nft decides, however the limits, quotas and rate bans turn out
      and whatever the packet's unspecified parts: if the chain is clear, exactly when every end the
      gates can lead to is ruled as the simulator rules. A certain walk by sure readings and plain
      rules is the case of a single end. */
  lemma AnswerHoldsExactly(trees: seq<TableTree>, hook: string, p: Packet)
    requires PacketFamily(p).Some?
    requires var s := BaseChains(trees, hook, p); s != [] && ValidPolicy(s[0].chain.policy)
    ensures var b := BaseChains(trees, hook, p)[0];
            var t := Simulated(trees, hook, p);
            && (IsClear(b, p) ==> (AlwaysRuled(b, p, t.final) <==> AllRuled(b, p, t.final)))
            && (!t.uncertain && GoesBySure(b, p) && GoesByPlain(b, p) ==> IsClear(b, p) && AllRuled(b, p, t.final))
  {
    hide Walk, EndsOf, Clear, Simulated, SurePath, PlainPath, AlwaysRuled, Candidates, SortChains;
    FirstDecides(trees, hook, p);
    var b := BaseChains(trees, hook, p)[0];
    if IsClear(b, p) {
      AlwaysRuledExactly(b, p, Simulated(trees, hook, p).final);
    }
    if !Simulated(trees, hook, p).uncertain && GoesBySure(b, p) && GoesByPlain(b, p) {
      PlainEnds(b.tree, p, b.chain, 0, 0, MAX_DEPTH);
    }
  }

  /** `limit …; drop` on a chain that drops goes by a rule that is not plain, yet its answer holds;
      `limit …; accept` there does not. */
  lemma LimitEnds(p: Packet)
    requires PacketFamily(p).Some?
    ensures var b := OneChain(OneRule([], [Statement("limit", map[]), Statement("drop", map[])]));
            !GoesByPlain(b, p) && IsClear(b, p) && AlwaysRuled(b, p, Drop)
    ensures var b := OneChain(OneRule([], [Statement("limit", map[]), Statement("accept", map[])]));
            IsClear(b, p) && !AlwaysRuled(b, p, Accept) && !AlwaysRuled(b, p, Drop)
  {
    LimitThen(p, "drop", Drop);
    LimitThen(p, "accept", Accept);
  }

  lemma LimitThen(p: Packet, key: string, v: Ruling)
    requires PacketFamily(p).Some? && ((key == "drop" && v == Drop) || (key == "accept" && v == Accept))
    ensures var b := OneChain(OneRule([], [Statement("limit", map[]), Statement(key, map[])]));
            && !GoesByPlain(b, p) && IsClear(b, p)
            && forall r :: AlwaysRuled(b, p, r) <==> v == r == Drop
  {
    hide AlwaysRuled, NoGateFirst, Bounded, TrueRuling, RuleVerdict, Passing, Failing;
    var b := OneChain(OneRule([], [Statement("limit", map[]), Statement(key, map[])]));
    var c := b.chain;
    LimitRuling(key, v);
    assert !IsRaw(c.rules[0]);
    assert MatchRule([], p, []).Yes? && RuleSure([], p, []);
    assert EndsOf(b.tree, p, c, 1, 0, MAX_DEPTH) == {Open} && Clear(b.tree, p, c, 1, 0, MAX_DEPTH);
    assert EndsOf(b.tree, p, c, 0, 0, MAX_DEPTH) == {Decided(v), Open};
    assert ClearBy(b.tree, p, c, 0, 0, MAX_DEPTH, v) && ClearBy(b.tree, p, c, 0, 0, MAX_DEPTH, GoOn);
    assert Decided(v) in ChainEnds(b, p) && Open in ChainEnds(b, p);
    forall r ensures AlwaysRuled(b, p, r) <==> v == r == Drop {
      AlwaysRuledExactly(b, p, r);
    }
  }

  lemma LimitRuling(key: string, v: Ruling)
    requires (key == "drop" && v == Drop) || (key == "accept" && v == Accept)
    ensures var sts := [Statement("limit", map[]), Statement(key, map[])];
            && Bounded(sts) && !NoGateFirst(sts) && RuleVerdict(sts) == v
            && TrueRuling(Passing(GoOn).gate, sts) == v && TrueRuling(Failing().gate, sts) == GoOn
  {
    var sts := [Statement("limit", map[]), Statement(key, map[])];
    var rest := [Statement(key, map[])];
    assert sts[1..] == rest && sts[0].key == "limit" && rest[0].key == key;
    assert IsThreshold("limit") && IsGate("limit") && !IsVerdict("limit");
    assert IsVerdict(key) && !IsThreshold(key) && !IsGate(key);
    assert RulingOf(rest[0]) == v;
    assert Bounded(rest) && RuleVerdict(rest) == v && TrueRuling(Passing(GoOn).gate, rest) == v;
  }
}
