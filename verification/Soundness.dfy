/** What the simulator's answer means: a machine with an explicit jump stack, run on a fully
    known packet, as the reference. */
module Soundness {
  import opened Wrappers
  import opened Addresses
  import opened Strings
  import opened Model
  import opened Matching
  import opened Simulation

  // ── Which rules can be read ───────────────────────────────────────────────

  /** Statements that may stop a rule or decide it by themselves. */
  predicate IsGate(key: string) {
    key == "vmap" || key == "limit" || key == "quota" || key == "ban.rate" || key == "queue" || key == "synproxy"
  }

  // What a rule whose conditions hold really does, statement by statement.
  function TrueRuling(gate: Statement -> Gate, sts: seq<Statement>): (r: Ruling) {
    if sts == [] then GoOn
    else if IsGate(sts[0].key) then
      (match gate(sts[0])
       case Ends(r) => r
       case Passes => TrueRuling(gate, sts[1..]))
    else if IsVerdict(sts[0].key) then RulingOf(sts[0])
    else TrueRuling(gate, sts[1..])
  }

  function Effect(w: World, r: Rule): (v: Ruling) {
    if IsRaw(r) then w.raw(r) else TrueRuling(w.gate, r.statements)
  }

  /** No gating statement comes before the verdict. */
  predicate NoGateFirst(sts: seq<Statement>) {
    if sts == [] then true
    else if IsGate(sts[0].key) then false
    else if IsVerdict(sts[0].key) then true
    else NoGateFirst(sts[1..])
  }

  predicate Plain(r: Rule) {
    !IsRaw(r) && NoGateFirst(r.statements)
  }

  function Opposite(v: Ruling): (r: Ruling)
    ensures r != v && Final(r)
  {
    if v == Drop then Accept else Drop
  }

  // A world in which every gate and every raw rule decides against the given ruling.
  function Contrary(w: World, v: Ruling): (x: World) {
    w.(gate := (st: Statement) => Ends(Opposite(v)), raw := (r: Rule) => Opposite(v))
  }

  /** The simulator reads what a rule does rightly in every world exactly when the rule is plain:
      a raw rule, or a limit, quota, verdict map, ban, queue or synproxy before the verdict, can
      always turn out otherwise. */
  lemma {:induction false} RulingReadExactly(w: World, sts: seq<Statement>, v: Ruling)
    ensures NoGateFirst(sts) ==> TrueRuling(w.gate, sts) == RuleVerdict(sts)
    ensures !NoGateFirst(sts) ==> TrueRuling(Contrary(w, v).gate, sts) == Opposite(v)
  {
    if sts != [] && !IsGate(sts[0].key) && !IsVerdict(sts[0].key) {
      RulingReadExactly(w, sts[1..], v);
    }
  }

  lemma EffectReadExactly(w: World, r: Rule, v: Ruling)
    ensures Plain(r) ==> Effect(w, r) == RuleVerdict(r.statements)
    ensures !Plain(r) ==> Effect(Contrary(w, v), r) == Opposite(v)
  {
    hide NoGateFirst, TrueRuling, RuleVerdict;
    RulingReadExactly(w, r.statements, v);
  }

  // ── What the walk goes by ─────────────────────────────────────────────────

  /** Every rule the walk took to match is plain. */
  predicate PlainPath(t: TableTree, p: Packet, c: Chain, i: nat, depth: nat, limit: nat)
    requires i <= |c.rules|
    decreases limit + 1 - depth, |c.rules| - i
  {
    if depth > limit || i == |c.rules| then true
    else
      var r := c.rules[i];
      if !r.enabled || !MatchRule(t.sets, p, r.matches).Yes? then PlainPath(t, p, c, i + 1, depth, limit)
      else
        && Plain(r)
        && match RuleVerdict(r.statements)
           case Jump(target) => (
             match FindChain(t.table.chains, target)
             case None => PlainPath(t, p, c, i + 1, depth, limit)
             case Some(tc) =>
               && PlainPath(t, p, tc, 0, depth + 1, limit)
               && (Walk(t, p, tc, 0, depth + 1, limit).end.Decided? || PlainPath(t, p, c, i + 1, depth, limit)))
           case Goto(target) => (
             match FindChain(t.table.chains, target)
             case None => true
             case Some(tc) => PlainPath(t, p, tc, 0, depth + 1, limit))
           case GoOn => PlainPath(t, p, c, i + 1, depth, limit)
           case _ => true
  }

  /** Every reading of conditions the walk went by is sure, up to the first rule it took to match
      that is not plain. */
  predicate SurePath(t: TableTree, p: Packet, c: Chain, i: nat, depth: nat, limit: nat)
    requires i <= |c.rules|
    decreases limit + 1 - depth, |c.rules| - i
  {
    if depth > limit || i == |c.rules| then true
    else
      var r := c.rules[i];
      if !r.enabled then SurePath(t, p, c, i + 1, depth, limit)
      else
        && RuleSure(t.sets, p, r.matches)
        && if !MatchRule(t.sets, p, r.matches).Yes? then SurePath(t, p, c, i + 1, depth, limit)
           else if !Plain(r) then true
           else
             match RuleVerdict(r.statements)
             case Jump(target) => (
               match FindChain(t.table.chains, target)
               case None => SurePath(t, p, c, i + 1, depth, limit)
               case Some(tc) =>
                 && SurePath(t, p, tc, 0, depth + 1, limit)
                 && (|| Walk(t, p, tc, 0, depth + 1, limit).end.Decided?
                     || !PlainPath(t, p, tc, 0, depth + 1, limit)
                     || SurePath(t, p, c, i + 1, depth, limit)))
             case Goto(target) => (
               match FindChain(t.table.chains, target)
               case None => true
               case Some(tc) => SurePath(t, p, tc, 0, depth + 1, limit))
             case GoOn => SurePath(t, p, c, i + 1, depth, limit)
             case _ => true
  }

  // ── The machine ───────────────────────────────────────────────────────────

  datatype Frame = Frame(chain: Chain, next: nat)

  /** Running a chain with the frames to come back to; or finished, by a verdict or by falling off
      the base chain; or at a jump to a chain that does not exist. */
  datatype Machine = Running(now: Frame, stack: seq<Frame>) | Done(end: End) | Stuck

  // End of chain or return: back to the caller, or off the base chain.
  function Pop(stack: seq<Frame>): (m: Machine) {
    if stack == [] then Done(Open) else Running(stack[|stack| - 1], stack[..|stack| - 1])
  }

  function Step(t: TableTree, w: World, m: Machine): (m': Machine)
    requires Complete(w.pkt)
  {
    if !m.Running? then m
    else
      var c, i := m.now.chain, m.now.next;
      if i >= |c.rules| then Pop(m.stack)
      else
        var r := c.rules[i];
        var on := Frame(c, i + 1);
        if !r.enabled || !RuleHolds(w, t.sets, r.matches) then Running(on, m.stack)
        else
          match Effect(w, r)
          case Jump(target) => (
            match FindChain(t.table.chains, target)
            case None => Stuck
            case Some(tc) => Running(Frame(tc, 0), m.stack + [on]))
          case Goto(target) => (
            match FindChain(t.table.chains, target)
            case None => Stuck
            case Some(tc) => Running(Frame(tc, 0), m.stack))
          case Return => Pop(m.stack)
          case GoOn => Running(on, m.stack)
          case v => Done(Decided(v))
  }

  function Steps(t: TableTree, w: World, m: Machine, n: nat): (m': Machine)
    requires Complete(w.pkt)
    decreases n
  {
    if n == 0 then m else Steps(t, w, Step(t, w, m), n - 1)
  }

  lemma {:induction false} StepsAdd(t: TableTree, w: World, m: Machine, a: nat, b: nat)
    requires Complete(w.pkt)
    ensures Steps(t, w, m, a + b) == Steps(t, w, Steps(t, w, m, a), b)
    decreases a
  {
    hide Step;
    if a != 0 {
      StepsAdd(t, w, Step(t, w, m), a - 1, b);
    }
  }

  lemma {:induction false} DoneStaysDone(t: TableTree, w: World, m: Machine, n: nat)
    requires Complete(w.pkt) && !m.Running?
    ensures Steps(t, w, m, n) == m
    decreases n
  {
    if n != 0 {
      DoneStaysDone(t, w, m, n - 1);
    }
  }

  /** The machine is deterministic: it can finish in one way only. */
  lemma OneResult(t: TableTree, w: World, m: Machine, a: nat, b: nat)
    requires Complete(w.pkt)
    requires Steps(t, w, m, a).Done? && Steps(t, w, m, b).Done?
    ensures Steps(t, w, m, a) == Steps(t, w, m, b)
  {
    if a <= b {
      StepsAdd(t, w, m, a, b - a);
      DoneStaysDone(t, w, Steps(t, w, m, a), b - a);
    } else {
      StepsAdd(t, w, m, b, a - b);
      DoneStaysDone(t, w, Steps(t, w, m, b), a - b);
    }
  }

  /** What the machine visits: each enabled rule it comes to, skipped or matched with what it does. */
  function Visits(t: TableTree, w: World, m: Machine): (e: seq<RuleTrace>)
    requires Complete(w.pkt)
  {
    if !m.Running? || m.now.next >= |m.now.chain.rules| || !m.now.chain.rules[m.now.next].enabled then []
    else
      var r := m.now.chain.rules[m.now.next];
      [RuleTrace(m.now.chain.name, m.now.next, if RuleHolds(w, t.sets, r.matches) then Matched(Effect(w, r)) else Skipped)]
  }

  function Log(t: TableTree, w: World, m: Machine, n: nat): (l: seq<RuleTrace>)
    requires Complete(w.pkt)
    decreases n
  {
    if n == 0 then [] else Visits(t, w, m) + Log(t, w, Step(t, w, m), n - 1)
  }

  lemma {:induction false} LogAdd(t: TableTree, w: World, m: Machine, a: nat, b: nat)
    requires Complete(w.pkt)
    ensures Log(t, w, m, a + b) == Log(t, w, m, a) + Log(t, w, Steps(t, w, m, a), b)
    decreases a
  {
    hide Step, Visits;
    if a == 0 {
      assert [] + Log(t, w, m, b) == Log(t, w, m, b);
    } else {
      LogAdd(t, w, Step(t, w, m), a - 1, b);
      Assoc(Visits(t, w, m), Log(t, w, Step(t, w, m), a - 1), Log(t, w, Steps(t, w, m, a), b));
    }
  }

  lemma LogStep(t: TableTree, w: World, m: Machine, n: nat)
    requires Complete(w.pkt)
    ensures Log(t, w, m, 0) == [] && Log(t, w, m, n + 1) == Visits(t, w, m) + Log(t, w, Step(t, w, m), n)
  {
    hide Step, Visits;
  }

  // Where the machine is once a chain has ended with that outcome.
  function AfterChain(e: End, stack: seq<Frame>): (m: Machine) {
    if e.Decided? then Done(e) else Pop(stack)
  }

  /** Walking a chain by recursion is running it with a stack: whenever the walk is certain and
      goes by sure readings and plain rules only, the machine, on any completion of the packet and
      under any meaning of what is not modelled, reaches the walk's outcome on top of any stack; and
      the walk's trace is exactly what it visits on the way. */
  lemma {:induction false} WalkIsMachine(t: TableTree, w: World, p: Packet, c: Chain, i: nat, depth: nat, limit: nat, stack: seq<Frame>)
    returns (n: nat)
    requires Complete(w.pkt) && Extends(p, w.pkt)
    requires i <= |c.rules|
    requires SurePath(t, p, c, i, depth, limit) && PlainPath(t, p, c, i, depth, limit)
    requires !Walk(t, p, c, i, depth, limit).uncertain
    ensures Steps(t, w, Running(Frame(c, i), stack), n) == AfterChain(Walk(t, p, c, i, depth, limit).end, stack)
    ensures Log(t, w, Running(Frame(c, i), stack), n) == Walk(t, p, c, i, depth, limit).trace
    decreases limit + 1 - depth, |c.rules| - i
  {
    hide Steps, Log, MatchRule, RuleHolds, RuleVerdict, Effect, RuleSure, Plain, Extends;
    var m := Running(Frame(c, i), stack);
    LogStep(t, w, m, 0);
    LogStep(t, w, Step(t, w, m), 0);
    if i == |c.rules| {
      OneStep(t, w, m);
      return 1;
    }
    var r := c.rules[i];
    if r.enabled {
      RuleFollowed(t, w, p, r);
    }
    var rest: nat;
    OneStep(t, w, m);
    if !r.enabled || !MatchRule(t.sets, p, r.matches).Yes? {
      rest := WalkIsMachine(t, w, p, c, i + 1, depth, limit, stack);
    } else {
      var v := RuleVerdict(r.statements);
      if v.Jump? {
        rest := JumpIsPush(t, w, p, c, i, depth, limit, stack);
      } else if v.Goto? {
        var tc := FindChain(t.table.chains, v.target).value;
        rest := WalkIsMachine(t, w, p, tc, 0, depth + 1, limit, stack);
      } else if v.GoOn? {
        rest := WalkIsMachine(t, w, p, c, i + 1, depth, limit, stack);
      } else {
        rest := 0;
        NoSteps(t, w, Step(t, w, m));
      }
    }
    n := 1 + rest;
    StepsAdd(t, w, m, 1, rest);
    LogStep(t, w, m, rest);
  }

  lemma {:induction false} JumpIsPush(t: TableTree, w: World, p: Packet, c: Chain, i: nat, depth: nat, limit: nat, stack: seq<Frame>)
    returns (n: nat)
    requires Complete(w.pkt) && Extends(p, w.pkt)
    requires i < |c.rules| && c.rules[i].enabled && depth <= limit
    requires SurePath(t, p, c, i, depth, limit) && PlainPath(t, p, c, i, depth, limit)
    requires !Walk(t, p, c, i, depth, limit).uncertain
    requires MatchRule(t.sets, p, c.rules[i].matches).Yes? && RuleVerdict(c.rules[i].statements).Jump?
    ensures var tc := FindChain(t.table.chains, RuleVerdict(c.rules[i].statements).target);
            && tc.Some?
            && Steps(t, w, Running(Frame(tc.value, 0), stack + [Frame(c, i + 1)]), n) ==
                 AfterChain(Walk(t, p, c, i, depth, limit).end, stack)
            && var v := Matched(RuleVerdict(c.rules[i].statements));
               Walk(t, p, c, i, depth, limit).trace ==
                 [RuleTrace(c.name, i, v)] + Log(t, w, Running(Frame(tc.value, 0), stack + [Frame(c, i + 1)]), n)
    decreases limit + 1 - depth, |c.rules| - i, 0
  {
    hide Steps, Log, MatchRule, RuleVerdict, Extends, Step, RuleSure, Plain;
    var tc := FindChain(t.table.chains, RuleVerdict(c.rules[i].statements).target).value;
    var on := Frame(c, i + 1);
    var m := Running(Frame(tc, 0), stack + [on]);
    var a := WalkIsMachine(t, w, p, tc, 0, depth + 1, limit, stack + [on]);
    if Walk(t, p, tc, 0, depth + 1, limit).end.Decided? {
      return a;
    }
    assert (stack + [on])[..|stack|] == stack;
    assert Steps(t, w, m, a) == Running(on, stack);
    var b := WalkIsMachine(t, w, p, c, i + 1, depth, limit, stack);
    StepsAdd(t, w, m, a, b);
    LogAdd(t, w, m, a, b);
    Assoc(
      [RuleTrace(c.name, i, Matched(RuleVerdict(c.rules[i].statements)))],
      Walk(t, p, tc, 0, depth + 1, limit).trace,
      Walk(t, p, c, i + 1, depth, limit).trace);
    n := a + b;
  }

  /** Once a certain walk goes by a rule that is not plain, there is a world, for every completion
      of the packet, in which the machine decides against any given ruling. */
  lemma {:induction false} PathMisleads(
    t: TableTree, w: World, v: Ruling, p: Packet, c: Chain, i: nat, depth: nat, limit: nat, stack: seq<Frame>)
    returns (n: nat)
    requires Complete(w.pkt) && Extends(p, w.pkt)
    requires i <= |c.rules|
    requires SurePath(t, p, c, i, depth, limit) && !PlainPath(t, p, c, i, depth, limit)
    requires !Walk(t, p, c, i, depth, limit).uncertain
    ensures Steps(t, Contrary(w, v), Running(Frame(c, i), stack), n) == Done(Decided(Opposite(v)))
    decreases limit + 1 - depth, |c.rules| - i
  {
    hide Steps, MatchRule, RuleHolds, RuleVerdict, Effect, RuleSure, Plain, Extends;
    var x := Contrary(w, v);
    var m := Running(Frame(c, i), stack);
    var r := c.rules[i];
    if r.enabled {
      RuleTwisted(t, w, v, p, r);
    }
    var rest: nat;
    OneStep(t, x, m);
    if !r.enabled || !MatchRule(t.sets, p, r.matches).Yes? {
      rest := PathMisleads(t, w, v, p, c, i + 1, depth, limit, stack);
    } else if !Plain(r) {
      rest := 0;
      NoSteps(t, x, Step(t, x, m));
    } else {
      var u := RuleVerdict(r.statements);
      if u.Jump? {
        rest := JumpMisleads(t, w, v, p, c, i, depth, limit, stack);
      } else if u.Goto? {
        rest := PathMisleads(t, w, v, p, FindChain(t.table.chains, u.target).value, 0, depth + 1, limit, stack);
      } else {
        rest := PathMisleads(t, w, v, p, c, i + 1, depth, limit, stack);
      }
    }
    n := 1 + rest;
    StepsAdd(t, x, m, 1, rest);
  }

  lemma {:induction false} JumpMisleads(
    t: TableTree, w: World, v: Ruling, p: Packet, c: Chain, i: nat, depth: nat, limit: nat, stack: seq<Frame>)
    returns (n: nat)
    requires Complete(w.pkt) && Extends(p, w.pkt)
    requires i < |c.rules| && c.rules[i].enabled && depth <= limit && Plain(c.rules[i])
    requires SurePath(t, p, c, i, depth, limit) && !PlainPath(t, p, c, i, depth, limit)
    requires !Walk(t, p, c, i, depth, limit).uncertain
    requires MatchRule(t.sets, p, c.rules[i].matches).Yes? && RuleVerdict(c.rules[i].statements).Jump?
    ensures var tc := FindChain(t.table.chains, RuleVerdict(c.rules[i].statements).target);
            && tc.Some?
            && Steps(t, Contrary(w, v), Running(Frame(tc.value, 0), stack + [Frame(c, i + 1)]), n) == Done(Decided(Opposite(v)))
    decreases limit + 1 - depth, |c.rules| - i, 0
  {
    hide Steps, MatchRule, RuleVerdict, Extends, Step, RuleSure, Plain;
    var x := Contrary(w, v);
    var tc := FindChain(t.table.chains, RuleVerdict(c.rules[i].statements).target).value;
    var on := Frame(c, i + 1);
    if !PlainPath(t, p, tc, 0, depth + 1, limit) {
      n := PathMisleads(t, w, v, p, tc, 0, depth + 1, limit, stack + [on]);
    } else {
      var m := Running(Frame(tc, 0), stack + [on]);
      var a := WalkIsMachine(t, x, p, tc, 0, depth + 1, limit, stack + [on]);
      assert (stack + [on])[..|stack|] == stack;
      assert Steps(t, x, m, a) == Running(on, stack);
      var b := PathMisleads(t, w, v, p, c, i + 1, depth, limit, stack);
      StepsAdd(t, x, m, a, b);
      n := a + b;
    }
  }

  lemma OneStep(t: TableTree, w: World, m: Machine)
    requires Complete(w.pkt)
    ensures Steps(t, w, m, 1) == Step(t, w, m)
  {
    hide Step;
    assert Steps(t, w, Step(t, w, m), 0) == Step(t, w, m);
  }

  lemma NoSteps(t: TableTree, w: World, m: Machine)
    requires Complete(w.pkt)
    ensures Steps(t, w, m, 0) == m
  {}

  // A definite reading of a rule: the conditions, and what the rule does.
  lemma RuleFollowed(t: TableTree, w: World, p: Packet, r: Rule)
    requires Complete(w.pkt) && Extends(p, w.pkt) && RuleSure(t.sets, p, r.matches)
    ensures !MatchRule(t.sets, p, r.matches).Unknown? ==> (MatchRule(t.sets, p, r.matches).Yes? <==> RuleHolds(w, t.sets, r.matches))
    ensures Plain(r) ==> Effect(w, r) == RuleVerdict(r.statements)
  {
    hide MatchRule, RuleHolds, RuleSure, Effect, Plain;
    EffectReadExactly(w, r, Accept);
    if !MatchRule(t.sets, p, r.matches).Unknown? {
      RuleAgrees(w, p, t.sets, r.matches);
    }
  }

  lemma RuleTwisted(t: TableTree, w: World, v: Ruling, p: Packet, r: Rule)
    requires Complete(w.pkt) && Extends(p, w.pkt) && RuleSure(t.sets, p, r.matches)
    ensures var x := Contrary(w, v);
            && (!MatchRule(t.sets, p, r.matches).Unknown? ==> (MatchRule(t.sets, p, r.matches).Yes? <==> RuleHolds(x, t.sets, r.matches)))
            && Effect(x, r) == if Plain(r) then RuleVerdict(r.statements) else Opposite(v)
  {
    hide MatchRule, RuleHolds, RuleSure, Effect, Plain;
    RuleFollowed(t, Contrary(w, v), p, r);
    EffectReadExactly(w, r, v);
  }

  // ── The whole simulation ──────────────────────────────────────────────────

  /** The family of the packet is known, and the completion is of that family. */
  predicate Completes(w: World, p: Packet) {
    Complete(w.pkt) && Extends(p, w.pkt) && PacketFamily(p).Some? && PacketFamily(p) == PacketFamily(w.pkt)
  }

  lemma {:induction false} SameCandidates(trees: seq<TableTree>, hook: string, p: Packet, q: Packet)
    requires PacketFamily(p) == PacketFamily(q)
    ensures Candidates(trees, hook, p) == Candidates(trees, hook, q)
  {
    hide HookedChains;
    if trees != [] {
      SameCandidates(trees[1..], hook, p, q);
    }
  }

  // Every candidate is a chain of the table it is paired with.
  lemma {:induction false} CandidateInTable(trees: seq<TableTree>, hook: string, p: Packet, b: BaseChain)
    requires b in Candidates(trees, hook, p)
    ensures b.tree in trees && b.chain in b.tree.table.chains && OnHook(b.chain, hook)
  {
    if TableHandlesPacket(trees[0].table.family, p) && b in HookedChains(trees[0], trees[0].table.chains, hook) {
      HookedInTable(trees[0], trees[0].table.chains, hook, b);
    } else {
      CandidateInTable(trees[1..], hook, p, b);
    }
  }

  lemma {:induction false} HookedInTable(t: TableTree, chains: seq<Chain>, hook: string, b: BaseChain)
    requires b in HookedChains(t, chains, hook)
    ensures b.tree == t && b.chain in chains && OnHook(b.chain, hook)
  {
    if !(OnHook(chains[0], hook) && b == BaseChain(t, chains[0])) {
      HookedInTable(t, chains[1..], hook, b);
    }
  }

  /** How nft decides a complete packet on one base chain: the machine's verdict, or the policy. */
  ghost predicate Decides(b: BaseChain, w: World, r: Ruling)
    requires Complete(w.pkt)
  {
    exists n: nat ::
      var m := Steps(b.tree, w, Running(Frame(b.chain, 0), []), n);
      m.Done? && (if m.end.Decided? then m.end.ruling == r else PolicyRuling(b.chain.policy) == Some(r))
  }

  lemma DecidesOnce(b: BaseChain, w: World, r: Ruling, r': Ruling)
    requires Complete(w.pkt) && Decides(b, w, r) && Decides(b, w, r')
    ensures r == r'
  {
    var m := Running(Frame(b.chain, 0), []);
    var n: nat :| Steps(b.tree, w, m, n).Done?
      && (if Steps(b.tree, w, m, n).end.Decided? then Steps(b.tree, w, m, n).end.ruling == r else PolicyRuling(b.chain.policy) == Some(r));
    var n': nat :| Steps(b.tree, w, m, n').Done?
      && (if Steps(b.tree, w, m, n').end.Decided? then Steps(b.tree, w, m, n').end.ruling == r' else PolicyRuling(b.chain.policy) == Some(r'));
    OneResult(b.tree, w, m, n, n');
  }

  /** Nothing the simulator does not know can change the ruling. */
  ghost predicate TrueInEveryWorld(b: BaseChain, p: Packet, r: Ruling) {
    forall w: World :: Completes(w, p) ==> Decides(b, w, r)
  }

  predicate GoesBySure(b: BaseChain, p: Packet) {
    SurePath(b.tree, p, b.chain, 0, 0, MAX_DEPTH)
  }

  predicate GoesByPlain(b: BaseChain, p: Packet) {
    PlainPath(b.tree, p, b.chain, 0, 0, MAX_DEPTH)
  }

  function ChainWalk(b: BaseChain, p: Packet): (w: Walked) {
    Walk(b.tree, p, b.chain, 0, 0, MAX_DEPTH)
  }

  /** On one base chain and in one world: a certain answer that went by sure readings and plain
      rules holds. */
  lemma ChainAnswerHolds(b: BaseChain, p: Packet, w: World)
    requires Complete(w.pkt) && Extends(p, w.pkt)
    requires !ChainWalk(b, p).uncertain && ChainRuling(b, ChainWalk(b, p)).Some?
    requires GoesBySure(b, p) && GoesByPlain(b, p)
    ensures Decides(b, w, ChainRuling(b, ChainWalk(b, p)).value)
    ensures exists n :: Steps(b.tree, w, Running(Frame(b.chain, 0), []), n).Done? &&
              Log(b.tree, w, Running(Frame(b.chain, 0), []), n) == ChainWalk(b, p).trace
  {
    hide Steps, Walk, SurePath, PlainPath, Extends, Log;
    var n := WalkIsMachine(b.tree, w, p, b.chain, 0, 0, MAX_DEPTH, []);
    assert Steps(b.tree, w, Running(Frame(b.chain, 0), []), n).Done?;
  }

  /** And one that went by a rule that is not plain fails in the contrary world. */
  lemma ChainAnswerFails(b: BaseChain, p: Packet, w: World, r: Ruling)
    requires Complete(w.pkt) && Extends(p, w.pkt)
    requires !ChainWalk(b, p).uncertain && GoesBySure(b, p) && !GoesByPlain(b, p)
    ensures Decides(b, Contrary(w, r), Opposite(r)) && !Decides(b, Contrary(w, r), r)
  {
    hide Steps, Walk, SurePath, PlainPath, Extends, Decides;
    var x := Contrary(w, r);
    var n := PathMisleads(b.tree, w, r, p, b.chain, 0, 0, MAX_DEPTH, []);
    ReachedDecides(b, x, n, Opposite(r));
    if Decides(b, x, r) {
      DecidesOnce(b, x, r, Opposite(r));
      assert false;
    }
  }

  lemma ReachedDecides(b: BaseChain, w: World, n: nat, r: Ruling)
    requires Complete(w.pkt) && Steps(b.tree, w, Running(Frame(b.chain, 0), []), n) == Done(Decided(r))
    ensures Decides(b, w, r)
  {}

  // Some world completes the packet.
  lemma SomeCompletion(p: Packet) returns (w: World)
    requires PacketFamily(p).Some?
    ensures Completes(w, p)
  {
    var some := Some(Addr(PacketFamily(p).value, 0));
    var q := p.(src := if p.src.Some? then p.src else some, dst := if p.dst.Some? then p.dst else some);
    w := World(q, m => false, (l, a) => false, (s, a) => false, (s, n) => false, st => Passes, r => GoOn);
  }

  /** When a definite answer is the truth. The first base chain in priority order decides, the same
      for every completion of the packet; and when the walk went by sure readings, its answer holds
      for every completion and every meaning of what the simulator does not model exactly when
      every rule it took to match is plain. Without a base chain the packet goes through. */
  lemma DefiniteAnswerIsTrue(trees: seq<TableTree>, hook: string, p: Packet)
    requires PacketFamily(p).Some? && !Simulated(trees, hook, p).uncertain
    requires var s := BaseChains(trees, hook, p); s != [] ==> ValidPolicy(s[0].chain.policy)
    ensures var s := BaseChains(trees, hook, p);
            && (forall w: World :: Completes(w, p) ==> BaseChains(trees, hook, w.pkt) == s)
            && if s == [] then Simulated(trees, hook, p) == Trace([], Accept, false)
               else
                 && RunsFirst(s[0], Candidates(trees, hook, p))
                 && s[0].tree in trees && s[0].chain in s[0].tree.table.chains && OnHook(s[0].chain, hook)
                 && (GoesBySure(s[0], p) ==> (TrueInEveryWorld(s[0], p, Simulated(trees, hook, p).final) <==> GoesByPlain(s[0], p)))
  {
    hide Candidates, Walk, SurePath, PlainPath, Simulated, RunsFirst, Extends, Decides, GoesBySure, GoesByPlain, SortChains;
    var s := BaseChains(trees, hook, p);
    forall w: World | Completes(w, p) ensures BaseChains(trees, hook, w.pkt) == s {
      SameCandidates(trees, hook, p, w.pkt);
    }
    FirstIsHooked(trees, hook, p);
    FirstDecides(trees, hook, p);
    if s != [] && GoesBySure(s[0], p) {
      var b, final := s[0], Simulated(trees, hook, p).final;
      if GoesByPlain(b, p) {
        forall w: World | Completes(w, p) ensures Decides(b, w, final) {
          ChainAnswerHolds(b, p, w);
        }
      } else {
        var w := SomeCompletion(p);
        ChainAnswerFails(b, p, w, final);
        assert Completes(Contrary(w, final), p);
      }
    }
  }

  lemma FirstIsHooked(trees: seq<TableTree>, hook: string, p: Packet)
    ensures var s := BaseChains(trees, hook, p);
            if s == [] then Candidates(trees, hook, p) == []
            else
              && RunsFirst(s[0], Candidates(trees, hook, p))
              && s[0].tree in trees && s[0].chain in s[0].tree.table.chains && OnHook(s[0].chain, hook)
  {
    hide Candidates, SortChains;
    SortedHeadRunsFirst(Candidates(trees, hook, p));
    if BaseChains(trees, hook, p) != [] {
      CandidateInTable(trees, hook, p, BaseChains(trees, hook, p)[0]);
    }
  }

  // The answer is the first base chain's, when its policy is valid.
  lemma FirstDecides(trees: seq<TableTree>, hook: string, p: Packet)
    requires var s := BaseChains(trees, hook, p); s != [] ==> ValidPolicy(s[0].chain.policy)
    ensures var s := BaseChains(trees, hook, p);
            if s == [] then Simulated(trees, hook, p) == Trace([], Accept, false)
            else
              var k := ChainWalk(s[0], p);
              && ChainRuling(s[0], k).Some?
              && Simulated(trees, hook, p) ==
                   Trace([ChainTrace(s[0].tree.table.name, s[0].chain.name, k.trace)], ChainRuling(s[0], k).value, k.uncertain)
  {
    hide Candidates, Walk, SortChains;
  }

  // ── Two definite answers that are wrong ───────────────────────────────────

  // One table with one input chain that drops what its only rule does not accept.
  function OneRule(ms: seq<Match>, sts: seq<Statement>): (t: TableTree) {
    TableTree(
      Table("inet", "filter", "", [], [
        Chain("input", "base", "input", "filter", Keyword("filter"), "drop", "", [Rule("", true, "", "", ms, sts)])]),
      [], [])
  }

  function OneChain(t: TableTree): (b: BaseChain)
    requires t.table.chains != []
  {
    BaseChain(t, t.table.chains[0])
  }

  lemma OneRuleRuns(ms: seq<Match>, sts: seq<Statement>, p: Packet)
    ensures var t := OneRule(ms, sts);
            var k := ChainWalk(OneChain(t), p);
            && BaseChains([t], "input", p) == [OneChain(t)]
            && ChainRuling(OneChain(t), k).Some?
            && Simulated([t], "input", p) ==
                 Trace([ChainTrace("filter", "input", k.trace)], ChainRuling(OneChain(t), k).value, k.uncertain)
  {
    hide Walk;
    var t := OneRule(ms, sts);
    assert t.table.chains[1..] == [] && [t][1..] == [];
    assert HookedChains(t, t.table.chains, "input") == [OneChain(t)];
    assert Candidates([t], "input", p) == [OneChain(t)];
    assert [OneChain(t)][1..] == [] && SortChains([]) == [];
    FirstDecides([t], "input", p);
  }

  /** `limit …; accept` on a chain that drops: the simulator answers accept, and is certain of it,
      for every packet; over the limit the packet is dropped. */
  lemma LimitMisleads(p: Packet, w: World)
    requires Completes(w, p)
    ensures var t := OneRule([], [Statement("limit", map[]), Statement("accept", map[])]);
            var over := w.(gate := (st: Statement) => Ends(GoOn));
            && !Simulated([t], "input", p).uncertain && Simulated([t], "input", p).final == Accept
            && GoesBySure(OneChain(t), p) && !GoesByPlain(OneChain(t), p)
            && Decides(OneChain(t), over, Drop) && !Decides(OneChain(t), over, Accept)
  {
    var sts := [Statement("limit", map[]), Statement("accept", map[])];
    var t := OneRule([], sts);
    var b := OneChain(t);
    var r := b.chain.rules[0];
    var over := w.(gate := (st: Statement) => Ends(GoOn));
    assert sts[1..] == [Statement("accept", map[])];
    assert RuleVerdict(sts) == Accept && !NoGateFirst(sts);
    assert ChainWalk(b, p).end == Decided(Accept) && !ChainWalk(b, p).uncertain;
    OneRuleRuns([], sts, p);
    assert TrimSpace("") == "";
    assert Effect(over, r) == GoOn;
    FallsOff(b, over);
    if Decides(b, over, Accept) {
      DecidesOnce(b, over, Accept, Drop);
      assert false;
    }
  }

  // A base chain of one rule that does not apply, or goes on, leaves the packet to the policy.
  lemma FallsOff(b: BaseChain, w: World)
    requires Complete(w.pkt) && |b.chain.rules| == 1 && PolicyRuling(b.chain.policy) == Some(Drop)
    requires Effect(w, b.chain.rules[0]) == GoOn
    ensures Decides(b, w, Drop)
  {
    hide Effect, RuleHolds;
    var m := Running(Frame(b.chain, 0), []);
    OneStep(b.tree, w, m);
    OneStep(b.tree, w, Running(Frame(b.chain, 1), []));
    StepsAdd(b.tree, w, m, 1, 1);
    assert Steps(b.tree, w, m, 2) == Done(Open);
  }

  function ByName(): (m: Match) {
    Match("tcp.dport", "==", [Token("http", Opaque("http"))], None)
  }

  // The condition reads as failing, though the name may stand for the packet's port.
  lemma ByNameRead(p: Packet, w: World)
    requires Completes(w, p) && p.proto == "tcp" && p.dport != 0
    ensures MatchRule([], p, [ByName()]).No? && !RuleSure([], p, [ByName()])
    ensures RuleHolds(w.(service := (s: string, n: nat) => true), [], [ByName()])
  {
    var m := ByName();
    var tok := m.value[0];
    var named := w.(service := (s: string, n: nat) => true);
    assert FieldOf(m.key) == Port("tcp", false);
    assert [m][1..] == [];
    assert MatchOne([], p, m) == No;
    assert tok in m.value && !IsNumeric(tok.lit);
    assert TruePortHit(named.service, tok, named.pkt.dport);
  }

  /** A port by name: for every TCP packet with a port the simulator answers drop, and is certain
      of it; where the name stands for that port the packet is accepted. So the sure readings
      cannot be left out of the theorem above. */
  lemma NamedPortMisleads(p: Packet, w: World)
    requires Completes(w, p) && p.proto == "tcp" && p.dport != 0
    ensures var t := OneRule([ByName()], [Statement("accept", map[])]);
            var named := w.(service := (s: string, n: nat) => true);
            && !Simulated([t], "input", p).uncertain && Simulated([t], "input", p).final == Drop
            && !GoesBySure(OneChain(t), p) && GoesByPlain(OneChain(t), p)
            && Decides(OneChain(t), named, Accept) && !Decides(OneChain(t), named, Drop)
  {
    hide MatchRule, RuleSure, RuleHolds, ByName, Simulated, Extends, Decides;
    var sts := [Statement("accept", map[])];
    var t := OneRule([ByName()], sts);
    var b := OneChain(t);
    var named := w.(service := (s: string, n: nat) => true);
    ByNameRead(p, w);
    assert ChainWalk(b, p).end == Open && !ChainWalk(b, p).uncertain;
    OneRuleRuns([ByName()], sts, p);
    assert TrimSpace("") == "";
    assert Effect(named, b.chain.rules[0]) == Accept;
    Accepts(b, named);
    if Decides(b, named, Drop) {
      DecidesOnce(b, named, Drop, Accept);
      assert false;
    }
  }

  lemma Accepts(b: BaseChain, w: World)
    requires Complete(w.pkt) && |b.chain.rules| == 1 && b.chain.rules[0].enabled
    requires RuleHolds(w, b.tree.sets, b.chain.rules[0].matches) && Effect(w, b.chain.rules[0]) == Accept
    ensures Decides(b, w, Accept)
  {
    hide Effect, RuleHolds;
    var m := Running(Frame(b.chain, 0), []);
    OneStep(b.tree, w, m);
    assert Steps(b.tree, w, m, 1) == Done(Decided(Accept));
  }

  // ── More information never flips a definite answer ────────────────────────

  lemma {:induction false} WalkMonotone(t: TableTree, p: Packet, q: Packet, c: Chain, i: nat, depth: nat, limit: nat)
    requires Extends(p, q) && i <= |c.rules|
    requires !Walk(t, p, c, i, depth, limit).uncertain
    ensures Walk(t, q, c, i, depth, limit) == Walk(t, p, c, i, depth, limit)
    decreases limit + 1 - depth, |c.rules| - i
  {
    hide MatchRule, RuleVerdict, Extends;
    if depth <= limit && i < |c.rules| {
      var r := c.rules[i];
      if !r.enabled {
        WalkMonotone(t, p, q, c, i + 1, depth, limit);
      } else {
        RuleMonotone(p, q, t.sets, r.matches);
        if MatchRule(t.sets, p, r.matches).No? {
          WalkMonotone(t, p, q, c, i + 1, depth, limit);
        } else {
          var v := RuleVerdict(r.statements);
          if v.Jump? || v.Goto? {
            var tc := FindChain(t.table.chains, v.target).value;
            WalkMonotone(t, p, q, tc, 0, depth + 1, limit);
            if v.Jump? && !Walk(t, p, tc, 0, depth + 1, limit).end.Decided? {
              WalkMonotone(t, p, q, c, i + 1, depth, limit);
            }
          } else if v.GoOn? {
            WalkMonotone(t, p, q, c, i + 1, depth, limit);
          }
        }
      }
    }
  }

  lemma {:induction false} ChainsMonotone(chains: seq<BaseChain>, p: Packet, q: Packet)
    requires Extends(p, q) && !RunChains(chains, p).uncertain
    ensures RunChains(chains, q) == RunChains(chains, p)
    decreases |chains|
  {
    hide Walk, Extends;
    if chains != [] {
      var b := chains[0];
      WalkMonotone(b.tree, p, q, b.chain, 0, 0, MAX_DEPTH);
      if ChainRuling(b, Walk(b.tree, p, b.chain, 0, 0, MAX_DEPTH)).None? {
        ChainsMonotone(chains[1..], p, q);
      }
    }
  }

  /** Specifying more of a packet of known family never changes a definite answer, nor a single
      line of its trace: this holds for every model, readable or not. */
  lemma MoreInformationKeepsTrace(trees: seq<TableTree>, hook: string, p: Packet, q: Packet)
    requires Extends(p, q) && PacketFamily(p).Some? && PacketFamily(p) == PacketFamily(q)
    requires !Simulated(trees, hook, p).uncertain
    ensures Simulated(trees, hook, q) == Simulated(trees, hook, p)
  {
    hide Extends;
    SameCandidates(trees, hook, p, q);
    ChainsMonotone(BaseChains(trees, hook, p), p, q);
  }

  // ── The depth limit ───────────────────────────────────────────────────────

  /** The ranks fall along every jump and goto an enabled rule can take. */
  ghost predicate Ranked(t: TableTree, rank: map<string, nat>) {
    && (forall c :: c in t.table.chains ==> c.name in rank)
    && (forall c, r :: c in t.table.chains && r in c.rules && r.enabled ==>
          var v := RuleVerdict(r.statements);
          (v.Jump? || v.Goto?) && FindChain(t.table.chains, v.target).Some? ==> v.target in rank && rank[v.target] < rank[c.name])
  }

  /** Deeper than 16 levels nothing is decided, and the answer says so. */
  lemma CutOff(t: TableTree, p: Packet, c: Chain, i: nat, depth: nat)
    requires i <= |c.rules|
    ensures depth > 16 ==> Walk(t, p, c, i, depth, MAX_DEPTH) == Walked(Open, true, [])
    ensures depth <= 16 && i == |c.rules| ==> Walk(t, p, c, i, depth, MAX_DEPTH) == Walked(Open, false, [])
  {}

  /** On an acyclic chain graph nested at most 16 deep the cut-off never matters: any higher limit
      gives the same walk, trace and flag included. */
  lemma {:induction false} LimitNeverReached(t: TableTree, p: Packet, c: Chain, i: nat, depth: nat, limit: nat, rank: map<string, nat>)
    requires Ranked(t, rank) && c in t.table.chains && i <= |c.rules|
    requires rank[c.name] + depth <= 16 <= limit
    ensures Walk(t, p, c, i, depth, limit) == Walk(t, p, c, i, depth, MAX_DEPTH)
    decreases MAX_DEPTH + 1 - depth, |c.rules| - i
  {
    hide MatchRule, RuleVerdict;
    if i < |c.rules| {
      var r := c.rules[i];
      LimitNeverReached(t, p, c, i + 1, depth, limit, rank);
      var v := RuleVerdict(r.statements);
      if r.enabled && (v.Jump? || v.Goto?) {
        assert r in c.rules;
        var tc := FindChain(t.table.chains, v.target);
        if tc.Some? {
          LimitNeverReached(t, p, tc.value, 0, depth + 1, limit, rank);
        }
      }
    }
  }

  // A walk that saw no unknown rule and no missing chain.
  ghost predicate NothingUnknown(t: TableTree, p: Packet) {
    forall c, r :: c in t.table.chains && r in c.rules && r.enabled ==>
      && !MatchRule(t.sets, p, r.matches).Unknown?
      && var v := RuleVerdict(r.statements);
         v.Jump? || v.Goto? ==> FindChain(t.table.chains, v.target).Some?
  }

  /** There, the flag is raised only by something unknown: with every condition known and every
      target present, the answer is always definite. */
  lemma {:induction false} AcyclicIsDefinite(t: TableTree, p: Packet, c: Chain, i: nat, depth: nat, rank: map<string, nat>)
    requires Ranked(t, rank) && NothingUnknown(t, p) && c in t.table.chains && i <= |c.rules|
    requires rank[c.name] + depth <= 16
    ensures !Walk(t, p, c, i, depth, MAX_DEPTH).uncertain
    decreases MAX_DEPTH + 1 - depth, |c.rules| - i
  {
    hide MatchRule, RuleVerdict;
    if i < |c.rules| {
      var r := c.rules[i];
      AcyclicIsDefinite(t, p, c, i + 1, depth, rank);
      var v := RuleVerdict(r.statements);
      if r.enabled {
        assert r in c.rules;
        if v.Jump? || v.Goto? {
          AcyclicIsDefinite(t, p, FindChain(t.table.chains, v.target).value, 0, depth + 1, rank);
        }
      }
    }
  }

  /** From the i-th rule on, the chain goes by rules that do not apply or do not decide until it
      jumps or goes to a chain of the set. */
  ghost predicate Enters(t: TableTree, p: Packet, c: Chain, i: nat, cycle: set<Chain>)
    decreases |c.rules| - i
  {
    && i < |c.rules|
    && var r := c.rules[i];
       if !r.enabled || !MatchRule(t.sets, p, r.matches).Yes? then Enters(t, p, c, i + 1, cycle)
       else
         match RuleVerdict(r.statements)
         case Jump(target) => FindChain(t.table.chains, target).Some? && FindChain(t.table.chains, target).value in cycle
         case Goto(target) => FindChain(t.table.chains, target).Some? && FindChain(t.table.chains, target).value in cycle
         case GoOn => Enters(t, p, c, i + 1, cycle)
         case _ => false
  }

  /** Chains that always lead back into each other. */
  ghost predicate IsCycle(t: TableTree, p: Packet, cycle: set<Chain>) {
    forall c :: c in cycle ==> Enters(t, p, c, 0, cycle)
  }

  /** A cyclic graph still terminates: in any table, a walk that runs into a cycle bails at the limit
      and says so, from whatever depth and with whatever limit. */
  lemma {:induction false} LoopBails(t: TableTree, p: Packet, c: Chain, i: nat, depth: nat, limit: nat, cycle: set<Chain>)
    requires IsCycle(t, p, cycle) && Enters(t, p, c, i, cycle)
    ensures Walk(t, p, c, i, depth, limit).uncertain
    decreases limit + 1 - depth, |c.rules| - i
  {
    hide MatchRule, RuleVerdict;
    if depth <= limit {
      var r := c.rules[i];
      var v := RuleVerdict(r.statements);
      if r.enabled && MatchRule(t.sets, p, r.matches).Yes? && (v.Jump? || v.Goto?) {
        LoopBails(t, p, FindChain(t.table.chains, v.target).value, 0, depth + 1, limit, cycle);
      } else {
        LoopBails(t, p, c, i + 1, depth, limit, cycle);
      }
    }
  }

  // The self-jump `loop: jump loop`.
  function LoopChain(): (c: Chain) {
    Chain("loop", "regular", "", "", Absolute(0), "", "", [
      Rule("", true, "", "", [], [Statement("jump", map["target" := "loop"])])])
  }

  /** A chain that only jumps to itself decides nothing. */
  lemma {:induction false} SelfJumpBails(t: TableTree, p: Packet, depth: nat, limit: nat)
    requires t.table.chains == [LoopChain()] && depth <= limit + 1
    ensures Walk(t, p, LoopChain(), 0, depth, limit).uncertain && Walk(t, p, LoopChain(), 0, depth, limit).end == Open
    decreases limit + 1 - depth
  {
    if depth <= limit {
      var c := LoopChain();
      SelfJumpBails(t, p, depth + 1, limit);
      assert TrimSpace("loop") == "loop" by { Untrimmed("loop"); }
      assert RuleVerdict(c.rules[0].statements) == Jump("loop");
      assert FindChain(t.table.chains, "loop") == Some(c);
    }
  }

  lemma Untrimmed(s: string)
    requires s != "" && !IsSpace(s[0]) && !IsSpace(s[|s| - 1])
    ensures TrimSpace(s) == s
  {}
}
