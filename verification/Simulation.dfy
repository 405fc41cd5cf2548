/** The packet simulator (internal/simulate/simulate.go): base chains in priority order, rules
    top to bottom, jump and goto followed to a depth limit, and a flag for anything that could
    not be decided. */
module Simulation {
  import opened Wrappers
  import opened Addresses
  import opened Strings
  import opened Model
  import opened Matching

  const MAX_DEPTH := 16

  // ── What a matched rule does ──────────────────────────────────────────────

  predicate IsVerdict(key: string) {
    key == "accept" || key == "drop" || key == "reject" || key == "return" || key == "continue" || key == "jump" || key == "goto"
  }

  function JumpTarget(st: Statement): (t: string) {
    TrimSpace(Param(st, "target"))
  }

  function RulingOf(st: Statement): (r: Ruling) {
    if st.key == "accept" then Accept
    else if st.key == "drop" then Drop
    else if st.key == "reject" then Reject
    else if st.key == "return" then Return
    else if st.key == "jump" then Jump(JumpTarget(st))
    else if st.key == "goto" then Goto(JumpTarget(st))
    else GoOn
  }

  // ruleVerdict: the first verdict statement, if any; everything else is passed over.
  function RuleVerdict(sts: seq<Statement>): (r: Ruling) {
    if sts == [] then GoOn
    else if IsVerdict(sts[0].key) then RulingOf(sts[0])
    else RuleVerdict(sts[1..])
  }

  // findChain: the first chain of that name.
  function FindChain(chains: seq<Chain>, name: string): (c: Option<Chain>)
    ensures c.Some? ==> c.value in chains && c.value.name == name
  {
    if chains == [] then None
    else if chains[0].name == name then Some(chains[0])
    else FindChain(chains[1..], name)
  }

  // ── The walk ──────────────────────────────────────────────────────────────

  datatype Outcome = Matched(ruling: Ruling) | Skipped | Indeterminate

  /** One rule as the packet saw it: its chain, its place there, and what became of it. */
  datatype RuleTrace = RuleTrace(chain: string, index: nat, outcome: Outcome)

  /** How a chain ended: a final verdict, or nothing decided (fell through or returned). */
  datatype End = Decided(ruling: Ruling) | Open

  datatype Walked = Walked(end: End, uncertain: bool, trace: seq<RuleTrace>)

  predicate Final(r: Ruling) {
    r.Accept? || r.Drop? || r.Reject?
  }

  function Then(first: seq<RuleTrace>, unsure: bool, rest: Walked): (w: Walked) {
    Walked(rest.end, unsure || rest.uncertain, first + rest.trace)
  }

  /** The rules of a chain from the i-th on, at a nesting depth, under a depth limit. */
  function Walk(t: TableTree, p: Packet, c: Chain, i: nat, depth: nat, limit: nat): (w: Walked)
    requires i <= |c.rules|
    decreases limit + 1 - depth, |c.rules| - i
  {
    if depth > limit then Walked(Open, true, [])
    else if i == |c.rules| then Walked(Open, false, [])
    else
      var r := c.rules[i];
      if !r.enabled then Walk(t, p, c, i + 1, depth, limit)
      else
        match MatchRule(t.sets, p, r.matches)
        case No => Then([RuleTrace(c.name, i, Skipped)], false, Walk(t, p, c, i + 1, depth, limit))
        case Unknown => Then([RuleTrace(c.name, i, Indeterminate)], true, Walk(t, p, c, i + 1, depth, limit))
        case Yes =>
          var v := RuleVerdict(r.statements);
          var here := [RuleTrace(c.name, i, Matched(v))];
          match v
          case Jump(target) => (
            match FindChain(t.table.chains, target)
            case None => Then(here, true, Walk(t, p, c, i + 1, depth, limit))
            case Some(tc) =>
              var sub := Walk(t, p, tc, 0, depth + 1, limit);
              if sub.end.Decided? then Then(here, false, sub)
              else Then(here + sub.trace, sub.uncertain, Walk(t, p, c, i + 1, depth, limit)))
          case Goto(target) => (
            match FindChain(t.table.chains, target)
            case None => Walked(Open, true, here)
            case Some(tc) => Then(here, false, Walk(t, p, tc, 0, depth + 1, limit)))
          case Return => Walked(Open, false, here)
          case GoOn => Then(here, false, Walk(t, p, c, i + 1, depth, limit))
          case _ => Walked(Decided(v), false, here)
  }

  lemma {:induction false} WalkDecidesFinally(t: TableTree, p: Packet, c: Chain, i: nat, depth: nat, limit: nat)
    requires i <= |c.rules|
    ensures var w := Walk(t, p, c, i, depth, limit); w.end.Decided? ==> Final(w.end.ruling)
    decreases limit + 1 - depth, |c.rules| - i
  {
    hide MatchRule, RuleVerdict;
    if depth <= limit && i < |c.rules| {
      WalkDecidesFinally(t, p, c, i + 1, depth, limit);
      var v := RuleVerdict(c.rules[i].statements);
      if v.Jump? || v.Goto? {
        var tc := FindChain(t.table.chains, v.target);
        if tc.Some? {
          WalkDecidesFinally(t, p, tc.value, 0, depth + 1, limit);
        }
      }
    }
  }

  // ── Base chains ───────────────────────────────────────────────────────────

  function KeywordValue(word: string): (v: Option<int>) {
    if word == "raw" then Some(-300)
    else if word == "mangle" then Some(-150)
    else if word == "dstnat" then Some(-100)
    else if word == "filter" then Some(0)
    else if word == "security" then Some(50)
    else if word == "srcnat" || word == "out" then Some(100)
    else None
  }

  function PriorityValue(p: Priority): (v: int) {
    match p
    case Absolute(n) => n
    case Keyword(word) => if KeywordValue(word).Some? then KeywordValue(word).value else 0
    case Offset(word, plus, n) =>
      if KeywordValue(word).None? then 0
      else if plus then KeywordValue(word).value + n
      else KeywordValue(word).value - n
    case Unreadable(_) => 0
  }

  // packetIsV6: the destination's family if known, else the source's.
  function PacketFamily(p: Packet): (f: Option<Family>) {
    if p.dst.Some? then Some(p.dst.value.fam)
    else if p.src.Some? then Some(p.src.value.fam)
    else None
  }

  predicate TableHandlesPacket(family: string, p: Packet) {
    var f := PacketFamily(p);
    if family == "ip" then f != Some(V6)
    else if family == "ip6" then f != Some(V4)
    else family != "arp"
  }

  datatype BaseChain = BaseChain(tree: TableTree, chain: Chain)

  predicate OnHook(c: Chain, hook: string) {
    IsBase(c) && c.hook == hook && c.chainType != "nat"
  }

  function HookedChains(t: TableTree, chains: seq<Chain>, hook: string): (r: seq<BaseChain>) {
    if chains == [] then []
    else if OnHook(chains[0], hook) then [BaseChain(t, chains[0])] + HookedChains(t, chains[1..], hook)
    else HookedChains(t, chains[1..], hook)
  }

  function Candidates(trees: seq<TableTree>, hook: string, p: Packet): (r: seq<BaseChain>) {
    if trees == [] then []
    else if TableHandlesPacket(trees[0].table.family, p)
    then HookedChains(trees[0], trees[0].table.chains, hook) + Candidates(trees[1..], hook, p)
    else Candidates(trees[1..], hook, p)
  }

  function PriorityOf(b: BaseChain): (v: int) {
    PriorityValue(b.chain.priority)
  }

  function InsertChain(b: BaseChain, s: seq<BaseChain>): (r: seq<BaseChain>) {
    if s == [] || PriorityOf(b) <= PriorityOf(s[0]) then [b] + s else [s[0]] + InsertChain(b, s[1..])
  }

  // sort.SliceStable by priority.
  function SortChains(s: seq<BaseChain>): (r: seq<BaseChain>) {
    if s == [] then [] else InsertChain(s[0], SortChains(s[1..]))
  }

  // baseChainsOnHook
  function BaseChains(trees: seq<TableTree>, hook: string, p: Packet): (r: seq<BaseChain>) {
    SortChains(Candidates(trees, hook, p))
  }

  /** The first of the lowest priority. */
  ghost predicate RunsFirst(b: BaseChain, s: seq<BaseChain>) {
    exists i :: 0 <= i < |s| && s[i] == b
      && (forall j :: 0 <= j < |s| ==> PriorityOf(b) <= PriorityOf(s[j]))
      && (forall j :: 0 <= j < i ==> PriorityOf(b) < PriorityOf(s[j]))
  }

  lemma {:induction false} SortedHeadRunsFirst(s: seq<BaseChain>)
    ensures SortChains(s) == [] <==> s == []
    ensures s != [] ==> RunsFirst(SortChains(s)[0], s)
  {
    hide PriorityOf;
    if s != [] {
      var rest := SortChains(s[1..]);
      SortedHeadRunsFirst(s[1..]);
      if rest != [] {
        var i :| 0 <= i < |s[1..]| && s[1..][i] == rest[0]
          && (forall j :: 0 <= j < |s[1..]| ==> PriorityOf(rest[0]) <= PriorityOf(s[1..][j]))
          && (forall j :: 0 <= j < i ==> PriorityOf(rest[0]) < PriorityOf(s[1..][j]));
        var k := if PriorityOf(s[0]) <= PriorityOf(rest[0]) then 0 else i + 1;
        var b := SortChains(s)[0];
        assert s[k] == b;
        forall j | 0 <= j < |s| ensures PriorityOf(b) <= PriorityOf(s[j]) && (j < k ==> PriorityOf(b) < PriorityOf(s[j])) {
          if j > 0 {
            assert s[j] == s[1..][j - 1];
          }
        }
      } else {
        assert s[0] == SortChains(s)[0];
      }
    }
  }

  // ── Simulate ──────────────────────────────────────────────────────────────

  datatype ChainTrace = ChainTrace(table: string, chain: string, rules: seq<RuleTrace>)

  datatype Trace = Trace(chains: seq<ChainTrace>, final: Ruling, uncertain: bool)

  // What a chain's policy decides; an unknown policy decides nothing.
  function PolicyRuling(policy: string): (r: Option<Ruling>) {
    if policy == "" || policy == "accept" then Some(Accept)
    else if policy == "drop" then Some(Drop)
    else if policy == "reject" then Some(Reject)
    else None
  }

  function ChainRuling(b: BaseChain, w: Walked): (r: Option<Ruling>) {
    if w.end.Decided? then Some(w.end.ruling) else PolicyRuling(b.chain.policy)
  }

  function RunChains(chains: seq<BaseChain>, p: Packet): (t: Trace)
    decreases |chains|
  {
    if chains == [] then Trace([], Accept, false)
    else
      var b := chains[0];
      var w := Walk(b.tree, p, b.chain, 0, 0, MAX_DEPTH);
      var here := ChainTrace(b.tree.table.name, b.chain.name, w.trace);
      match ChainRuling(b, w)
      case Some(r) => Trace([here], r, w.uncertain)
      case None =>
        var rest := RunChains(chains[1..], p);
        Trace([here] + rest.chains, rest.final, w.uncertain || rest.uncertain)
  }

  function Simulated(trees: seq<TableTree>, hook: string, p: Packet): (t: Trace) {
    RunChains(BaseChains(trees, hook, p), p)
  }

  /** What Chain.Validate accepts as a policy. */
  predicate ValidPolicy(policy: string) {
    policy == "" || policy == "accept" || policy == "drop"
  }

  /** Every valid policy is terminal, so only the first base chain in priority order is ever
      evaluated. */
  lemma OnlyFirstChainRuns(trees: seq<TableTree>, hook: string, p: Packet)
    requires forall b :: b in Candidates(trees, hook, p) ==> ValidPolicy(b.chain.policy)
    ensures var s := Candidates(trees, hook, p);
            if s == [] then Simulated(trees, hook, p) == Trace([], Accept, false)
            else
              exists b :: RunsFirst(b, s)
                && var w := Walk(b.tree, p, b.chain, 0, 0, MAX_DEPTH);
                   && ChainRuling(b, w).Some?
                   && Simulated(trees, hook, p) ==
                        Trace([ChainTrace(b.tree.table.name, b.chain.name, w.trace)], ChainRuling(b, w).value, w.uncertain)
  {
    hide Candidates, Walk;
    var s := Candidates(trees, hook, p);
    SortedHeadRunsFirst(s);
    if s != [] {
      var b := SortChains(s)[0];
      assert RunsFirst(b, s);
      assert b in s;
      var w := Walk(b.tree, p, b.chain, 0, 0, MAX_DEPTH);
      assert ChainRuling(b, w).Some?;
    }
  }

  // ── What the pieces stand for ─────────────────────────────────────────────

  const VERDICTS := {"accept", "drop", "reject", "return", "continue", "jump", "goto"}

  /** A matched rule does what its first verdict statement says. */
  lemma {:induction false} VerdictRead(sts: seq<Statement>, k: nat)
    requires k < |sts| && sts[k].key in VERDICTS && forall j :: 0 <= j < k ==> sts[j].key !in VERDICTS
    ensures var v := RuleVerdict(sts);
            var target := TrimSpace(if "target" in sts[k].params then sts[k].params["target"] else "");
            && (sts[k].key == "accept" ==> v == Accept)
            && (sts[k].key == "drop" ==> v == Drop)
            && (sts[k].key == "reject" ==> v == Reject)
            && (sts[k].key == "return" ==> v == Return)
            && (sts[k].key == "continue" ==> v == GoOn)
            && (sts[k].key == "jump" ==> v == Jump(target))
            && (sts[k].key == "goto" ==> v == Goto(target))
  {
    hide TrimSpace;
    if k > 0 {
      VerdictRead(sts[1..], k - 1);
    }
  }

  /** Without one, the next rule is looked at. */
  lemma {:induction false} NoVerdictRead(sts: seq<Statement>)
    requires forall st :: st in sts ==> st.key !in VERDICTS
    ensures RuleVerdict(sts) == GoOn
  {
    if sts != [] {
      NoVerdictRead(sts[1..]);
    }
  }

  /** A jump finds the first chain of the name, and finds one if there is one. */
  lemma {:induction false} FindChainExactly(chains: seq<Chain>, name: string)
    ensures FindChain(chains, name).None? <==> forall c :: c in chains ==> c.name != name
    ensures FindChain(chains, name).Some? ==>
              exists i :: 0 <= i < |chains| && chains[i] == FindChain(chains, name).value && forall j :: 0 <= j < i ==> chains[j].name != name
  {
    if chains != [] {
      FindChainExactly(chains[1..], name);
      assert chains == [chains[0]] + chains[1..];
      if chains[0].name == name {
        assert chains[0] == FindChain(chains, name).value;
      } else if FindChain(chains[1..], name).Some? {
        var i :| 0 <= i < |chains[1..]| && chains[1..][i] == FindChain(chains, name).value
          && forall j :: 0 <= j < i ==> chains[1..][j].name != name;
        forall j | 0 <= j < i + 1 ensures chains[j].name != name {
          assert j > 0 ==> chains[j] == chains[1..][j - 1];
        }
        assert chains[i + 1] == FindChain(chains, name).value;
      }
    }
  }

  /** The packet goes to an address of the family, or, with no destination given, comes from one. */
  predicate IsOf(p: Packet, fam: Family) {
    if p.dst.Some? then p.dst.value.fam == fam else p.src.Some? && p.src.value.fam == fam
  }

  /** The tables a packet can meet: an ip table unless it is an IPv6 packet, an ip6 table unless it is
      an IPv4 packet, never an arp table. */
  predicate Meets(family: string, p: Packet) {
    && (family == "ip" ==> !IsOf(p, V6))
    && (family == "ip6" ==> !IsOf(p, V4))
    && family != "arp"
  }

  lemma {:induction false} HookedExactly(t: TableTree, chains: seq<Chain>, hook: string, b: BaseChain)
    ensures b in HookedChains(t, chains, hook) <==>
              b.tree == t && b.chain in chains && b.chain.kind == "base" && b.chain.hook == hook && b.chain.chainType != "nat"
  {
    if chains != [] {
      HookedExactly(t, chains[1..], hook, b);
      assert chains == [chains[0]] + chains[1..];
    }
  }

  /** The chains a packet runs through on a hook: the base chains there that are not for address
      translation, of the tables it can meet. */
  lemma {:induction false} CandidatesExactly(trees: seq<TableTree>, hook: string, p: Packet, b: BaseChain)
    ensures b in Candidates(trees, hook, p) <==>
              && b.tree in trees && Meets(b.tree.table.family, p)
              && b.chain in b.tree.table.chains
              && b.chain.kind == "base" && b.chain.hook == hook && b.chain.chainType != "nat"
  {
    hide HookedChains;
    if trees != [] {
      CandidatesExactly(trees[1..], hook, p, b);
      HookedExactly(trees[0], trees[0].table.chains, hook, b);
      assert trees == [trees[0]] + trees[1..];
    }
  }

  ghost predicate Rising(s: seq<BaseChain>) {
    forall i, j :: 0 <= i < j < |s| ==> PriorityOf(s[i]) <= PriorityOf(s[j])
  }

  lemma RisingCons(b: BaseChain, s: seq<BaseChain>)
    requires Rising(s) && forall x :: x in s ==> PriorityOf(b) <= PriorityOf(x)
    ensures Rising([b] + s)
  {
    hide PriorityOf;
    var r := [b] + s;
    forall i, j | 0 <= i < j < |r| ensures PriorityOf(r[i]) <= PriorityOf(r[j]) {
      assert r[j] == s[j - 1] && s[j - 1] in s && (i > 0 ==> r[i] == s[i - 1]);
    }
  }

  lemma RisingTail(s: seq<BaseChain>)
    requires Rising(s) && s != []
    ensures Rising(s[1..]) && forall x :: x in s ==> PriorityOf(s[0]) <= PriorityOf(x)
  {
    hide PriorityOf;
  }

  lemma {:induction false} InsertKeeps(b: BaseChain, s: seq<BaseChain>)
    requires Rising(s)
    ensures var r := InsertChain(b, s);
            multiset(r) == multiset(s) + multiset{b} && Rising(r) && forall x :: x in r <==> x == b || x in s
  {
    hide PriorityOf, Rising;
    if s != [] {
      RisingTail(s);
      assert s == [s[0]] + s[1..];
      if PriorityOf(b) <= PriorityOf(s[0]) {
        RisingCons(b, s);
      } else {
        InsertKeeps(b, s[1..]);
        RisingCons(s[0], InsertChain(b, s[1..]));
      }
    } else {
      RisingCons(b, s);
    }
  }

  /** They run in the order of their priorities, each as often as it is there. */
  lemma {:induction false} SortedByPriority(s: seq<BaseChain>)
    ensures multiset(SortChains(s)) == multiset(s) && Rising(SortChains(s))
  {
    hide PriorityOf;
    if s != [] {
      SortedByPriority(s[1..]);
      InsertKeeps(s[0], SortChains(s[1..]));
      assert s == [s[0]] + s[1..];
    }
  }

  /** The keywords are nft's numbers, and an offset counts from them. */
  lemma PriorityScale(word: string, n: int)
    ensures PriorityValue(Keyword("raw")) == -300 && PriorityValue(Keyword("mangle")) == -150
    ensures PriorityValue(Keyword("dstnat")) == -100 && PriorityValue(Keyword("filter")) == 0
    ensures PriorityValue(Keyword("security")) == 50 && PriorityValue(Keyword("srcnat")) == 100 == PriorityValue(Keyword("out"))
    ensures PriorityValue(Absolute(n)) == n
    ensures word in {"raw", "mangle", "dstnat", "filter", "security", "srcnat", "out"} ==>
              && PriorityValue(Offset(word, true, n)) == PriorityValue(Keyword(word)) + n
              && PriorityValue(Offset(word, false, n)) == PriorityValue(Keyword(word)) - n
    ensures word !in {"raw", "mangle", "dstnat", "filter", "security", "srcnat", "out"} ==>
              PriorityValue(Keyword(word)) == 0 == PriorityValue(Offset(word, true, n)) == PriorityValue(Offset(word, false, n))
  {}

  /** What a base chain rules: its rules' decision, or else its policy, which accepts when blank; a
      policy that is none of nft's rules nothing. */
  lemma ChainRules(b: BaseChain, p: Packet)
    ensures var w := Walk(b.tree, p, b.chain, 0, 0, MAX_DEPTH);
            var r := ChainRuling(b, w);
            && (w.end.Decided? ==> r == Some(w.end.ruling) && Final(w.end.ruling))
            && (w.end.Open? ==>
                  && (b.chain.policy == "" || b.chain.policy == "accept" ==> r == Some(Accept))
                  && (b.chain.policy == "drop" ==> r == Some(Drop))
                  && (b.chain.policy == "reject" ==> r == Some(Reject))
                  && (b.chain.policy !in {"", "accept", "drop", "reject"} ==> r == None))
  {
    hide Walk;
    WalkDecidesFinally(b.tree, p, b.chain, 0, 0, MAX_DEPTH);
  }

  function WalkOf(b: BaseChain, p: Packet): (w: Walked) {
    Walk(b.tree, p, b.chain, 0, 0, MAX_DEPTH)
  }

  // The chain at place i is shown with its walk's trace.
  predicate Shows(b: BaseChain, p: Packet, c: ChainTrace) {
    c == ChainTrace(b.tree.table.name, b.chain.name, WalkOf(b, p).trace)
  }

  lemma OneMoreChain(chains: seq<BaseChain>, p: Packet)
    requires chains != []
    ensures var b, t, rest := chains[0], RunChains(chains, p), RunChains(chains[1..], p);
            && t.chains != [] && Shows(b, p, t.chains[0])
            && (match ChainRuling(b, WalkOf(b, p))
                case Some(r) => |t.chains| == 1 && t.final == r && t.uncertain == WalkOf(b, p).uncertain
                case None => t.chains[1..] == rest.chains && t.final == rest.final && t.uncertain == (WalkOf(b, p).uncertain || rest.uncertain))
  {
    hide Walk, ChainRuling;
  }

  /** The first chain that rules decides; when none does the packet goes through. The trace shows the
      chains up to there, and the answer is uncertain when one of their walks is. */
  lemma {:induction false} FirstRulingDecides(chains: seq<BaseChain>, p: Packet) returns (n: nat)
    ensures n <= |chains|
    ensures var t := RunChains(chains, p);
            && |t.chains| == (if n < |chains| then n + 1 else n)
            && (forall i :: 0 <= i < |t.chains| ==> Shows(chains[i], p, t.chains[i]))
            && (forall i :: 0 <= i < n ==> ChainRuling(chains[i], WalkOf(chains[i], p)) == None)
            && (if n < |chains| then ChainRuling(chains[n], WalkOf(chains[n], p)) == Some(t.final) else t.final == Accept)
            && (t.uncertain <==> exists i :: 0 <= i < |t.chains| && WalkOf(chains[i], p).uncertain)
    decreases |chains|
  {
    hide WalkOf, ChainRuling, Shows, RunChains;
    n := 0;
    if chains == [] {
      NoChainsRun(p);
    } else {
      OneMoreChain(chains, p);
      var t := RunChains(chains, p);
      if ChainRuling(chains[0], WalkOf(chains[0], p)).None? {
        var k := FirstRulingDecides(chains[1..], p);
        var rest := RunChains(chains[1..], p);
        n := k + 1;
        assert forall i :: 0 < i < |chains| ==> chains[i] == chains[1..][i - 1];
        assert forall i :: 0 < i < |t.chains| ==> t.chains[i] == t.chains[1..][i - 1];
        if rest.uncertain {
          var i :| 0 <= i < |rest.chains| && WalkOf(chains[1..][i], p).uncertain;
          assert chains[i + 1] == chains[1..][i];
        }
      }
    }
  }

  lemma NoChainsRun(p: Packet)
    ensures RunChains([], p) == Trace([], Accept, false)
  {}

  /** Every line of a trace is about an enabled rule of the table, and says what became of it. */
  ghost predicate Honest(t: TableTree, p: Packet, e: RuleTrace) {
    exists c :: c in t.table.chains && c.name == e.chain && e.index < |c.rules| && c.rules[e.index].enabled
      && match MatchRule(t.sets, p, c.rules[e.index].matches)
         case Yes => e.outcome == Matched(RuleVerdict(c.rules[e.index].statements))
         case No => e.outcome == Skipped
         case Unknown => e.outcome == Indeterminate
  }

  lemma {:induction false} TraceIsHonest(t: TableTree, p: Packet, c: Chain, i: nat, depth: nat, limit: nat, e: RuleTrace)
    requires c in t.table.chains && i <= |c.rules| && e in Walk(t, p, c, i, depth, limit).trace
    ensures Honest(t, p, e)
    decreases limit + 1 - depth, |c.rules| - i
  {
    hide MatchRule, RuleVerdict, Honest;
    var r := c.rules[i];
    var v := RuleVerdict(r.statements);
    if r.enabled && e.chain == c.name && e.index == i && e == Walk(t, p, c, i, depth, limit).trace[0] {
      HereIsHonest(t, p, c, i, e);
    } else if r.enabled && MatchRule(t.sets, p, r.matches).Yes? && (v.Jump? || v.Goto?) && FindChain(t.table.chains, v.target).Some? {
      var tc := FindChain(t.table.chains, v.target).value;
      if e in Walk(t, p, tc, 0, depth + 1, limit).trace {
        TraceIsHonest(t, p, tc, 0, depth + 1, limit, e);
      } else {
        TraceIsHonest(t, p, c, i + 1, depth, limit, e);
      }
    } else {
      TraceIsHonest(t, p, c, i + 1, depth, limit, e);
    }
  }

  lemma HereIsHonest(t: TableTree, p: Packet, c: Chain, i: nat, e: RuleTrace)
    requires c in t.table.chains && i < |c.rules| && c.rules[i].enabled
    requires e == RuleTrace(c.name, i, match MatchRule(t.sets, p, c.rules[i].matches)
                                       case Yes => Matched(RuleVerdict(c.rules[i].statements))
                                       case No => Skipped
                                       case Unknown => Indeterminate)
    ensures Honest(t, p, e)
  {
    hide MatchRule, RuleVerdict;
  }

  // ── The loops, with their state ───────────────────────────────────────────

  method BaseChainsOnHook(trees: seq<TableTree>, hook: string, p: Packet) returns (out: seq<BaseChain>)
    ensures out == BaseChains(trees, hook, p)
  {
    out := [];
    for i := 0 to |trees|
      invariant out + Candidates(trees[i..], hook, p) == Candidates(trees, hook, p)
    {
      var t := trees[i];
      assert trees[i..][0] == t && trees[i..][1..] == trees[i + 1..];
      if TableHandlesPacket(t.table.family, p) {
        var hooked := CollectHooked(t, hook);
        Assoc(out, hooked, Candidates(trees[i + 1..], hook, p));
        out := out + hooked;
      }
    }
    assert trees[|trees|..] == [] && out == Candidates(trees, hook, p);
    out := SortChains(out);
  }

  method CollectHooked(t: TableTree, hook: string) returns (out: seq<BaseChain>)
    ensures out == HookedChains(t, t.table.chains, hook)
  {
    var cs := t.table.chains;
    out := [];
    for j := 0 to |cs|
      invariant out + HookedChains(t, cs[j..], hook) == HookedChains(t, cs, hook)
    {
      assert cs[j..][0] == cs[j] && cs[j..][1..] == cs[j + 1..];
      if OnHook(cs[j], hook) {
        out := out + [BaseChain(t, cs[j])];
      }
    }
  }

  /** Per-simulation state: the table walked, the packet, the flag and the trace so far. */
  class Eval {
    const table: TableTree
    const pkt: Packet
    var uncertain: bool
    var out: seq<RuleTrace>

    constructor (table: TableTree, pkt: Packet)
      ensures this.table == table && this.pkt == pkt && !uncertain && out == []
    {
      this.table, this.pkt, uncertain, out := table, pkt, false, [];
    }

    // e.walk at a depth within its limit; the counter never passes the limit by more than one.
    method WalkChain(c: Chain, depth: nat) returns (end: End)
      requires depth <= MAX_DEPTH + 1
      modifies this
      ensures var w := Walk(table, pkt, c, 0, depth, MAX_DEPTH);
              && end == w.end
              && uncertain == (old(uncertain) || w.uncertain)
              && out == old(out) + w.trace
      decreases MAX_DEPTH + 1 - depth, 1
    {
      if depth > MAX_DEPTH {
        uncertain := true;
        return Open;
      }
      ghost var all := Walk(table, pkt, c, 0, depth, MAX_DEPTH);
      for i := 0 to |c.rules|
        invariant var rest := Walk(table, pkt, c, i, depth, MAX_DEPTH);
                  && all.end == rest.end
                  && (old(uncertain) || all.uncertain <==> uncertain || rest.uncertain)
                  && old(out) + all.trace == out + rest.trace
      {
        if c.rules[i].enabled {
          var stop, e := WalkRule(c, i, depth);
          if stop {
            return e;
          }
        }
      }
      return Open;
    }

    // One enabled rule: either the walk goes on with the next rule, or the chain ends here.
    method WalkRule(c: Chain, i: nat, depth: nat) returns (stop: bool, end: End)
      requires depth <= MAX_DEPTH && i < |c.rules| && c.rules[i].enabled
      modifies this
      ensures var w := Walk(table, pkt, c, i, depth, MAX_DEPTH);
              if stop then
                && end == w.end && uncertain == (old(uncertain) || w.uncertain) && out == old(out) + w.trace
              else
                var rest := Walk(table, pkt, c, i + 1, depth, MAX_DEPTH);
                && w.end == rest.end
                && (old(uncertain) || w.uncertain <==> uncertain || rest.uncertain)
                && old(out) + w.trace == out + rest.trace
      decreases MAX_DEPTH + 1 - depth, 0
    {
      hide MatchRule, RuleVerdict;
      ghost var rest := Walk(table, pkt, c, i + 1, depth, MAX_DEPTH);
      stop, end := false, Open;
      var r := c.rules[i];
      var res := MatchRule(table.sets, pkt, r.matches);
      if res.No? {
        out := out + [RuleTrace(c.name, i, Skipped)];
        return;
      }
      if res.Unknown? {
        uncertain := true;
        out := out + [RuleTrace(c.name, i, Indeterminate)];
        return;
      }
      var v := RuleVerdict(r.statements);
      out := out + [RuleTrace(c.name, i, Matched(v))];
      match v {
        case Jump(target) =>
          var tc := FindChain(table.table.chains, target);
          if tc.None? {
            uncertain := true;
            return;
          }
          ghost var sub := Walk(table, pkt, tc.value, 0, depth + 1, MAX_DEPTH);
          end := WalkChain(tc.value, depth + 1);
          stop := end.Decided?;
        case Goto(target) =>
          var tc := FindChain(table.table.chains, target);
          if tc.Some? {
            end := WalkChain(tc.value, depth + 1);
          } else {
            uncertain := true;
          }
          stop := true;
        case Return => stop := true;
        case GoOn =>
        case _ => stop, end := true, Decided(v);
      }
    }
  }

  method Simulate(trees: seq<TableTree>, hook: string, p: Packet) returns (tr: Trace)
    ensures tr == Simulated(trees, hook, p)
  {
    var chains := BaseChainsOnHook(trees, hook, p);
    var done: seq<ChainTrace>, unsure := [], false;
    hide BaseChains, RunChains, Simulated, ChainOutcome, After;
    SimulatedIs(trees, hook, p);
    assert chains[0..] == chains;
    NothingBefore(RunChains(chains, p));
    for i := 0 to |chains|
      invariant Simulated(trees, hook, p) == After(done, unsure, RunChains(chains[i..], p))
    {
      var b := chains[i];
      ChainStep(chains, i, p, done, unsure);
      var trace, ruling, uncertain := RunChain(b, p);
      done := done + [trace];
      unsure := unsure || uncertain;
      if ruling.Some? {
        return Trace(done, ruling.value, unsure);
      }
    }
    assert chains[|chains|..] == [];
    NoChainsLeft(p, done, unsure);
    return Trace(done, Accept, unsure);
  }

  // A trace with what came before it.
  function After(done: seq<ChainTrace>, unsure: bool, rest: Trace): (t: Trace) {
    Trace(done + rest.chains, rest.final, unsure || rest.uncertain)
  }

  lemma SimulatedIs(trees: seq<TableTree>, hook: string, p: Packet)
    ensures Simulated(trees, hook, p) == RunChains(BaseChains(trees, hook, p), p)
  {}

  lemma NothingBefore(t: Trace)
    ensures After([], false, t) == t
  {
    assert [] + t.chains == t.chains;
  }

  lemma NoChainsLeft(p: Packet, done: seq<ChainTrace>, unsure: bool)
    ensures After(done, unsure, RunChains([], p)) == Trace(done, Accept, unsure)
  {}

  // One base chain from its first rule; its policy rules when no rule does.
  function ChainOutcome(b: BaseChain, p: Packet): (r: (ChainTrace, Option<Ruling>, bool)) {
    var w := Walk(b.tree, p, b.chain, 0, 0, MAX_DEPTH);
    (ChainTrace(b.tree.table.name, b.chain.name, w.trace), ChainRuling(b, w), w.uncertain)
  }

  method RunChain(b: BaseChain, p: Packet) returns (trace: ChainTrace, ruling: Option<Ruling>, uncertain: bool)
    ensures (trace, ruling, uncertain) == ChainOutcome(b, p)
  {
    hide Walk;
    var ev := new Eval(b.tree, p);
    var end := ev.WalkChain(b.chain, 0);
    ghost var w := Walk(b.tree, p, b.chain, 0, 0, MAX_DEPTH);
    assert ev.out == w.trace && ev.uncertain == w.uncertain && end == w.end;
    trace := ChainTrace(b.tree.table.name, b.chain.name, ev.out);
    ruling := if end.Decided? then Some(end.ruling) else PolicyRuling(b.chain.policy);
    uncertain := ev.uncertain;
  }

  lemma ChainStep(chains: seq<BaseChain>, i: nat, p: Packet, done: seq<ChainTrace>, unsure: bool)
    requires i < |chains|
    ensures var o := ChainOutcome(chains[i], p);
      After(done, unsure, RunChains(chains[i..], p)) ==
        if o.1.Some? then Trace(done + [o.0], o.1.value, unsure || o.2)
        else After(done + [o.0], unsure || o.2, RunChains(chains[i + 1..], p))
  {
    hide Walk, ChainRuling;
    assert chains[i..][1..] == chains[i + 1..];
    Assoc(done, [ChainOutcome(chains[i], p).0], RunChains(chains[i + 1..], p).chains);
  }
}
