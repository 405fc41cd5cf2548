/** The diff between two configurations (internal/render/diff.go): a longest-common-subsequence
    table, the edit script read off it, and the hunks cut from the script. */
module EditScript {
  import opened Strings
  import opened Wrappers

  datatype Op = Same | Gone | Added

  /** One step of the script; a line number is 0 when the line is not on that side. */
  datatype Edit = Edit(op: Op, text: string, oldLine: nat, newLine: nat)

  datatype DiffLine = DiffLine(op: Op, text: string)

  datatype Hunk = Hunk(oldStart: nat, oldCount: nat, newStart: nat, newCount: nat, lines: seq<DiffLine>)

  // ── Subsequences ──────────────────────────────────────────────────────────

  predicate Subsequence(c: seq<string>, a: seq<string>) {
    if c == [] then true
    else if a == [] then false
    else (c[0] == a[0] && Subsequence(c[1..], a[1..])) || Subsequence(c, a[1..])
  }

  lemma {:induction false} SubsequenceTail(c: seq<string>, a: seq<string>)
    requires c != [] && Subsequence(c, a)
    ensures Subsequence(c[1..], a[1..])
  {
    if !(c[0] == a[0] && Subsequence(c[1..], a[1..])) {
      SubsequenceTail(c, a[1..]);
      SubsequenceWiden(c[1..], a[1..]);
    }
  }

  lemma SubsequenceWiden(c: seq<string>, a: seq<string>)
    requires a != [] && Subsequence(c, a[1..])
    ensures Subsequence(c, a)
  {}

  // The cell of the table for two remaining inputs.
  function LcsLength(a: seq<string>, b: seq<string>): (n: nat) {
    if a == [] || b == [] then 0
    else if a[0] == b[0] then LcsLength(a[1..], b[1..]) + 1
    else Max(LcsLength(a[1..], b), LcsLength(a, b[1..]))
  }

  function Max(x: nat, y: nat): (z: nat) {
    if x < y then y else x
  }

  /** The table bounds every common subsequence. */
  lemma {:induction false} LcsBounds(a: seq<string>, b: seq<string>, c: seq<string>)
    requires Subsequence(c, a) && Subsequence(c, b)
    ensures |c| <= LcsLength(a, b)
  {
    if c != [] {
      if a[0] == b[0] {
        SubsequenceTail(c, a);
        SubsequenceTail(c, b);
        LcsBounds(a[1..], b[1..], c[1..]);
      } else if c[0] != a[0] {
        LcsBounds(a[1..], b, c);
      } else {
        LcsBounds(a, b[1..], c);
      }
    }
  }

  // ── The script ────────────────────────────────────────────────────────────

  // The script for what is left of both inputs, with i old and j new lines already passed.
  function Script(a: seq<string>, b: seq<string>, i: nat, j: nat): (s: seq<Edit>)
    decreases |a| + |b|
  {
    if a == [] && b == [] then []
    else if b == [] then [Edit(Gone, a[0], i + 1, 0)] + Script(a[1..], b, i + 1, j)
    else if a == [] then [Edit(Added, b[0], 0, j + 1)] + Script(a, b[1..], i, j + 1)
    else if a[0] == b[0] then [Edit(Same, a[0], i + 1, j + 1)] + Script(a[1..], b[1..], i + 1, j + 1)
    else if LcsLength(a[1..], b) >= LcsLength(a, b[1..]) then [Edit(Gone, a[0], i + 1, 0)] + Script(a[1..], b, i + 1, j)
    else [Edit(Added, b[0], 0, j + 1)] + Script(a, b[1..], i, j + 1)
  }

  /** The texts of the steps whose kind is among the given ones. */
  function Side(s: seq<Edit>, ops: set<Op>): (t: seq<string>) {
    if s == [] then []
    else if s[0].op in ops then [s[0].text] + Side(s[1..], ops)
    else Side(s[1..], ops)
  }

  const OLD: set<Op> := {Same, Gone}
  const NEW: set<Op> := {Same, Added}
  const KEPT: set<Op> := {Same}
  const CHANGED: set<Op> := {Gone, Added}

  // How many old and new lines are passed after a step.
  function OldAfter(e: Edit, i: nat): (n: nat) {
    if e.op.Added? then i else i + 1
  }

  function NewAfter(e: Edit, j: nat): (n: nat) {
    if e.op.Gone? then j else j + 1
  }

  /** Every line number is the count of that side's lines up to and including the step. */
  predicate Numbered(s: seq<Edit>, i: nat, j: nat) {
    if s == [] then true
    else
      var e := s[0];
      && e.oldLine == (if e.op.Added? then 0 else i + 1)
      && e.newLine == (if e.op.Gone? then 0 else j + 1)
      && Numbered(s[1..], OldAfter(e, i), NewAfter(e, j))
  }

  /** A script turns the old lines into the new ones: its two projections are the two inputs and
      its line numbers are theirs. */
  predicate Edits(s: seq<Edit>, a: seq<string>, b: seq<string>, i: nat, j: nat) {
    Side(s, OLD) == a && Side(s, NEW) == b && Numbered(s, i, j)
  }

  lemma {:induction false} ScriptEdits(a: seq<string>, b: seq<string>, i: nat, j: nat)
    ensures Edits(Script(a, b, i, j), a, b, i, j)
    decreases |a| + |b|
  {
    hide LcsLength;
    var s := Script(a, b, i, j);
    if s != [] {
      var olds, news := if s[0].op.Added? then a else a[1..], if s[0].op.Gone? then b else b[1..];
      ScriptEdits(olds, news, OldAfter(s[0], i), NewAfter(s[0], j));
      assert s[1..] == Script(olds, news, OldAfter(s[0], i), NewAfter(s[0], j));
    }
  }

  /** Where lines are replaced, the old ones come before the new ones: no deletion directly follows an
      addition. */
  lemma {:induction false} DeletionsFirst(a: seq<string>, b: seq<string>, i: nat, j: nat, k: nat)
    requires k + 1 < |Script(a, b, i, j)| && Script(a, b, i, j)[k].op.Added?
    ensures !Script(a, b, i, j)[k + 1].op.Gone?
    decreases |a| + |b|
  {
    var s := Script(a, b, i, j);
    var olds, news := if s[0].op.Added? then a else a[1..], if s[0].op.Gone? then b else b[1..];
    var rest := Script(olds, news, OldAfter(s[0], i), NewAfter(s[0], j));
    assert s == [s[0]] + rest;
    if k > 0 {
      DeletionsFirst(olds, news, OldAfter(s[0], i), NewAfter(s[0], j), k - 1);
    } else if a != [] && |b| > 1 && a[0] != b[1] {
      AdditionsGoOn(a, b);
    }
  }

  // After an addition that kept more in common than a deletion would, so does the next one.
  lemma AdditionsGoOn(a: seq<string>, b: seq<string>)
    requires a != [] && |b| > 1 && a[0] != b[0] && a[0] != b[1]
    requires LcsLength(a[1..], b) < LcsLength(a, b[1..])
    ensures LcsLength(a[1..], b[1..]) < LcsLength(a, b[1..][1..])
  {
    LcsGrows(a[1..], b);
  }

  lemma {:induction false} LcsGrows(a: seq<string>, b: seq<string>)
    requires b != []
    ensures LcsLength(a, b[1..]) <= LcsLength(a, b)
    decreases |a| + |b|
  {
    if a != [] && a[0] == b[0] {
      LcsStep(a, b[1..]);
    }
  }

  // One more old line adds at most one line in common.
  lemma {:induction false} LcsStep(a: seq<string>, b: seq<string>)
    requires a != []
    ensures LcsLength(a, b) <= LcsLength(a[1..], b) + 1
    decreases |a| + |b|
  {
    if b != [] {
      LcsStep(a, b[1..]);
      LcsGrows(a[1..], b);
    }
  }

  lemma {:induction false} ScriptKeepsLcs(a: seq<string>, b: seq<string>, i: nat, j: nat)
    ensures |Side(Script(a, b, i, j), KEPT)| == LcsLength(a, b)
    decreases |a| + |b|
  {
    var s := Script(a, b, i, j);
    if s != [] {
      var olds, news := if s[0].op.Added? then a else a[1..], if s[0].op.Gone? then b else b[1..];
      ScriptKeepsLcs(olds, news, OldAfter(s[0], i), NewAfter(s[0], j));
      assert s[1..] == Script(olds, news, OldAfter(s[0], i), NewAfter(s[0], j));
    }
  }

  // What any script keeps is common to both of its sides; and the sides are counted by the kinds.
  lemma {:induction false} KeptIsCommon(s: seq<Edit>)
    ensures Subsequence(Side(s, KEPT), Side(s, OLD)) && Subsequence(Side(s, KEPT), Side(s, NEW))
    ensures |Side(s, OLD)| + |Side(s, NEW)| == 2 * |Side(s, KEPT)| + |Side(s, CHANGED)|
  {
    if s != [] {
      KeptIsCommon(s[1..]);
      var k := Side(s, KEPT);
      if s[0].op.Same? {
        assert k[1..] == Side(s[1..], KEPT);
        assert Side(s, OLD)[1..] == Side(s[1..], OLD) && Side(s, NEW)[1..] == Side(s[1..], NEW);
      } else if s[0].op.Gone? {
        assert Side(s, OLD)[1..] == Side(s[1..], OLD);
        SubsequenceWiden(k, Side(s, OLD));
      } else {
        assert Side(s, NEW)[1..] == Side(s[1..], NEW);
        SubsequenceWiden(k, Side(s, NEW));
      }
    }
  }

  /** The kept lines are a longest common subsequence of the two inputs. */
  lemma KeptIsLongest(a: seq<string>, b: seq<string>, c: seq<string>)
    requires Subsequence(c, a) && Subsequence(c, b)
    ensures var k := Side(Script(a, b, 0, 0), KEPT); Subsequence(k, a) && Subsequence(k, b) && |c| <= |k|
  {
    var s := Script(a, b, 0, 0);
    ScriptEdits(a, b, 0, 0);
    ScriptKeepsLcs(a, b, 0, 0);
    KeptIsCommon(s);
    LcsBounds(a, b, c);
  }

  /** No script between the same two inputs changes fewer lines. */
  lemma FewestChanges(a: seq<string>, b: seq<string>, other: seq<Edit>)
    requires Side(other, OLD) == a && Side(other, NEW) == b
    ensures |Side(Script(a, b, 0, 0), CHANGED)| <= |Side(other, CHANGED)|
  {
    var s := Script(a, b, 0, 0);
    ScriptEdits(a, b, 0, 0);
    KeptIsCommon(s);
    KeptIsCommon(other);
    KeptIsLongest(a, b, Side(other, KEPT));
  }

  // The cell [x][y] of the table.
  function At(a: seq<string>, b: seq<string>, x: nat, y: nat): (n: nat)
    requires x <= |a| && y <= |b|
  {
    LcsLength(a[x..], b[y..])
  }

  lemma Edge(a: seq<string>, b: seq<string>)
    ensures forall x: nat :: x <= |a| ==> At(a, b, x, |b|) == 0
    ensures forall y: nat :: y <= |b| ==> At(a, b, |a|, y) == 0
  {}

  method LcsScript(a: seq<string>, b: seq<string>) returns (script: seq<Edit>)
    ensures script == Script(a, b, 0, 0)
  {
    hide LcsLength, At, Script;
    var n, m := |a|, |b|;
    Edge(a, b);
    var lengths := new nat[n + 1, m + 1]((_, _) => 0);
    var i := n;
    while i > 0
      invariant 0 <= i <= n
      invariant forall x, y :: i <= x <= n && 0 <= y <= m ==> lengths[x, y] == At(a, b, x, y)
      invariant forall x :: 0 <= x <= n ==> lengths[x, m] == 0
    {
      i := i - 1;
      var j := m;
      while j > 0
        invariant 0 <= j <= m
        invariant forall x, y :: i < x <= n && 0 <= y <= m ==> lengths[x, y] == At(a, b, x, y)
        invariant forall x :: 0 <= x <= n ==> lengths[x, m] == 0
        invariant forall y :: j <= y <= m ==> lengths[i, y] == At(a, b, i, y)
      {
        j := j - 1;
        Cell(a, b, i, j);
        if a[i] == b[j] {
          lengths[i, j] := lengths[i + 1, j + 1] + 1;
        } else {
          lengths[i, j] := Max(lengths[i + 1, j], lengths[i, j + 1]);
        }
      }
    }
    script := ReadOff(a, b, lengths);
  }

  lemma Cell(a: seq<string>, b: seq<string>, i: nat, j: nat)
    requires i < |a| && j < |b|
    ensures At(a, b, i, j) ==
              if a[i] == b[j] then At(a, b, i + 1, j + 1) + 1 else Max(At(a, b, i + 1, j), At(a, b, i, j + 1))
  {
    assert a[i..][1..] == a[i + 1..] && b[j..][1..] == b[j + 1..];
  }

  // The step the script takes with i old and j new lines passed.
  function Next(a: seq<string>, b: seq<string>, i: nat, j: nat): (e: Edit)
    requires i <= |a| && j <= |b| && (i < |a| || j < |b|)
    ensures e.op.Added? || i < |a|
    ensures e.op.Gone? || j < |b|
  {
    if j == |b| then Edit(Gone, a[i], i + 1, 0)
    else if i == |a| then Edit(Added, b[j], 0, j + 1)
    else if a[i] == b[j] then Edit(Same, a[i], i + 1, j + 1)
    else if At(a, b, i + 1, j) >= At(a, b, i, j + 1) then Edit(Gone, a[i], i + 1, 0)
    else Edit(Added, b[j], 0, j + 1)
  }

  lemma ScriptUnfolds(a: seq<string>, b: seq<string>, i: nat, j: nat)
    requires i <= |a| && j <= |b| && (i < |a| || j < |b|)
    ensures var e := Next(a, b, i, j);
      Script(a[i..], b[j..], i, j) == [e] + Script(a[OldAfter(e, i)..], b[NewAfter(e, j)..], OldAfter(e, i), NewAfter(e, j))
  {
    hide LcsLength;
    assert i < |a| ==> a[i..][1..] == a[i + 1..];
    assert j < |b| ==> b[j..][1..] == b[j + 1..];
  }

  lemma Extended(a: seq<string>, b: seq<string>, i: nat, j: nat, out: seq<Edit>, all: seq<Edit>)
    requires i <= |a| && j <= |b| && (i < |a| || j < |b|)
    requires out + Script(a[i..], b[j..], i, j) == all
    ensures var e := Next(a, b, i, j);
      out + [e] + Script(a[OldAfter(e, i)..], b[NewAfter(e, j)..], OldAfter(e, i), NewAfter(e, j)) == all
  {
    hide Script, LcsLength, Next;
    ScriptUnfolds(a, b, i, j);
    var e := Next(a, b, i, j);
    Assoc(out, [e], Script(a[OldAfter(e, i)..], b[NewAfter(e, j)..], OldAfter(e, i), NewAfter(e, j)));
  }

  method ReadOff(a: seq<string>, b: seq<string>, lengths: array2<nat>) returns (out: seq<Edit>)
    requires lengths.Length0 == |a| + 1 && lengths.Length1 == |b| + 1
    requires forall x, y :: 0 <= x <= |a| && 0 <= y <= |b| ==> lengths[x, y] == At(a, b, x, y)
    ensures out == Script(a, b, 0, 0)
  {
    hide LcsLength, At, Script;
    ghost var all := Script(a, b, 0, 0);
    assert a[0..] == a && b[0..] == b;
    out := [];
    var i, j := 0, 0;
    while i < |a| && j < |b|
      invariant 0 <= i <= |a| && 0 <= j <= |b|
      invariant out + Script(a[i..], b[j..], i, j) == all
    {
      Extended(a, b, i, j, out, all);
      if a[i] == b[j] {
        out := out + [Edit(Same, a[i], i + 1, j + 1)];
        i, j := i + 1, j + 1;
      } else if lengths[i + 1, j] >= lengths[i, j + 1] {
        out := out + [Edit(Gone, a[i], i + 1, 0)];
        i := i + 1;
      } else {
        out := out + [Edit(Added, b[j], 0, j + 1)];
        j := j + 1;
      }
    }
    while i < |a|
      invariant 0 <= i <= |a| && 0 <= j <= |b| && (i == |a| || j == |b|)
      invariant out + Script(a[i..], b[j..], i, j) == all
    {
      Extended(a, b, i, j, out, all);
      out := out + [Edit(Gone, a[i], i + 1, 0)];
      i := i + 1;
    }
    while j < |b|
      invariant i == |a| && 0 <= j <= |b|
      invariant out + Script(a[i..], b[j..], i, j) == all
    {
      Extended(a, b, i, j, out, all);
      out := out + [Edit(Added, b[j], 0, j + 1)];
      j := j + 1;
    }
    NothingLeft(a, b, i, j);
    assert out + [] == out;
  }

  lemma NothingLeft(a: seq<string>, b: seq<string>, i: nat, j: nat)
    requires i == |a| && j == |b|
    ensures Script(a[i..], b[j..], i, j) == []
  {}

  // ── Texts and lines ───────────────────────────────────────────────────────

  // strings.ReplaceAll(s, "\r\n", "\n")
  function UnixEnds(s: string): (t: string) {
    if s == "" then ""
    else if s[0] == '\r' && |s| > 1 && s[1] == '\n' then "\n" + UnixEnds(s[2..])
    else [s[0]] + UnixEnds(s[1..])
  }

  predicate HasCrlf(s: string) {
    exists i :: 0 <= i < |s| - 1 && s[i] == '\r' && s[i + 1] == '\n'
  }

  /** Line endings are replaced one after the other, and nothing else is. */
  lemma {:induction false} UnixEndsExactly(before: string, after: string)
    requires !HasCrlf(before)
    ensures UnixEnds(before) == before
    ensures UnixEnds(before + "\r\n" + after) == before + "\n" + UnixEnds(after)
  {
    var s := before + "\r\n" + after;
    if before == "" {
      assert s[2..] == after;
    } else {
      forall i | 0 <= i < |before[1..]| - 1 ensures !(before[1..][i] == '\r' && before[1..][i + 1] == '\n') {
        assert before[1..][i] == before[i + 1] && before[1..][i + 1] == before[i + 2];
      }
      UnixEndsExactly(before[1..], after);
      assert s[1..] == before[1..] + "\r\n" + after;
      assert !(before[0] == '\r' && |before| > 1 && before[1] == '\n');
      assert before == [before[0]] + before[1..];
      assert [before[0]] + (before[1..] + "\n" + UnixEnds(after)) == before + "\n" + UnixEnds(after);
    }
  }

  // strings.TrimSuffix(s, "\n")
  function WithoutFinalNewline(s: string): (t: string) {
    if s != "" && s[|s| - 1] == '\n' then s[..|s| - 1] else s
  }

  function NormalText(s: string): (t: string) {
    WithoutFinalNewline(UnixEnds(s))
  }

  function SplitLines(s: string): (lines: seq<string>) {
    if s == "" then [] else SplitOn(NormalText(s), '\n')
  }

  /** Two texts have the same lines exactly when they agree after line endings are unified and one
      final newline is dropped, and both or neither are empty. */
  lemma SameLines(s: string, t: string)
    ensures SplitLines(s) == SplitLines(t) <==> NormalText(s) == NormalText(t) && (s == "" <==> t == "")
  {
    JoinSplit(NormalText(s), '\n');
    JoinSplit(NormalText(t), '\n');
  }
}
