/** Hunks (internal/render/diff.go): the script cut into runs of changes with their surroundings,
    and the proof that the hunks alone rebuild the new text from the old one. */
module Hunks {
  import opened Wrappers
  import opened EditScript

  // ── Building ──────────────────────────────────────────────────────────────

  function LineOf(e: Edit): (l: DiffLine) {
    DiffLine(e.op, e.text)
  }

  function LinesOf(seg: seq<Edit>): (ls: seq<DiffLine>)
    ensures |ls| == |seg|
  {
    seq(|seg|, k requires 0 <= k < |seg| => LineOf(seg[k]))
  }

  // The start of a side: the first nonzero line number on it.
  function FirstOld(seg: seq<Edit>): (n: nat) {
    if seg == [] then 0
    else if !seg[0].op.Added? && seg[0].oldLine != 0 then seg[0].oldLine
    else FirstOld(seg[1..])
  }

  function FirstNew(seg: seq<Edit>): (n: nat) {
    if seg == [] then 0
    else if !seg[0].op.Gone? && seg[0].newLine != 0 then seg[0].newLine
    else FirstNew(seg[1..])
  }

  function HunkOf(seg: seq<Edit>): (h: Hunk) {
    Hunk(FirstOld(seg), |Side(seg, OLD)|, FirstNew(seg), |Side(seg, NEW)|, LinesOf(seg))
  }

  lemma {:induction false} SideAppend(s: seq<Edit>, t: seq<Edit>, ops: set<Op>)
    ensures Side(s + t, ops) == Side(s, ops) + Side(t, ops)
  {
    if s == [] {
      assert s + t == t;
    } else {
      assert (s + t)[1..] == s[1..] + t;
      SideAppend(s[1..], t, ops);
    }
  }

  lemma {:induction false} FirstAppend(s: seq<Edit>, t: seq<Edit>)
    ensures FirstOld(s + t) == if FirstOld(s) != 0 then FirstOld(s) else FirstOld(t)
    ensures FirstNew(s + t) == if FirstNew(s) != 0 then FirstNew(s) else FirstNew(t)
  {
    if s == [] {
      assert s + t == t;
    } else {
      assert (s + t)[1..] == s[1..] + t;
      FirstAppend(s[1..], t);
    }
  }

  method BuildHunk(seg: seq<Edit>) returns (h: Hunk)
    ensures h == HunkOf(seg)
  {
    h := Hunk(0, 0, 0, 0, []);
    for k := 0 to |seg|
      invariant h == HunkOf(seg[..k])
    {
      var e := seg[k];
      assert seg[..k + 1] == seg[..k] + [e];
      SideAppend(seg[..k], [e], OLD);
      SideAppend(seg[..k], [e], NEW);
      FirstAppend(seg[..k], [e]);
      h := h.(lines := h.lines + [DiffLine(e.op, e.text)]);
      if !e.op.Added? {
        if h.oldStart == 0 {
          h := h.(oldStart := e.oldLine);
        }
        h := h.(oldCount := h.oldCount + 1);
      }
      if !e.op.Gone? {
        if h.newStart == 0 {
          h := h.(newStart := e.newLine);
        }
        h := h.(newCount := h.newCount + 1);
      }
    }
    assert seg[..|seg|] == seg;
  }

  // ── Cutting ───────────────────────────────────────────────────────────────

  predicate Changed(s: seq<Edit>, i: int) {
    0 <= i < |s| && !s[i].op.Same?
  }

  predicate KeepAt(s: seq<Edit>, context: nat, k: int) {
    exists i :: 0 <= i < |s| && Changed(s, i) && i - context <= k <= i + context
  }

  /** What stays visible: every step within the context of a change. */
  function KeepOf(s: seq<Edit>, context: nat): (keep: seq<bool>)
    ensures |keep| == |s|
    ensures forall k :: 0 <= k < |s| ==> keep[k] == KeepAt(s, context, k)
  {
    seq(|s|, k requires 0 <= k < |s| => KeepAt(s, context, k))
  }

  function RunLength(keep: seq<bool>): (n: nat)
    ensures n <= |keep|
    ensures forall k :: 0 <= k < n ==> keep[k]
    ensures n < |keep| ==> !keep[n]
  {
    if keep == [] || !keep[0] then 0 else 1 + RunLength(keep[1..])
  }

  // One hunk for each maximal run of kept steps.
  function Cut(s: seq<Edit>, keep: seq<bool>): (hs: seq<Hunk>)
    requires |keep| == |s|
    decreases |s|
  {
    if s == [] then []
    else if !keep[0] then Cut(s[1..], keep[1..])
    else
      var n := RunLength(keep);
      [HunkOf(s[..n])] + Cut(s[n..], keep[n..])
  }

  function HunksOf(s: seq<Edit>, context: nat): (hs: seq<Hunk>) {
    Cut(s, KeepOf(s, context))
  }

  method Hunks(script: seq<Edit>, context: nat) returns (hs: seq<Hunk>)
    ensures hs == HunksOf(script, context)
  {
    var n := |script|;
    var changed := new bool[n](_ => false);
    var any := false;
    for i := 0 to n
      invariant forall k :: 0 <= k < n ==> changed[k] == (k < i && Changed(script, k))
      invariant any <==> exists k :: 0 <= k < i && Changed(script, k)
    {
      if !script[i].op.Same? {
        changed[i] := true;
        any := true;
      }
    }
    if !any {
      NothingKept(script, context);
      return [];
    }
    var keep := MarkKept(script, context, changed);
    hs := CutAll(script, keep[..]);
    assert keep[..] == KeepOf(script, context);
  }

  method MarkKept(script: seq<Edit>, context: nat, changed: array<bool>) returns (keep: array<bool>)
    requires changed.Length == |script|
    requires forall k :: 0 <= k < |script| ==> changed[k] == Changed(script, k)
    ensures keep.Length == |script|
    ensures forall k :: 0 <= k < |script| ==> keep[k] == KeepAt(script, context, k)
  {
    var n := |script|;
    keep := new bool[n](_ => false);
    for i := 0 to n
      invariant forall k :: 0 <= k < n ==>
        (keep[k] <==> exists x :: 0 <= x < i && Changed(script, x) && x - context <= k <= x + context)
    {
      ghost var before := keep[..];
      if changed[i] {
        var j := if i - context < 0 then 0 else i - context;
        var last := if n - 1 < i + context then n - 1 else i + context;
        while j <= last
          invariant 0 <= j && i - context <= j <= last + 1
          invariant forall k :: 0 <= k < n ==> keep[k] == (before[k] || i - context <= k < j)
        {
          keep[j] := true;
          j := j + 1;
        }
      }
      assert forall k :: 0 <= k < n ==> keep[k] == (before[k] || (Changed(script, i) && i - context <= k <= i + context));
    }
  }

  method CutAll(script: seq<Edit>, keep: seq<bool>) returns (out: seq<Hunk>)
    requires |keep| == |script|
    ensures out == Cut(script, keep)
  {
    hide Cut, HunkOf, RunLength;
    out := [];
    var i := 0;
    assert script[0..] == script && keep[0..] == keep;
    while i < |script|
      invariant 0 <= i <= |script|
      invariant out + Cut(script[i..], keep[i..]) == Cut(script, keep)
    {
      if !keep[i] {
        CutSkips(script, keep, i);
        i := i + 1;
      } else {
        var j := i;
        while j < |script| && keep[j]
          invariant i <= j <= |script|
          invariant forall k :: i <= k < j ==> keep[k]
        {
          j := j + 1;
        }
        var h := BuildHunk(script[i..j]);
        CutTakes(script, keep, i, j);
        Assoc(out, [h], Cut(script[j..], keep[j..]));
        out := out + [h];
        i := j;
      }
    }
    CutNothing(script, keep, i);
    assert out + [] == out;
  }

  lemma CutNothing(s: seq<Edit>, keep: seq<bool>, i: nat)
    requires |keep| == |s| == i
    ensures Cut(s[i..], keep[i..]) == []
  {}

  lemma CutSkips(s: seq<Edit>, keep: seq<bool>, i: nat)
    requires |keep| == |s| && i < |s| && !keep[i]
    ensures Cut(s[i..], keep[i..]) == Cut(s[i + 1..], keep[i + 1..])
  {
    assert s[i..][1..] == s[i + 1..] && keep[i..][1..] == keep[i + 1..];
  }

  lemma {:induction false} RunIs(keep: seq<bool>, n: nat)
    requires n <= |keep| && forall k :: 0 <= k < n ==> keep[k]
    requires n < |keep| ==> !keep[n]
    ensures RunLength(keep) == n
  {
    if n > 0 {
      RunIs(keep[1..], n - 1);
    }
  }

  lemma CutTakes(s: seq<Edit>, keep: seq<bool>, i: nat, j: nat)
    requires |keep| == |s| && i < j <= |s|
    requires forall k :: i <= k < j ==> keep[k]
    requires j < |s| ==> !keep[j]
    ensures Cut(s[i..], keep[i..]) == [HunkOf(s[i..j])] + Cut(s[j..], keep[j..])
  {
    var n := j - i;
    RunIs(keep[i..], n);
    assert s[i..][..n] == s[i..j] && s[i..][n..] == s[j..] && keep[i..][n..] == keep[j..];
  }

  lemma NothingKept(s: seq<Edit>, context: nat)
    requires forall k :: 0 <= k < |s| ==> !Changed(s, k)
    ensures HunksOf(s, context) == []
  {
    CutOfNone(s, KeepOf(s, context));
  }

  lemma {:induction false} CutOfNone(s: seq<Edit>, keep: seq<bool>)
    requires |keep| == |s| && forall k :: 0 <= k < |s| ==> !keep[k]
    ensures Cut(s, keep) == []
  {
    if s != [] {
      CutOfNone(s[1..], keep[1..]);
    }
  }

  // ── How much of the surroundings a hunk shows ─────────────────────────────

  datatype Span = Span(first: nat, end: nat)

  /** A maximal run of kept steps. */
  predicate IsRun(keep: seq<bool>, r: Span) {
    && r.first < r.end <= |keep| && (forall k :: r.first <= k < r.end ==> keep[k])
    && (r.first > 0 ==> !keep[r.first - 1]) && (r.end < |keep| ==> !keep[r.end])
  }

  /** All maximal runs from the i-th step on, in order, with a hidden step between any two. */
  ghost predicate RunsFrom(keep: seq<bool>, i: nat, runs: seq<Span>) {
    && (forall k :: 0 <= k < |runs| ==> IsRun(keep, runs[k]) && i <= runs[k].first)
    && (forall j, k :: 0 <= j < k < |runs| ==> runs[j].end < runs[k].first)
    && forall x :: i <= x < |keep| && keep[x] ==> exists k :: 0 <= k < |runs| && runs[k].first <= x < runs[k].end
  }

  predicate HunksAre(s: seq<Edit>, hs: seq<Hunk>, runs: seq<Span>) {
    |hs| == |runs| && forall k :: 0 <= k < |hs| ==> runs[k].first <= runs[k].end <= |s| && hs[k] == HunkOf(s[runs[k].first..runs[k].end])
  }

  lemma {:induction false} CutRuns(s: seq<Edit>, keep: seq<bool>, i: nat) returns (runs: seq<Span>)
    requires |keep| == |s| && i <= |s| && (i > 0 ==> !keep[i - 1])
    ensures RunsFrom(keep, i, runs) && HunksAre(s, Cut(s[i..], keep[i..]), runs)
    decreases |s| - i
  {
    hide Cut, HunkOf, RunsFrom, HunksAre, IsRun;
    if i == |s| {
      CutNothing(s, keep, i);
      runs := [];
      NoRuns(s, keep);
    } else if !keep[i] {
      CutSkips(s, keep, i);
      runs := CutRuns(s, keep, i + 1);
      SkipRuns(keep, i, runs);
    } else {
      var j := i + RunLength(keep[i..]);
      assert forall k :: i <= k < j ==> keep[k] == keep[i..][k - i];
      assert j < |s| ==> keep[j] == keep[i..][j - i];
      CutTakes(s, keep, i, j);
      var rest: seq<Span>;
      if j == |s| {
        CutNothing(s, keep, j);
        rest := [];
        NoRuns(s, keep);
      } else {
        CutSkips(s, keep, j);
        rest := CutRuns(s, keep, j + 1);
      }
      runs := [Span(i, j)] + rest;
      FirstRun(keep, i, j, rest);
      FirstHunk(s, i, j, Cut(s[j..], keep[j..]), rest);
    }
  }

  lemma NoRuns(s: seq<Edit>, keep: seq<bool>)
    ensures RunsFrom(keep, |keep|, []) && RunsFrom(keep, |keep| + 1, []) && HunksAre(s, [], [])
  {}

  lemma SkipRuns(keep: seq<bool>, i: nat, runs: seq<Span>)
    requires i < |keep| && !keep[i] && RunsFrom(keep, i + 1, runs)
    ensures RunsFrom(keep, i, runs)
  {
    hide IsRun;
  }

  lemma FirstRun(keep: seq<bool>, i: nat, j: nat, rest: seq<Span>)
    requires i < j <= |keep| && (i > 0 ==> !keep[i - 1]) && (j < |keep| ==> !keep[j]) && forall k :: i <= k < j ==> keep[k]
    requires RunsFrom(keep, if j < |keep| then j + 1 else j, rest)
    ensures RunsFrom(keep, i, [Span(i, j)] + rest)
  {
    var runs := [Span(i, j)] + rest;
    assert IsRun(keep, Span(i, j));
    FirstCovers(keep, i, j, rest);
    hide IsRun;
    forall k | 0 <= k < |runs| ensures IsRun(keep, runs[k]) && i <= runs[k].first {
      assert k > 0 ==> runs[k] == rest[k - 1];
    }
    forall x, y | 0 <= x < y < |runs| ensures runs[x].end < runs[y].first {
      assert runs[y] == rest[y - 1] && (x > 0 ==> runs[x] == rest[x - 1]);
      RunAfter(keep, j, rest[y - 1]);
    }
  }

  // A run that begins past j, a hidden step if there is one, begins at j + 1 or later.
  lemma RunAfter(keep: seq<bool>, j: nat, r: Span)
    requires j <= |keep| && IsRun(keep, r) && r.first >= (if j < |keep| then j + 1 else j)
    ensures r.first > j
  {}

  lemma FirstCovers(keep: seq<bool>, i: nat, j: nat, rest: seq<Span>)
    requires i < j <= |keep| && (j < |keep| ==> !keep[j])
    requires RunsFrom(keep, if j < |keep| then j + 1 else j, rest)
    ensures var runs := [Span(i, j)] + rest;
            forall x :: i <= x < |keep| && keep[x] ==> exists k :: 0 <= k < |runs| && runs[k].first <= x < runs[k].end
  {
    hide IsRun;
    var runs := [Span(i, j)] + rest;
    forall x | i <= x < |keep| && keep[x] ensures exists k :: 0 <= k < |runs| && runs[k].first <= x < runs[k].end {
      if x < j {
        assert runs[0].first <= x < runs[0].end;
      } else {
        var k :| 0 <= k < |rest| && rest[k].first <= x < rest[k].end;
        assert runs[k + 1] == rest[k];
      }
    }
  }

  lemma FirstHunk(s: seq<Edit>, i: nat, j: nat, hs: seq<Hunk>, rest: seq<Span>)
    requires i <= j <= |s| && HunksAre(s, hs, rest)
    ensures HunksAre(s, [HunkOf(s[i..j])] + hs, [Span(i, j)] + rest)
  {
    hide HunkOf;
  }

  predicate NearChange(s: seq<Edit>, context: nat, r: Span, k: int) {
    exists i :: r.first <= i < r.end && Changed(s, i) && i - context <= k <= i + context
  }

  /** The hunk of these steps shows exactly `context` unchanged lines before its first change and after
      its last, or all there are; and no line of it is further from a change. */
  ghost predicate ShowsContext(s: seq<Edit>, context: nat, r: Span) {
    && r.first < r.end <= |s|
    && (r.first > 0 ==> Changed(s, r.first + context) && forall k :: r.first - 1 <= k < r.first + context ==> !Changed(s, k))
    && (r.end < |s| ==> Changed(s, r.end - 1 - context) && forall k :: r.end - 1 - context < k <= r.end ==> !Changed(s, k))
    && forall k :: r.first <= k < r.end ==> NearChange(s, context, r, k)
  }

  // A hidden step beside a kept one: the nearest change is exactly `context` away.
  lemma HiddenBefore(s: seq<Edit>, context: nat, first: nat)
    requires 0 < first < |s| && !KeepAt(s, context, first - 1) && KeepAt(s, context, first)
    ensures Changed(s, first + context) && forall k :: first - 1 <= k < first + context ==> !Changed(s, k)
  {
    var i :| 0 <= i < |s| && Changed(s, i) && i - context <= first <= i + context;
    assert i == first + context;
    forall k | first - 1 <= k < first + context ensures !Changed(s, k) {
      assert k - context <= first - 1 <= k + context;
    }
  }

  lemma HiddenAfter(s: seq<Edit>, context: nat, end: nat)
    requires 0 < end < |s| && !KeepAt(s, context, end) && KeepAt(s, context, end - 1)
    ensures Changed(s, end - 1 - context) && forall k :: end - 1 - context < k <= end ==> !Changed(s, k)
  {
    var i :| 0 <= i < |s| && Changed(s, i) && i - context <= end - 1 <= i + context;
    assert i == end - 1 - context;
    forall k | end - 1 - context < k <= end ensures !Changed(s, k) {
      assert k - context <= end <= k + context;
    }
  }

  lemma RunShows(s: seq<Edit>, context: nat, r: Span)
    requires IsRun(KeepOf(s, context), r)
    ensures ShowsContext(s, context, r)
  {
    hide Changed, KeepAt;
    var keep := KeepOf(s, context);
    if r.first > 0 {
      assert !keep[r.first - 1] && keep[r.first];
      HiddenBefore(s, context, r.first);
    }
    if r.end < |s| {
      assert !keep[r.end] && keep[r.end - 1];
      HiddenAfter(s, context, r.end);
    }
    forall k | r.first <= k < r.end ensures NearChange(s, context, r, k) {
      assert keep[k];
      KeptNear(s, context, r, k);
    }
  }

  lemma KeptNear(s: seq<Edit>, context: nat, r: Span, k: nat)
    requires IsRun(KeepOf(s, context), r) && r.first <= k < r.end && KeepAt(s, context, k)
    ensures NearChange(s, context, r, k)
  {
    hide IsRun;
    var i :| 0 <= i < |s| && Changed(s, i) && i - context <= k <= i + context;
    ChangeInside(s, context, r, k, i);
  }

  // A change within the context of a kept step is in the same run: every step between is kept too.
  lemma ChangeInside(s: seq<Edit>, context: nat, r: Span, k: nat, i: nat)
    requires IsRun(KeepOf(s, context), r) && r.first <= k < r.end
    requires i < |s| && Changed(s, i) && i - context <= k <= i + context
    ensures r.first <= i < r.end
  {
    var keep := KeepOf(s, context);
    if i < r.first {
      assert KeepAt(s, context, r.first - 1);
    }
    if i >= r.end {
      assert KeepAt(s, context, r.end);
    }
  }

  /** The hunks are pieces of the script in order, with something hidden between any two; each shows
      exactly the context asked for; and every change is in one of them. */
  lemma HunksShowContext(s: seq<Edit>, context: nat) returns (runs: seq<Span>)
    ensures HunksAre(s, HunksOf(s, context), runs)
    ensures forall k :: 0 <= k < |runs| ==> ShowsContext(s, context, runs[k])
    ensures forall j, k :: 0 <= j < k < |runs| ==> runs[j].end < runs[k].first
    ensures forall i :: 0 <= i < |s| && Changed(s, i) ==> exists k :: 0 <= k < |runs| && runs[k].first <= i < runs[k].end
  {
    hide Cut, HunkOf, IsRun, ShowsContext;
    var keep := KeepOf(s, context);
    assert s[0..] == s && keep[0..] == keep;
    runs := CutRuns(s, keep, 0);
    forall k | 0 <= k < |runs| ensures ShowsContext(s, context, runs[k]) {
      RunShows(s, context, runs[k]);
    }
    forall i | 0 <= i < |s| && Changed(s, i) ensures exists k :: 0 <= k < |runs| && runs[k].first <= i < runs[k].end {
      assert KeepAt(s, context, i);
      assert keep[i];
    }
  }

  // ── Patching ──────────────────────────────────────────────────────────────

  function LineSide(ls: seq<DiffLine>, ops: set<Op>): (t: seq<string>) {
    if ls == [] then []
    else if ls[0].op in ops then [ls[0].text] + LineSide(ls[1..], ops)
    else LineSide(ls[1..], ops)
  }

  /** Where a hunk applies, given the old lines consumed and the new lines produced before it: by
      its old range, or, when that is empty, by how far into the new text it starts. */
  function Place(h: Hunk, consumed: nat, produced: nat): (at: int) {
    if h.oldCount > 0 then h.oldStart - 1 else consumed + (h.newStart - 1 - produced)
  }

  /** Applying hunks in order: copy the gap, check the hunk's own old lines, put its new lines in
      their place. None when a hunk does not fit. */
  function Patch(olds: seq<string>, hs: seq<Hunk>, consumed: nat, produced: nat): (r: Option<seq<string>>)
    requires consumed <= |olds|
    decreases |hs|
  {
    if hs == [] then Some(olds[consumed..])
    else
      var h := hs[0];
      var at := Place(h, consumed, produced);
      if !(consumed <= at && at + h.oldCount <= |olds|) then None
      else if LineSide(h.lines, OLD) != olds[at..at + h.oldCount] then None
      else
        match Patch(olds, hs[1..], at + h.oldCount, produced + (at - consumed) + h.newCount)
        case None => None
        case Some(rest) => Some(olds[consumed..at] + LineSide(h.lines, NEW) + rest)
  }

  lemma {:induction false} LineSideOf(seg: seq<Edit>, ops: set<Op>)
    ensures LineSide(LinesOf(seg), ops) == Side(seg, ops)
  {
    if seg != [] {
      assert LinesOf(seg)[1..] == LinesOf(seg[1..]);
      LineSideOf(seg[1..], ops);
    }
  }

  // In a numbered segment, a side that has lines starts at the next line of that side.
  lemma {:induction false} FirstOfNumbered(seg: seq<Edit>, i: nat, j: nat)
    requires Numbered(seg, i, j)
    ensures FirstOld(seg) == if Side(seg, OLD) == [] then 0 else i + 1
    ensures FirstNew(seg) == if Side(seg, NEW) == [] then 0 else j + 1
  {
    if seg != [] {
      FirstOfNumbered(seg[1..], OldAfter(seg[0], i), NewAfter(seg[0], j));
    }
  }

  lemma {:induction false} NumberedSplits(s: seq<Edit>, i: nat, j: nat, n: nat)
    requires Numbered(s, i, j) && n <= |s|
    ensures Numbered(s[..n], i, j)
    ensures Numbered(s[n..], i + |Side(s[..n], OLD)|, j + |Side(s[..n], NEW)|)
  {
    if n > 0 {
      NumberedSplits(s[1..], OldAfter(s[0], i), NewAfter(s[0], j), n - 1);
      assert s[..n][1..] == s[1..][..n - 1] && s[n..] == s[1..][n - 1..];
    } else {
      assert s[n..] == s;
    }
  }

  // Whatever is hidden is unchanged.
  predicate HidesOnlySame(s: seq<Edit>, keep: seq<bool>) {
    |keep| == |s| && forall k :: 0 <= k < |s| && !keep[k] ==> s[k].op.Same?
  }

  lemma NonEmptySide(seg: seq<Edit>)
    requires seg != [] && Side(seg, OLD) == []
    ensures Side(seg, NEW) != []
  {
    assert seg[0].op.Added?;
  }

  lemma TakeDrop<T>(s: seq<T>, n: nat)
    requires n <= |s|
    ensures s[..n] + s[n..] == s
  {}

  // The heart of it: from any point of the script, with i old and j new lines passed, patching the
  // remaining hunks completes the text, the lines since the last hunk being copied.
  lemma {:induction false} PatchFrom(olds: seq<string>, s: seq<Edit>, keep: seq<bool>, i: nat, j: nat, consumed: nat, produced: nat)
    requires HidesOnlySame(s, keep) && Numbered(s, i, j)
    requires consumed <= i <= |olds| && i - consumed == j - produced
    requires Side(s, OLD) == olds[i..]
    ensures Patch(olds, Cut(s, keep), consumed, produced) == Some(olds[consumed..i] + Side(s, NEW))
    decreases |s|
  {
    hide LineSide, Numbered, Patch, Side, HunkOf, RunLength;
    if s == [] {
      SideNone();
      assert olds[consumed..i] + [] == olds[consumed..];
      PatchNone(olds, consumed, produced);
    } else if !keep[0] {
      PassHidden(olds, s, i, j);
      PatchFrom(olds, s[1..], keep[1..], i + 1, j + 1, consumed, produced);
      assert olds[consumed..i] + ([olds[i]] + Side(s[1..], NEW)) == olds[consumed..i + 1] + Side(s[1..], NEW);
    } else {
      var n := RunLength(keep);
      var seg, rest := s[..n], s[n..];
      var c, p := |Side(seg, OLD)|, |Side(seg, NEW)|;
      RunNonEmpty(keep);
      PassRun(olds, s, n, i, j);
      PatchFrom(olds, rest, keep[n..], i + c, j + p, i + c, j + p);
      assert olds[i + c..i + c] + Side(rest, NEW) == Side(rest, NEW);
      PatchOne(olds, seg, Cut(rest, keep[n..]), i, j, consumed, produced);
      Assoc(olds[consumed..i], Side(seg, NEW), Side(rest, NEW));
    }
  }

  lemma SideNone()
    ensures forall ops :: Side([], ops) == []
  {}

  lemma RunNonEmpty(keep: seq<bool>)
    requires keep != [] && keep[0]
    ensures RunLength(keep) > 0
  {}

  // Passing a run of steps passes its lines on either side.
  lemma PassRun(olds: seq<string>, s: seq<Edit>, n: nat, i: nat, j: nat)
    requires n <= |s| && Numbered(s, i, j) && i <= |olds| && Side(s, OLD) == olds[i..]
    ensures var seg, rest := s[..n], s[n..];
      var c, p := |Side(seg, OLD)|, |Side(seg, NEW)|;
      && Numbered(seg, i, j) && Numbered(rest, i + c, j + p) && i + c <= |olds|
      && Side(seg, OLD) == olds[i..i + c] && Side(rest, OLD) == olds[i + c..]
      && Side(s, NEW) == Side(seg, NEW) + Side(rest, NEW)
  {
    hide Side, Numbered;
    var seg, rest := s[..n], s[n..];
    TakeDrop(s, n);
    SideAppend(seg, rest, OLD);
    SideAppend(seg, rest, NEW);
    NumberedSplits(s, i, j, n);
    var c := |Side(seg, OLD)|;
    assert olds[i..][..c] == olds[i..i + c] && olds[i..][c..] == olds[i + c..];
  }

  lemma PatchNone(olds: seq<string>, consumed: nat, produced: nat)
    requires consumed <= |olds|
    ensures Patch(olds, [], consumed, produced) == Some(olds[consumed..])
  {}

  lemma PassHidden(olds: seq<string>, s: seq<Edit>, i: nat, j: nat)
    requires s != [] && s[0].op.Same? && Numbered(s, i, j)
    requires i <= |olds| && Side(s, OLD) == olds[i..]
    ensures i < |olds| && s[0].text == olds[i]
    ensures Side(s[1..], OLD) == olds[i + 1..] && Side(s, NEW) == [olds[i]] + Side(s[1..], NEW)
    ensures Numbered(s[1..], i + 1, j + 1)
  {
    assert Side(s, OLD) == [s[0].text] + Side(s[1..], OLD);
    assert olds[i..][0] == s[0].text && olds[i..][1..] == olds[i + 1..];
  }

  lemma PatchOne(olds: seq<string>, seg: seq<Edit>, hs: seq<Hunk>, i: nat, j: nat, consumed: nat, produced: nat)
    requires seg != [] && Numbered(seg, i, j)
    requires consumed <= i <= |olds| && i - consumed == j - produced
    requires i + |Side(seg, OLD)| <= |olds| && Side(seg, OLD) == olds[i..i + |Side(seg, OLD)|]
    ensures var c, p := |Side(seg, OLD)|, |Side(seg, NEW)|;
      Patch(olds, hs, i + c, j + p).Some? ==>
        Patch(olds, [HunkOf(seg)] + hs, consumed, produced) ==
          Some(olds[consumed..i] + Side(seg, NEW) + Patch(olds, hs, i + c, j + p).value)
  {
    hide Side, LineSide, Numbered, FirstOld, FirstNew;
    var h := HunkOf(seg);
    LineSideOf(seg, OLD);
    LineSideOf(seg, NEW);
    FirstOfNumbered(seg, i, j);
    if Side(seg, OLD) == [] {
      NonEmptySide(seg);
    }
    assert Place(h, consumed, produced) == i;
    assert ([h] + hs)[1..] == hs;
  }

  lemma KeepHidesOnlySame(s: seq<Edit>, context: nat)
    ensures HidesOnlySame(s, KeepOf(s, context))
  {
    var keep := KeepOf(s, context);
    forall k | 0 <= k < |s| && !keep[k] ensures s[k].op.Same? {
      if !s[k].op.Same? {
        assert Changed(s, k);
        assert KeepAt(s, context, k);
      }
    }
  }

  /** The hunks of the script of two texts rebuild the new lines from the old lines, whatever the
      amount of context; every gap, header and context line fits. */
  lemma HunksPatch(olds: seq<string>, news: seq<string>, context: nat)
    ensures Patch(olds, HunksOf(Script(olds, news, 0, 0), context), 0, 0) == Some(news)
  {
    hide Cut, Patch, KeepOf, Side, Numbered, Script;
    var s := Script(olds, news, 0, 0);
    ScriptEdits(olds, news, 0, 0);
    KeepHidesOnlySame(s, context);
    assert olds[0..] == olds && olds[0..0] == [];
    PatchFrom(olds, s, KeepOf(s, context), 0, 0, 0, 0);
    assert [] + news == news;
  }

  // ── What the headers say ──────────────────────────────────────────────────

  /** A range of a header (1-based, 0 when empty) names these lines. */
  predicate RangeIs(lines: seq<string>, start: nat, count: nat, content: seq<string>) {
    && |content| == count
    && if count == 0 then start == 0 else 1 <= start && start - 1 + count <= |lines| && content == lines[start - 1..start - 1 + count]
  }

  /** A header is true of its hunk: both ranges name exactly the hunk's own lines. */
  predicate HeaderTrue(olds: seq<string>, news: seq<string>, h: Hunk) {
    && h.lines != []
    && RangeIs(olds, h.oldStart, h.oldCount, LineSide(h.lines, OLD))
    && RangeIs(news, h.newStart, h.newCount, LineSide(h.lines, NEW))
  }

  // Two ranges with at least one line between them; an empty range is nowhere.
  predicate Apart(start1: nat, count1: nat, start2: nat, count2: nat) {
    count1 == 0 || count2 == 0 || start1 + count1 < start2
  }

  predicate InOrder(hs: seq<Hunk>) {
    forall x, y :: 0 <= x < y < |hs| ==>
      Apart(hs[x].oldStart, hs[x].oldCount, hs[y].oldStart, hs[y].oldCount) &&
      Apart(hs[x].newStart, hs[x].newCount, hs[y].newStart, hs[y].newCount)
  }

  // All ranges lie beyond the first i old and j new lines.
  predicate Beyond(hs: seq<Hunk>, i: nat, j: nat) {
    forall x :: 0 <= x < |hs| ==>
      (hs[x].oldCount > 0 ==> i < hs[x].oldStart) && (hs[x].newCount > 0 ==> j < hs[x].newStart)
  }

  lemma {:induction false} CutHeaders(
    olds: seq<string>, news: seq<string>, s: seq<Edit>, keep: seq<bool>, i: nat, j: nat)
    requires HidesOnlySame(s, keep) && Numbered(s, i, j) && i <= |olds| && j <= |news|
    requires Side(s, OLD) == olds[i..] && Side(s, NEW) == news[j..]
    ensures forall h :: h in Cut(s, keep) ==> HeaderTrue(olds, news, h)
    decreases |s|
  {
    hide LineSide, Numbered, HeaderTrue;
    if s == [] {
    } else if !keep[0] {
      PassHidden(olds, s, i, j);
      assert news[j..][1..] == news[j + 1..];
      CutHeaders(olds, news, s[1..], keep[1..], i + 1, j + 1);
    } else {
      var n := RunLength(keep);
      var seg, rest := s[..n], s[n..];
      var c, p := |Side(seg, OLD)|, |Side(seg, NEW)|;
      SideSplits(olds, s, n, OLD, i);
      SideSplits(news, s, n, NEW, j);
      NumberedSplits(s, i, j, n);
      CutHeaders(olds, news, rest, keep[n..], i + c, j + p);
      HeaderOf(olds, news, seg, i, j);
      hide HunkOf, Side, HidesOnlySame;
      assert Cut(s, keep) == [HunkOf(seg)] + Cut(rest, keep[n..]);
    }
  }

  // What the first n steps of one side say, and what the others do.
  lemma SideSplits(lines: seq<string>, s: seq<Edit>, n: nat, ops: set<Op>, i: nat)
    requires n <= |s| && i <= |lines| && Side(s, ops) == lines[i..]
    ensures var c := |Side(s[..n], ops)|;
            i + c <= |lines| && Side(s[..n], ops) == lines[i..i + c] && Side(s[n..], ops) == lines[i + c..]
  {
    hide Side;
    TakeDrop(s, n);
    SideAppend(s[..n], s[n..], ops);
    var c := |Side(s[..n], ops)|;
    assert Side(s[n..], ops) == lines[i..][c..] == lines[i + c..];
  }

  lemma HeaderOf(olds: seq<string>, news: seq<string>, seg: seq<Edit>, i: nat, j: nat)
    requires seg != [] && Numbered(seg, i, j)
    requires i + |Side(seg, OLD)| <= |olds| && Side(seg, OLD) == olds[i..i + |Side(seg, OLD)|]
    requires j + |Side(seg, NEW)| <= |news| && Side(seg, NEW) == news[j..j + |Side(seg, NEW)|]
    ensures HeaderTrue(olds, news, HunkOf(seg))
  {
    hide Side, LineSide, Numbered, FirstOld, FirstNew;
    FirstOfNumbered(seg, i, j);
    LineSideOf(seg, OLD);
    LineSideOf(seg, NEW);
  }

  // Putting a hunk before hunks that lie beyond it and a further unchanged line.
  lemma OrderExtends(h: Hunk, hs: seq<Hunk>, i: nat, j: nat)
    requires h.oldCount > 0 ==> h.oldStart == i + 1
    requires h.newCount > 0 ==> h.newStart == j + 1
    requires InOrder(hs)
    requires hs != [] ==> Beyond(hs, i + h.oldCount + 1, j + h.newCount + 1)
    ensures InOrder([h] + hs) && Beyond([h] + hs, i, j)
  {
    var all := [h] + hs;
    forall x, y | 0 <= x < y < |all|
      ensures Apart(all[x].oldStart, all[x].oldCount, all[y].oldStart, all[y].oldCount)
      ensures Apart(all[x].newStart, all[x].newCount, all[y].newStart, all[y].newCount)
    {
      assert all[y] == hs[y - 1];
      if x > 0 {
        assert all[x] == hs[x - 1];
      }
    }
    forall x | 0 <= x < |all|
      ensures (all[x].oldCount > 0 ==> i < all[x].oldStart) && (all[x].newCount > 0 ==> j < all[x].newStart)
    {
      if x > 0 {
        assert all[x] == hs[x - 1];
      }
    }
  }

  lemma {:induction false} CutOrder(s: seq<Edit>, keep: seq<bool>, i: nat, j: nat)
    requires HidesOnlySame(s, keep) && Numbered(s, i, j)
    ensures InOrder(Cut(s, keep))
    ensures Beyond(Cut(s, keep), i, j)
    ensures s != [] && !keep[0] ==> Beyond(Cut(s, keep), i + 1, j + 1)
    decreases |s|
  {
    hide Side, FirstOld, FirstNew, LinesOf, InOrder, Beyond, Numbered;
    if s == [] {
      NoHunks(i, j);
    } else if !keep[0] {
      NumberedSplits(s, i, j, 1);
      SameTakesOne(s);
      CutOrder(s[1..], keep[1..], i + 1, j + 1);
      BeyondLess(Cut(s, keep), i, j);
    } else {
      var n := RunLength(keep);
      var seg, rest := s[..n], s[n..];
      var c, p := |Side(seg, OLD)|, |Side(seg, NEW)|;
      NumberedSplits(s, i, j, n);
      CutOrder(rest, keep[n..], i + c, j + p);
      FirstOfNumbered(seg, i, j);
      assert rest != [] ==> !keep[n..][0];
      OrderExtends(HunkOf(seg), Cut(rest, keep[n..]), i, j);
    }
  }

  lemma NoHunks(i: nat, j: nat)
    ensures InOrder([]) && Beyond([], i, j)
  {}

  lemma SameTakesOne(s: seq<Edit>)
    requires s != [] && s[0].op.Same?
    ensures |Side(s[..1], OLD)| == 1 && |Side(s[..1], NEW)| == 1
  {
    assert s[..1][1..] == [];
  }

  lemma BeyondLess(hs: seq<Hunk>, i: nat, j: nat)
    requires Beyond(hs, i + 1, j + 1)
    ensures Beyond(hs, i, j)
  {}

  /** Hunks come in order with unchanged lines between them, and their headers are true. */
  lemma HunksHonest(olds: seq<string>, news: seq<string>, context: nat)
    ensures var hs := HunksOf(Script(olds, news, 0, 0), context);
      InOrder(hs) && forall h :: h in hs ==> HeaderTrue(olds, news, h)
  {
    hide Cut, KeepOf, Side, Numbered, Script, HeaderTrue, InOrder, Beyond;
    var s := Script(olds, news, 0, 0);
    ScriptEdits(olds, news, 0, 0);
    KeepHidesOnlySame(s, context);
    assert olds[0..] == olds && news[0..] == news;
    CutHeaders(olds, news, s, KeepOf(s, context), 0, 0);
    CutOrder(s, KeepOf(s, context), 0, 0);
  }

  // ── Counting ──────────────────────────────────────────────────────────────

  function LinesAcross(hs: seq<Hunk>): (ls: seq<DiffLine>) {
    if hs == [] then [] else hs[0].lines + LinesAcross(hs[1..])
  }

  function CountOf(ls: seq<DiffLine>, op: Op): (n: nat) {
    |LineSide(ls, {op})|
  }

  method Stat(hs: seq<Hunk>) returns (added: nat, removed: nat)
    ensures added == CountOf(LinesAcross(hs), Added)
    ensures removed == CountOf(LinesAcross(hs), Gone)
  {
    added, removed := 0, 0;
    ghost var seen: seq<DiffLine> := [];
    for x := 0 to |hs|
      invariant seen + LinesAcross(hs[x..]) == LinesAcross(hs)
      invariant added == CountOf(seen, Added) && removed == CountOf(seen, Gone)
    {
      ghost var base := seen;
      var ls := hs[x].lines;
      for y := 0 to |ls|
        invariant seen == base + ls[..y]
        invariant added == CountOf(seen, Added) && removed == CountOf(seen, Gone)
      {
        LineSideAppend(seen, [ls[y]], {Added});
        LineSideAppend(seen, [ls[y]], {Gone});
        if ls[y].op.Added? {
          added := added + 1;
        } else if ls[y].op.Gone? {
          removed := removed + 1;
        }
        assert ls[..y + 1] == ls[..y] + [ls[y]];
        seen := seen + [ls[y]];
      }
      assert ls[..|ls|] == ls;
      assert hs[x..][1..] == hs[x + 1..];
    }
    assert seen + [] == seen;
  }

  lemma {:induction false} LineSideAppend(s: seq<DiffLine>, t: seq<DiffLine>, ops: set<Op>)
    ensures LineSide(s + t, ops) == LineSide(s, ops) + LineSide(t, ops)
  {
    if s == [] {
      assert s + t == t;
    } else {
      assert (s + t)[1..] == s[1..] + t;
      LineSideAppend(s[1..], t, ops);
    }
  }

  lemma {:induction false} CutKeepsChanges(s: seq<Edit>, keep: seq<bool>, op: Op)
    requires HidesOnlySame(s, keep) && !op.Same?
    ensures LineSide(LinesAcross(Cut(s, keep)), {op}) == Side(s, {op})
    decreases |s|
  {
    hide LineSide, FirstOld, FirstNew;
    if s == [] {
      LineSideOf(s, {op});
      assert LinesOf(s) == [];
    } else if !keep[0] {
      CutKeepsChanges(s[1..], keep[1..], op);
    } else {
      var n := RunLength(keep);
      TakeDrop(s, n);
      SideAppend(s[..n], s[n..], {op});
      CutKeepsChanges(s[n..], keep[n..], op);
      LineSideOf(s[..n], {op});
      var hs := Cut(s, keep);
      assert hs[1..] == Cut(s[n..], keep[n..]);
      LineSideAppend(hs[0].lines, LinesAcross(hs[1..]), {op});
    }
  }

  /** The added and removed counts are those of the script: the context does not change them. */
  lemma StatIgnoresContext(s: seq<Edit>, context: nat)
    ensures CountOf(LinesAcross(HunksOf(s, context)), Added) == |Side(s, {Added})|
    ensures CountOf(LinesAcross(HunksOf(s, context)), Gone) == |Side(s, {Gone})|
  {
    KeepHidesOnlySame(s, context);
    CutKeepsChanges(s, KeepOf(s, context), Added);
    CutKeepsChanges(s, KeepOf(s, context), Gone);
  }

  // ── The whole diff ────────────────────────────────────────────────────────

  function DiffOf(oldText: string, newText: string, context: int): (hs: seq<Hunk>) {
    if oldText == newText then []
    else HunksOf(Script(SplitLines(oldText), SplitLines(newText), 0, 0), if context < 0 then 0 else context)
  }

  method Diff(oldText: string, newText: string, context: int) returns (hs: seq<Hunk>)
    ensures hs == DiffOf(oldText, newText, context)
  {
    if oldText == newText {
      return [];
    }
    var around := if context < 0 then 0 else context;
    var script := LcsScript(SplitLines(oldText), SplitLines(newText));
    hs := Hunks(script, around);
  }

  /** A whole diff shows exactly the context asked for, none when less than none is asked for. */
  lemma DiffShowsContext(oldText: string, newText: string, context: int) returns (runs: seq<Span>)
    requires oldText != newText
    ensures var s := Script(SplitLines(oldText), SplitLines(newText), 0, 0);
            && HunksAre(s, DiffOf(oldText, newText, context), runs)
            && (context >= 0 ==> forall k :: 0 <= k < |runs| ==> ShowsContext(s, context, runs[k]))
            && (context < 0 ==> forall k :: 0 <= k < |runs| ==> ShowsContext(s, 0, runs[k]))
  {
    hide Script, SplitLines, HunksOf, ShowsContext, HunksAre;
    runs := HunksShowContext(Script(SplitLines(oldText), SplitLines(newText), 0, 0), if context < 0 then 0 else context);
  }

  lemma {:induction false} AllSame(s: seq<Edit>)
    requires Side(s, CHANGED) == []
    ensures Side(s, OLD) == Side(s, NEW) && forall k :: 0 <= k < |s| ==> !Changed(s, k)
  {
    if s != [] {
      assert s[0].op.Same?;
      AllSame(s[1..]);
      forall k | 0 <= k < |s| ensures !Changed(s, k) {
        assert k > 0 ==> !Changed(s[1..], k - 1);
      }
    }
  }

  // A text is kept whole by a script from itself to itself.
  lemma {:induction false} SelfSubsequence(a: seq<string>)
    ensures Subsequence(a, a)
  {
    if a != [] {
      SelfSubsequence(a[1..]);
    }
  }

  lemma {:induction false} SideSplit(s: seq<Edit>)
    ensures |Side(s, CHANGED)| == |Side(s, {Added})| + |Side(s, {Gone})|
  {
    if s != [] {
      SideSplit(s[1..]);
    }
  }

  lemma NoHunksNoChanges(s: seq<Edit>, context: nat)
    ensures HunksOf(s, context) == [] <==> Side(s, CHANGED) == []
  {
    if Side(s, CHANGED) == [] {
      AllSame(s);
      NothingKept(s, context);
    } else {
      StatIgnoresContext(s, context);
      SideSplit(s);
      assert LinesAcross([]) == [];
    }
  }

  lemma NoChangesNoDifference(a: seq<string>, b: seq<string>)
    ensures Side(Script(a, b, 0, 0), CHANGED) == [] <==> a == b
  {
    hide Script;
    var s := Script(a, b, 0, 0);
    ScriptEdits(a, b, 0, 0);
    KeptIsCommon(s);
    if a == b {
      SelfSubsequence(a);
      KeptIsLongest(a, b, a);
    } else if Side(s, CHANGED) == [] {
      AllSame(s);
    }
  }

  /** The diff is empty exactly when the two texts have the same lines: their line endings may
      differ, and one may end in a newline that the other lacks. */
  lemma EmptyExactly(oldText: string, newText: string, context: int)
    ensures DiffOf(oldText, newText, context) == [] <==>
              NormalText(oldText) == NormalText(newText) && (oldText == "" <==> newText == "")
  {
    hide HunksOf, Script, NormalText, SplitLines;
    var a, b := SplitLines(oldText), SplitLines(newText);
    SameLines(oldText, newText);
    if oldText != newText {
      NoHunksNoChanges(Script(a, b, 0, 0), if context < 0 then 0 else context);
      NoChangesNoDifference(a, b);
    }
  }

  /** An empty diff does not mean identical texts. */
  lemma EmptyButDifferent()
    ensures "a\r\n" != "a" && DiffOf("a\r\n", "a", 3) == []
  {
    var s := "a\r\n";
    assert UnixEnds(s) == "a\n" by {
      assert s[1..] == "\r\n" && s[1..][2..] == "";
      assert UnixEnds(s[1..]) == "\n" + UnixEnds(s[1..][2..]);
    }
    assert UnixEnds("a") == "a";
    EmptyExactly(s, "a", 3);
  }

  /** Diff, then patch: whenever there are hunks they turn the one text's lines into the other's. */
  lemma DiffThenPatch(oldText: string, newText: string, context: int)
    ensures Patch(SplitLines(oldText), DiffOf(oldText, newText, context), 0, 0) == Some(SplitLines(newText))
  {
    hide Patch, HunksOf, Script, SplitLines;
    var a, b := SplitLines(oldText), SplitLines(newText);
    if oldText == newText {
      PatchNone(a, 0, 0);
      assert a[0..] == a;
    } else {
      HunksPatch(a, b, if context < 0 then 0 else context);
    }
  }
}
