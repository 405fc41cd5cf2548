/** The string operations the program uses on names, parameters and notes. */
module Strings {
  predicate IsSpace(c: char) {
    c == ' ' || c == '\t' || c == '\n' || c == '\U{0B}' || c == '\U{0C}' || c == '\r'
  }

  function TrimLeft(s: string): (t: string)
    ensures |t| <= |s|
    ensures t != "" ==> !IsSpace(t[0])
  {
    if s != "" && IsSpace(s[0]) then TrimLeft(s[1..]) else s
  }

  function TrimRight(s: string): (t: string)
    ensures t <= s
    ensures t != "" ==> !IsSpace(t[|t| - 1])
  {
    if s != "" && IsSpace(s[|s| - 1]) then TrimRight(s[..|s| - 1]) else s
  }

  function TrimSpace(s: string): (t: string)
    ensures |t| <= |s|
  {
    TrimRight(TrimLeft(s))
  }

  /** Trimming a trimmed string changes nothing. */
  lemma TrimSpaceIdempotent(s: string)
    ensures TrimSpace(TrimSpace(s)) == TrimSpace(s)
  {
    var t := TrimSpace(s);
    if t != "" {
      assert t[0] == TrimLeft(s)[0];
      assert TrimLeft(t) == t;
    }
  }

  predicate Blank(s: string) {
    forall c :: c in s ==> IsSpace(c)
  }

  /** What trimming gives: take the blanks off both ends until neither end is blank. */
  lemma {:induction false} TrimSpaceExactly(s: string, before: string, t: string, after: string)
    requires s == before + t + after && Blank(before) && Blank(after)
    requires t == "" || (!IsSpace(t[0]) && !IsSpace(t[|t| - 1]))
    ensures TrimSpace(s) == t
  {
    if before != "" {
      assert s[1..] == before[1..] + t + after;
      TrimSpaceExactly(s[1..], before[1..], t, after);
    } else if t == "" {
      assert s == after;
      TrimBlank(s);
    } else {
      assert TrimLeft(s) == s;
      TrimRightExactly(s, t, after);
    }
  }

  lemma {:induction false} TrimRightExactly(s: string, t: string, after: string)
    requires s == t + after && Blank(after) && t != "" && !IsSpace(t[|t| - 1])
    ensures TrimRight(s) == t
    decreases |after|
  {
    if after != "" {
      assert s[..|s| - 1] == t + after[..|after| - 1];
      TrimRightExactly(s[..|s| - 1], t, after[..|after| - 1]);
    } else {
      assert s == t;
    }
  }

  lemma {:induction false} TrimBlank(s: string)
    ensures TrimSpace(s) == "" <==> Blank(s)
  {
    if s != "" {
      assert s == [s[0]] + s[1..] && s[0] in s;
      if IsSpace(s[0]) {
        TrimBlank(s[1..]);
      } else {
        TrimRightKeeps(s);
      }
    }
  }

  lemma {:induction false} TrimRightKeeps(s: string)
    requires s != "" && !IsSpace(s[0])
    ensures TrimRight(s) != ""
  {
    if |s| > 1 && IsSpace(s[|s| - 1]) {
      assert s[..|s| - 1][0] == s[0];
      TrimRightKeeps(s[..|s| - 1]);
    }
  }

  // Trimming only takes characters away.
  lemma {:induction false} TrimLeftCharacters(s: string)
    ensures forall c :: c in TrimLeft(s) ==> c in s
  {
    if s != "" && IsSpace(s[0]) {
      TrimLeftCharacters(s[1..]);
    }
  }

  lemma TrimSpaceCharacters(s: string)
    ensures forall c :: c in TrimSpace(s) ==> c in s
  {
    TrimLeftCharacters(s);
    var t := TrimLeft(s);
    assert TrimSpace(s) == t[..|TrimSpace(s)|];
  }

  // strings.ReplaceAll(s, "\n", " ")
  function NewlinesToSpaces(s: string): (t: string)
    ensures |t| == |s|
    ensures forall i :: 0 <= i < |s| ==> t[i] == if s[i] == '\n' then ' ' else s[i]
  {
    seq(|s|, i requires 0 <= i < |s| => if s[i] == '\n' then ' ' else s[i])
  }

  // strings.CutPrefix(s, "@"), as a test.
  predicate HasAt(s: string) {
    s != "" && s[0] == '@'
  }

  // The order of sort.Strings.
  predicate StringLess(s: string, t: string) {
    if t == "" then false
    else if s == "" then true
    else if s[0] != t[0] then s[0] < t[0]
    else StringLess(s[1..], t[1..])
  }

  lemma {:induction false} StringLessTotal(s: string, t: string)
    ensures s == t || StringLess(s, t) || StringLess(t, s)
    ensures !(StringLess(s, t) && StringLess(t, s))
    ensures !StringLess(s, s)
  {
    if s != "" {
      StringLessTotal(s[1..], s[1..]);
      if t != "" && s[0] == t[0] {
        StringLessTotal(s[1..], t[1..]);
      }
    }
  }

  lemma {:induction false} StringLessTransitive(s: string, t: string, u: string)
    requires StringLess(s, t) && StringLess(t, u)
    ensures StringLess(s, u)
  {
    if s != "" && s[0] == t[0] == u[0] {
      StringLessTransitive(s[1..], t[1..], u[1..]);
    }
  }

  // The first place they differ in.
  predicate DifferAt(s: string, t: string, n: int) {
    0 <= n < |s| && n < |t| && s[n] != t[n] && forall i :: 0 <= i < n ==> s[i] == t[i]
  }

  /** Byte order: the shorter first when one begins the other, else by the first place they differ in. */
  lemma {:induction false} StringLessExactly(s: string, t: string)
    ensures StringLess(s, t) <==> s < t || exists n :: DifferAt(s, t, n) && s[n] < t[n]
  {
    if s != "" && t != "" && s[0] == t[0] {
      StringLessExactly(s[1..], t[1..]);
      assert s == [s[0]] + s[1..] && t == [t[0]] + t[1..];
      if n :| DifferAt(s[1..], t[1..], n) && s[1..][n] < t[1..][n] {
        assert DifferAt(s, t, n + 1);
      }
      if n :| DifferAt(s, t, n) && s[n] < t[n] {
        assert DifferAt(s[1..], t[1..], n - 1);
      }
    } else if s != "" && t != "" {
      assert DifferAt(s, t, 0);
    }
  }

  // strings.Split on a one-character separator
  function SplitOn(s: string, sep: char): (parts: seq<string>)
    ensures parts != []
  {
    if s == "" then [""]
    else if s[0] == sep then [""] + SplitOn(s[1..], sep)
    else var rest := SplitOn(s[1..], sep); [[s[0]] + rest[0]] + rest[1..]
  }

  // strings.Join with a one-character separator
  function JoinOn(parts: seq<string>, sep: char): (s: string) {
    if parts == [] then ""
    else if |parts| == 1 then parts[0]
    else parts[0] + [sep] + JoinOn(parts[1..], sep)
  }

  lemma JoinLonger(c: char, parts: seq<string>, sep: char)
    requires parts != []
    ensures JoinOn([[c] + parts[0]] + parts[1..], sep) == [c] + JoinOn(parts, sep)
  {
    var longer := [[c] + parts[0]] + parts[1..];
    assert longer[1..] == parts[1..];
    if |parts| > 1 {
      assert [c] + parts[0] + [sep] + JoinOn(parts[1..], sep) == [c] + (parts[0] + [sep] + JoinOn(parts[1..], sep));
    }
  }

  lemma JoinEmpty(parts: seq<string>, sep: char)
    requires parts != []
    ensures JoinOn([""] + parts, sep) == [sep] + JoinOn(parts, sep)
  {
    assert ([""] + parts)[1..] == parts;
    assert "" + [sep] == [sep];
  }

  /** Splitting loses nothing. */
  lemma {:induction false} JoinSplit(s: string, sep: char)
    ensures JoinOn(SplitOn(s, sep), sep) == s
  {
    hide JoinOn;
    if s == "" {
      JoinOne("", sep);
    } else {
      JoinSplit(s[1..], sep);
      JoinLonger(s[0], SplitOn(s[1..], sep), sep);
      JoinEmpty(SplitOn(s[1..], sep), sep);
      assert s == [s[0]] + s[1..];
    }
  }

  /** And no part has the separator in it. */
  lemma {:induction false} SplitClean(s: string, sep: char)
    ensures forall part :: part in SplitOn(s, sep) ==> sep !in part
  {
    if s != "" {
      SplitClean(s[1..], sep);
      var rest := SplitOn(s[1..], sep);
      assert rest[0] in rest && rest == [rest[0]] + rest[1..];
    }
  }

  lemma JoinOne(s: string, sep: char)
    ensures JoinOn([s], sep) == s
  {}

  function UpperChar(c: char): (d: char) {
    if 'a' <= c <= 'z' then c - 'a' + 'A' else c
  }

  function LowerChar(c: char): (d: char) {
    if 'A' <= c <= 'Z' then c - 'A' + 'a' else c
  }

  function ToUpper(s: string): (t: string)
    ensures |t| == |s| && forall i :: 0 <= i < |s| ==> t[i] == UpperChar(s[i])
  {
    seq(|s|, i requires 0 <= i < |s| => UpperChar(s[i]))
  }

  function ToLower(s: string): (t: string)
    ensures |t| == |s| && forall i :: 0 <= i < |s| ==> t[i] == LowerChar(s[i])
  {
    seq(|s|, i requires 0 <= i < |s| => LowerChar(s[i]))
  }

  lemma CaseIdempotent(s: string)
    ensures ToUpper(ToUpper(s)) == ToUpper(s) && ToLower(ToLower(s)) == ToLower(s)
  {}

  /** A change of case leaves no letter in the old one and changes nothing but case. */
  lemma CaseExactly(s: string)
    ensures forall c :: c in ToUpper(s) ==> !('a' <= c <= 'z')
    ensures forall c :: c in ToLower(s) ==> !('A' <= c <= 'Z')
    ensures ToLower(ToUpper(s)) == ToLower(s) && ToUpper(ToLower(s)) == ToUpper(s)
    ensures (forall c :: c in s ==> !('a' <= c <= 'z')) ==> ToUpper(s) == s
    ensures (forall c :: c in s ==> !('A' <= c <= 'Z')) ==> ToLower(s) == s
  {
    assert forall i :: 0 <= i < |s| ==> s[i] in s;
  }

  // Trimming is the identity on a string without blanks at its ends.
  lemma TrimmedAlready(t: string)
    requires t == "" || (!IsSpace(t[0]) && !IsSpace(t[|t| - 1]))
    ensures TrimSpace(t) == t
  {}

  lemma TrimmedEnds(s: string)
    ensures TrimSpace(s) == "" || (!IsSpace(TrimSpace(s)[0]) && !IsSpace(TrimSpace(s)[|TrimSpace(s)| - 1]))
  {
    var t := TrimSpace(s);
    if t != "" {
      assert t[0] == TrimLeft(s)[0];
    }
  }

  /** A trimmed string stays trimmed when its case changes. */
  lemma TrimSpaceCase(s: string)
    requires TrimSpace(s) == s
    ensures TrimSpace(ToUpper(s)) == ToUpper(s) && TrimSpace(ToLower(s)) == ToLower(s)
  {
    hide TrimSpace;
    TrimmedEnds(s);
    TrimmedAlready(ToUpper(s));
    TrimmedAlready(ToLower(s));
  }
}
