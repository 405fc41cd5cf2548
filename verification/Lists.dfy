/** Named address lists: normalising what an operator or a feed supplies, and the row
    operations that keep every list free of overlaps (internal/store/lists.go). */
module Lists {
  import opened Wrappers
  import opened Selection
  import opened Addresses
  import opened Strings
  import opened Model

  datatype ListError = NotFound | Malformed | Unlistable | NoteTooLong | Overlap(hit: Literal)

  predicate Listable(a: Addr) {
    !IsLoopback(a) && !IsUnspecified(a) && !IsMulticast(a)
  }

  /** In dotted form: every IPv4 address but 0.0.0.0, 127.x.x.x and 224.x.x.x to 239.x.x.x. */
  lemma ListableV4(a: nat, b: nat, c: nat, d: nat)
    requires a < 256 && b < 256 && c < 256 && d < 256
    ensures Listable(Addr(V4, ((a * 256 + b) * 256 + c) * 256 + d)) <==>
              a != 127 && !(224 <= a <= 239) && !(a == b == c == d == 0)
  {}

  /** By the first group of sixteen bits and the rest: every IPv6 address but ::, ::1 and those that
      start with ff. */
  lemma ListableV6(group: nat, rest: nat)
    requires group < 0x1_0000 && rest < 0x1_0000_0000_0000_0000_0000_0000_0000
    ensures Listable(Addr(V6, group * 0x1_0000_0000_0000_0000_0000_0000_0000 + rest)) <==>
              group < 0xff00 && !(group == 0 && rest <= 1)
  {}

  // parseCIDROrIP already masks, so the listable test sees the masked address.
  function NormalizeCIDR(text: Literal): (r: Result<Literal, ListError>) {
    match EntryPrefix(text)
    case None => Err(Malformed)
    case Some(p) =>
      if !Listable(Masked(p).addr) then Err(Unlistable) else Ok(PrefixLiteral(Masked(p)))
  }

  /** The form every stored entry has: it normalises to itself. */
  predicate Canonical(l: Literal) {
    NormalizeCIDR(l) == Ok(l)
  }

  lemma NormalizeIdempotent(text: Literal)
    ensures NormalizeCIDR(text).Ok? ==> Canonical(NormalizeCIDR(text).value)
  {
    if NormalizeCIDR(text).Ok? {
      MaskedIsMasked(EntryPrefix(text).value);
    }
  }

  /** Canonical text and the prefix it denotes determine each other. */
  lemma CanonicalIsPrefixText(l: Literal)
    ensures Canonical(l) <==>
              && EntryPrefix(l).Some?
              && IsMasked(EntryPrefix(l).value)
              && Listable(EntryPrefix(l).value.addr)
              && l == PrefixLiteral(EntryPrefix(l).value)
  {
    if EntryPrefix(l).Some? {
      var p := EntryPrefix(l).value;
      MaskedIsMasked(p);
      PrefixLiteralRoundTrip(Masked(p));
    }
  }

  // ── dedupePrefixes ────────────────────────────────────────────────────────

  // A feed line as the de-overlap admits it: parsed, masked, not a default route, listable.
  function Admit(text: Literal): (r: Option<Prefix>) {
    match EntryPrefix(text)
    case None => None
    case Some(p) =>
      if Masked(p).bits == 0 || !Listable(Masked(p).addr) then None else Some(Masked(p))
  }

  function Admitted(cidrs: seq<Literal>): (s: seq<Prefix>)
    ensures forall p :: p in s ==> IsMasked(p) && Listable(p.addr) && p.bits > 0
  {
    if cidrs == [] then []
    else
      var rest := Admitted(cidrs[1..]);
      match Admit(cidrs[0])
      case None => rest
      case Some(p) =>
        MaskedIsMasked(EntryPrefix(cidrs[0]).value);
        [p] + rest
  }

  // One more piece of text at the front.
  lemma AdmittedCons(c: Literal, rest: seq<Literal>)
    ensures Admitted([c] + rest) == (if Admit(c).Some? then [Admit(c).value] else []) + Admitted(rest)
  {
    hide Admit, IsMasked, Listable, EntryPrefix, Masked;
    assert ([c] + rest)[1..] == rest;
  }

  lemma {:induction false} AdmittedAppend(a: seq<Literal>, b: seq<Literal>)
    ensures Admitted(a + b) == Admitted(a) + Admitted(b)
  {
    hide Admitted, Admit, IsMasked, Listable;
    if a == [] {
      NothingAdmitted();
      assert a + b == b && [] + Admitted(b) == Admitted(b);
    } else {
      AdmittedAppend(a[1..], b);
      AdmittedCons(a[0], a[1..] + b);
      AdmittedCons(a[0], a[1..]);
      Assoc([a[0]], a[1..], b);
      assert [a[0]] + a[1..] == a;
      Assoc(if Admit(a[0]).Some? then [Admit(a[0]).value] else [], Admitted(a[1..]), Admitted(b));
    }
  }

  lemma NothingAdmitted()
    ensures Admitted([]) == []
  {}

  ghost predicate MaskedAll(s: seq<Prefix>) {
    forall p :: p in s ==> IsMasked(p)
  }

  ghost predicate Ascending(s: seq<Prefix>) {
    forall i, j :: 0 <= i < j < |s| ==> s[i] == s[j] || PrefixLess(s[i], s[j])
  }

  ghost predicate StrictlyAscending(s: seq<Prefix>) {
    forall i, j :: 0 <= i < j < |s| ==> PrefixLess(s[i], s[j])
  }

  function InsertPrefix(p: Prefix, s: seq<Prefix>): (r: seq<Prefix>) {
    if s == [] || p == s[0] || PrefixLess(p, s[0]) then [p] + s else [s[0]] + InsertPrefix(p, s[1..])
  }

  // sort.Slice with the (address, length) order.
  function SortPrefixes(s: seq<Prefix>): (r: seq<Prefix>) {
    if s == [] then [] else InsertPrefix(s[0], SortPrefixes(s[1..]))
  }

  lemma {:induction false} InsertPrefixSorted(p: Prefix, s: seq<Prefix>)
    requires Ascending(s)
    ensures Ascending(InsertPrefix(p, s))
    ensures forall q :: q in InsertPrefix(p, s) <==> q == p || q in s
  {
    if s == [] || p == s[0] || PrefixLess(p, s[0]) {
    } else {
      var rest := InsertPrefix(p, s[1..]);
      InsertPrefixSorted(p, s[1..]);
      assert s == [s[0]] + s[1..];
      var r := [s[0]] + rest;
      forall i, j | 0 <= i < j < |r| ensures r[i] == r[j] || PrefixLess(r[i], r[j]) {
        if i == 0 {
          assert r[j] == rest[j - 1] && rest[j - 1] in rest;
        } else {
          assert r[i] == rest[i - 1] && r[j] == rest[j - 1];
        }
      }
    }
  }

  lemma {:induction false} SortPrefixesSorted(s: seq<Prefix>)
    ensures Ascending(SortPrefixes(s))
    ensures forall q :: q in SortPrefixes(s) <==> q in s
  {
    if s != [] {
      SortPrefixesSorted(s[1..]);
      InsertPrefixSorted(s[0], SortPrefixes(s[1..]));
      assert s == [s[0]] + s[1..];
    }
  }

  predicate Inside(cover: Option<Prefix>, p: Prefix) {
    cover.Some? && Covers(cover.value, p)
  }

  // The one pass: keep what the last kept prefix does not cover.
  function KeepUncovered(s: seq<Prefix>, cover: Option<Prefix>): (r: seq<Prefix>)
    ensures forall p :: p in r ==> p in s
  {
    if s == [] then []
    else if Inside(cover, s[0]) then KeepUncovered(s[1..], cover)
    else [s[0]] + KeepUncovered(s[1..], Some(s[0]))
  }

  ghost predicate CoveredBy(k: seq<Prefix>, p: Prefix) {
    exists q :: q in k && Covers(q, p)
  }

  ghost predicate NoneCoversLater(k: seq<Prefix>) {
    forall i, j :: 0 <= i < j < |k| ==> !Covers(k[i], k[j])
  }

  ghost predicate SortsAfter(cover: Option<Prefix>, s: seq<Prefix>) {
    cover.Some? ==> forall p :: p in s ==> cover.value == p || PrefixLess(cover.value, p)
  }

  lemma AscendingTail(s: seq<Prefix>)
    requires Ascending(s) && s != []
    ensures Ascending(s[1..]) && SortsAfter(Some(s[0]), s[1..])
  {
    forall p | p in s[1..] ensures s[0] == p || PrefixLess(s[0], p) {
      var i :| 0 <= i < |s[1..]| && s[1..][i] == p;
      assert s[0] == s[i + 1] || PrefixLess(s[0], s[i + 1]);
    }
  }

  /** Everything the pass drops is covered by something it keeps. */
  lemma {:induction false} DroppedIsCovered(s: seq<Prefix>, cover: Option<Prefix>, p: Prefix)
    requires p in s
    ensures Inside(cover, p) || CoveredBy(KeepUncovered(s, cover), p)
  {
    hide Covers;
    if Inside(cover, s[0]) {
      if p != s[0] {
        DroppedIsCovered(s[1..], cover, p);
      }
    } else {
      var k := KeepUncovered(s, cover);
      assert s[0] in k;
      if p == s[0] {
        CoversReflexive(p);
      } else {
        DroppedIsCovered(s[1..], Some(s[0]), p);
        if CoveredBy(k[1..], p) {
          var q :| q in k[1..] && Covers(q, p);
          assert q in k;
        }
      }
    }
  }

  /** Remembering a single cover is enough: nothing kept is covered by an earlier kept prefix. */
  lemma {:induction false} OneCoverSuffices(s: seq<Prefix>, cover: Option<Prefix>, p: Prefix)
    requires MaskedAll(s) && Ascending(s) && SortsAfter(cover, s)
    requires cover.Some? ==> IsMasked(cover.value)
    requires p in KeepUncovered(s, cover)
    ensures !Inside(cover, p)
  {
    hide Covers, IsMasked;
    AscendingTail(s);
    if Inside(cover, s[0]) {
      OneCoverSuffices(s[1..], cover, p);
    } else if p != s[0] {
      assert p in s[1..];
      OneCoverSuffices(s[1..], Some(s[0]), p);
      if Inside(cover, p) {
        CoversReflexive(s[0]);
        CoverReachesBetween(cover.value, s[0], p);
      }
    }
  }

  lemma {:induction false} KeptShape(s: seq<Prefix>, cover: Option<Prefix>)
    requires MaskedAll(s) && Ascending(s)
    ensures StrictlyAscending(KeepUncovered(s, cover)) && NoneCoversLater(KeepUncovered(s, cover))
  {
    hide Covers, IsMasked, PrefixLess;
    if s != [] {
      AscendingTail(s);
      if Inside(cover, s[0]) {
        KeptShape(s[1..], cover);
      } else {
        var rest := KeepUncovered(s[1..], Some(s[0]));
        KeptShape(s[1..], Some(s[0]));
        forall p | p in rest ensures PrefixLess(s[0], p) && !Covers(s[0], p) {
          OneCoverSuffices(s[1..], Some(s[0]), p);
          CoversReflexive(p);
        }
        ConsShape(s[0], rest);
      }
    }
  }

  lemma ConsShape(p: Prefix, rest: seq<Prefix>)
    requires StrictlyAscending(rest) && NoneCoversLater(rest)
    requires forall q :: q in rest ==> PrefixLess(p, q) && !Covers(p, q)
    ensures StrictlyAscending([p] + rest) && NoneCoversLater([p] + rest)
  {
    hide Covers, PrefixLess;
    var k := [p] + rest;
    forall i, j | 0 <= i < j < |k| ensures PrefixLess(k[i], k[j]) && !Covers(k[i], k[j]) {
      assert k[j] == rest[j - 1] && rest[j - 1] in rest;
      if i > 0 {
        assert k[i] == rest[i - 1];
      }
    }
  }

  function Kept(cidrs: seq<Literal>): (k: seq<Prefix>)
    ensures forall p :: p in k ==> IsMasked(p) && Listable(p.addr) && p.bits > 0
  {
    SortPrefixesSorted(Admitted(cidrs));
    KeepUncovered(SortPrefixes(Admitted(cidrs)), None)
  }

  function Literals(k: seq<Prefix>): (r: seq<Literal>)
    ensures |r| == |k|
    ensures forall i :: 0 <= i < |k| ==> r[i] == PrefixLiteral(k[i])
  {
    seq(|k|, i requires 0 <= i < |k| => PrefixLiteral(k[i]))
  }

  function Dedupe(cidrs: seq<Literal>): (r: seq<Literal>) {
    Literals(Kept(cidrs))
  }

  /** Maximal among the admitted prefixes: no other admitted prefix covers it. */
  ghost predicate Maximal(q: Prefix, admitted: seq<Prefix>) {
    q in admitted && forall r :: r in admitted && Covers(r, q) ==> r == q
  }

  lemma KeptFacts(cidrs: seq<Literal>)
    ensures StrictlyAscending(Kept(cidrs)) && NoneCoversLater(Kept(cidrs))
    ensures forall p :: p in Admitted(cidrs) ==> CoveredBy(Kept(cidrs), p)
    ensures forall p :: p in Kept(cidrs) ==> p in Admitted(cidrs)
  {
    hide Covers, IsMasked, PrefixLess;
    var admitted := Admitted(cidrs);
    var sorted := SortPrefixes(admitted);
    SortPrefixesSorted(admitted);
    KeptShape(sorted, None);
    forall p | p in admitted ensures CoveredBy(Kept(cidrs), p) {
      DroppedIsCovered(sorted, None, p);
    }
  }

  /** The result is exactly the containment-maximal admitted prefixes, strictly sorted. */
  lemma KeptIsMaximal(cidrs: seq<Literal>)
    ensures StrictlyAscending(Kept(cidrs))
    ensures forall q :: q in Kept(cidrs) <==> Maximal(q, Admitted(cidrs))
  {
    hide Covers, IsMasked, PrefixLess;
    var admitted := Admitted(cidrs);
    var k := Kept(cidrs);
    KeptFacts(cidrs);
    forall q, r | q in k && r in admitted && Covers(r, q) ensures r == q {
      var m :| m in k && Covers(m, r);
      assert MaskedAll([m, r, q]);
      MaskedIsValid(m); MaskedIsValid(r); MaskedIsValid(q);
      CoversTransitive(m, r, q);
      KeptCoversOnlyItself(k, m, q);
      CoversAntisymmetric(q, r);
    }
    forall q | Maximal(q, admitted) ensures q in k {
      assert CoveredBy(k, q);
      var m :| m in k && Covers(m, q);
      assert m in admitted;
    }
  }

  lemma MaskedIsValid(p: Prefix)
    requires IsMasked(p)
    ensures ValidPrefix(p)
  {}

  lemma KeptCoversOnlyItself(k: seq<Prefix>, m: Prefix, q: Prefix)
    requires MaskedAll(k) && StrictlyAscending(k) && NoneCoversLater(k)
    requires m in k && q in k && Covers(m, q)
    ensures m == q
  {
    var i :| 0 <= i < |k| && k[i] == m;
    var j :| 0 <= j < |k| && k[j] == q;
    if j < i {
      // q would sort before m, which covers it: m starts no later and is no longer
      ContainsIsInterval(m, q.addr);
      assert false;
    }
  }

  /** No two results overlap. */
  lemma KeptDisjoint(cidrs: seq<Literal>, i: nat, j: nat)
    requires i < j < |Kept(cidrs)|
    ensures !Overlaps(Kept(cidrs)[i], Kept(cidrs)[j])
  {
    KeptIsMaximal(cidrs);
    var k := Kept(cidrs);
    assert Maximal(k[i], Admitted(cidrs)) && Maximal(k[j], Admitted(cidrs));
    OverlapsIsNesting(k[i], k[j]);
  }

  /** The result covers the same addresses as the admitted input. */
  lemma KeptCoverage(cidrs: seq<Literal>, a: Addr)
    ensures (exists p :: p in Admitted(cidrs) && Contains(p, a)) <==> (exists q :: q in Kept(cidrs) && Contains(q, a))
  {
    hide Covers, IsMasked, Contains;
    KeptFacts(cidrs);
    if p :| p in Admitted(cidrs) && Contains(p, a) {
      assert CoveredBy(Kept(cidrs), p);
      var q :| q in Kept(cidrs) && Covers(q, p);
      MaskedIsValid(p); MaskedIsValid(q);
      CoversContains(q, p, a);
    }
  }

  /** A strictly sorted sequence is determined by its elements. */
  lemma {:induction false} SortedByContent(s: seq<Prefix>, t: seq<Prefix>)
    requires StrictlyAscending(s) && StrictlyAscending(t)
    requires forall q :: q in s <==> q in t
    ensures s == t
  {
    SameEmpty(s, t);
    if s != [] {
      assert s[0] in t && t[0] in s;
      if s[0] != t[0] {
        // each would sort strictly before the other
        assert false;
      }
      assert s == [s[0]] + s[1..] && t == [t[0]] + t[1..];
      forall q ensures q in s[1..] <==> q in t[1..] {
        if q in s[1..] {
          assert q in s && q != s[0];
        }
        if q in t[1..] {
          assert q in t && q != t[0];
        }
      }
      SortedByContent(s[1..], t[1..]);
    }
  }

  /** Input order and duplicates do not matter. */
  lemma DedupeByContent(c1: seq<Literal>, c2: seq<Literal>)
    requires forall p :: p in Admitted(c1) <==> p in Admitted(c2)
    ensures Dedupe(c1) == Dedupe(c2)
  {
    KeptIsMaximal(c1);
    KeptIsMaximal(c2);
    forall q ensures q in Kept(c1) <==> q in Kept(c2) {
      assert Maximal(q, Admitted(c1)) <==> Maximal(q, Admitted(c2));
    }
    SortedByContent(Kept(c1), Kept(c2));
  }

  lemma {:induction false} AdmittedOfLiterals(k: seq<Prefix>)
    requires forall p :: p in k ==> IsMasked(p) && Listable(p.addr) && p.bits > 0
    ensures Admitted(Literals(k)) == k
  {
    hide Admitted, Admit, IsMasked, Listable, Masked, PrefixLiteral, EntryPrefix;
    if k == [] {
      NothingAdmitted();
    } else {
      assert forall p :: p in k[1..] ==> p in k;
      AdmittedOfLiterals(k[1..]);
      assert k[0] in k && k == [k[0]] + k[1..];
      LiteralsCons(k);
      AdmitsItsText(k[0]);
      AdmittedCons(PrefixLiteral(k[0]), Literals(k[1..]));
    }
  }

  lemma LiteralsCons(k: seq<Prefix>)
    requires k != []
    ensures Literals(k) == [PrefixLiteral(k[0])] + Literals(k[1..])
  {}

  lemma AdmitsItsText(p: Prefix)
    requires IsMasked(p) && Listable(p.addr) && p.bits > 0
    ensures Admit(PrefixLiteral(p)) == Some(p)
  {
    MaskedIsMasked(p);
  }

  /** De-overlapping a de-overlapped list changes nothing. */
  lemma DedupeIdempotent(cidrs: seq<Literal>)
    ensures Dedupe(Dedupe(cidrs)) == Dedupe(cidrs)
  {
    var k := Kept(cidrs);
    AdmittedOfLiterals(k);
    KeptIsMaximal(cidrs);
    KeptIsMaximal(Dedupe(cidrs));
    forall q ensures q in Kept(Dedupe(cidrs)) <==> q in k {
      if q in k {
        assert Maximal(q, Admitted(cidrs));
        assert Maximal(q, k);
      }
    }
    SortedByContent(Kept(Dedupe(cidrs)), k);
  }

  lemma DedupeCanonical(cidrs: seq<Literal>, i: nat)
    requires i < |Dedupe(cidrs)|
    ensures Canonical(Dedupe(cidrs)[i])
    ensures EntryPrefix(Dedupe(cidrs)[i]) == Some(Kept(cidrs)[i])
  {
    var p := Kept(cidrs)[i];
    assert p in Kept(cidrs);
    MaskedIsMasked(p);
  }

  method AdmitAll(cidrs: seq<Literal>) returns (pfx: seq<Prefix>)
    ensures pfx == Admitted(cidrs)
  {
    hide IsMasked;
    pfx := [];
    for i := 0 to |cidrs|
      invariant pfx == Admitted(cidrs[..i])
    {
      assert cidrs[..i + 1] == cidrs[..i] + [cidrs[i]];
      AdmittedAppend(cidrs[..i], [cidrs[i]]);
      var p := EntryPrefix(cidrs[i]);
      if p.Some? {
        var mp := Masked(p.value);
        if mp.bits != 0 && Listable(mp.addr) {
          pfx := pfx + [mp];
        }
      }
    }
    assert cidrs[..|cidrs|] == cidrs;
  }

  // One turn of the loop, seen from what is left.
  lemma PassOne(s: seq<Prefix>, i: nat, cover: Option<Prefix>)
    requires i < |s|
    ensures KeepUncovered(s[i..], cover) ==
              if Inside(cover, s[i]) then KeepUncovered(s[i + 1..], cover) else [s[i]] + KeepUncovered(s[i + 1..], Some(s[i]))
  {
    hide Inside;
    assert s[i..][0] == s[i] && s[i..][1..] == s[i + 1..];
  }

  lemma NothingToPass(s: seq<Prefix>, cover: Option<Prefix>)
    ensures forall k: seq<Prefix> :: k + KeepUncovered(s[|s|..], cover) == k
  {}

  lemma LiteralsAppend(k: seq<Prefix>, p: Prefix)
    ensures Literals(k + [p]) == Literals(k) + [PrefixLiteral(p)]
  {}

  method DedupePrefixes(cidrs: seq<Literal>) returns (out: seq<Literal>)
    ensures out == Dedupe(cidrs)
  {
    var pfx := AdmitAll(cidrs);
    hide IsMasked, Covers, Admitted, SortPrefixes, PrefixLiteral, Listable, KeepUncovered, Inside, Literals;
    var sorted := SortPrefixes(pfx);
    out := [];
    assert sorted[0..] == sorted && [] + KeepUncovered(sorted, None) == KeepUncovered(sorted, None);
    ghost var k: seq<Prefix> := [];
    var cover: Option<Prefix> := None;
    for i := 0 to |sorted|
      invariant k + KeepUncovered(sorted[i..], cover) == KeepUncovered(sorted, None)
      invariant out == Literals(k)
    {
      var p := sorted[i];
      PassOne(sorted, i, cover);
      if !Inside(cover, p) {
        LiteralsAppend(k, p);
        Assoc(k, [p], KeepUncovered(sorted[i + 1..], Some(p)));
        out := out + [PrefixLiteral(p)];
        k := k + [p];
        cover := Some(p);
      }
    }
    NothingToPass(sorted, cover);
    assert k == Kept(cidrs);
  }

  // ── The rows of list_entries ──────────────────────────────────────────────

  // SELECT … WHERE list_id = ? ORDER BY id; rows are kept in id order.
  function EntriesOf(rows: seq<Entry>, listId: nat): (r: seq<Entry>)
    ensures forall e :: e in r <==> e in rows && e.listId == listId
  {
    if rows == [] then []
    else if rows[0].listId == listId then [rows[0]] + EntriesOf(rows[1..], listId)
    else EntriesOf(rows[1..], listId)
  }

  // One more row at the front.
  lemma EntriesOfCons(e: Entry, rest: seq<Entry>, listId: nat)
    ensures EntriesOf([e] + rest, listId) == (if e.listId == listId then [e] else []) + EntriesOf(rest, listId)
  {
    assert ([e] + rest)[1..] == rest;
  }

  lemma NoEntriesOf(listId: nat)
    ensures EntriesOf([], listId) == []
  {}

  lemma {:induction false} EntriesOfAppend(a: seq<Entry>, b: seq<Entry>, listId: nat)
    ensures EntriesOf(a + b, listId) == EntriesOf(a, listId) + EntriesOf(b, listId)
  {
    hide EntriesOf;
    if a == [] {
      NoEntriesOf(listId);
      assert a + b == b && [] + EntriesOf(b, listId) == EntriesOf(b, listId);
    } else {
      EntriesOfAppend(a[1..], b, listId);
      EntriesOfCons(a[0], a[1..] + b, listId);
      EntriesOfCons(a[0], a[1..], listId);
      Assoc([a[0]], a[1..], b);
      assert [a[0]] + a[1..] == a;
      Assoc(if a[0].listId == listId then [a[0]] else [], EntriesOf(a[1..], listId), EntriesOf(b, listId));
    }
  }

  predicate Collide(c: Literal, d: Literal) {
    EntryPrefix(c).Some? && EntryPrefix(d).Some? && Overlaps(EntryPrefix(c).value, EntryPrefix(d).value)
  }

  /** What every list always satisfies: entries in canonical form, and no two entries of the
      same list overlap (nft refuses overlapping intervals in a set). */
  ghost predicate ListsSound(rows: seq<Entry>) {
    && (forall i :: 0 <= i < |rows| ==> Canonical(rows[i].cidr))
    && (forall i, j :: 0 <= i < j < |rows| && rows[i].listId == rows[j].listId ==> !Collide(rows[i].cidr, rows[j].cidr))
  }

  function CleanNote(note: string): (n: string) {
    TrimSpace(NewlinesToSpaces(note))
  }

  function FirstHit(existing: seq<Entry>, norm: Literal): (r: Option<Literal>)
    ensures r.None? <==> forall e :: e in existing ==> !Collide(norm, e.cidr)
    ensures r.Some? ==> exists e :: e in existing && e.cidr == r.value && Collide(norm, r.value)
  {
    if existing == [] then None
    else if Collide(norm, existing[0].cidr) then Some(existing[0].cidr)
    else FirstHit(existing[1..], norm)
  }

  // What AddListEntry decides: the normalised entry to insert, or why not.
  function AddOutcome(lists: set<nat>, rows: seq<Entry>, listId: nat, cidr: Literal, note: string): (r: Result<Literal, ListError>) {
    if listId !in lists then Err(NotFound)
    else match NormalizeCIDR(cidr)
      case Err(e) => Err(e)
      case Ok(norm) =>
        if |CleanNote(note)| > 120 then Err(NoteTooLong)
        else match FirstHit(EntriesOf(rows, listId), norm)
          case Some(hit) => Err(Overlap(hit))
          case None => Ok(norm)
  }

  /** The entry is accepted exactly when nothing on that list shares an address with it. */
  lemma AddAcceptsExactly(lists: set<nat>, rows: seq<Entry>, listId: nat, cidr: Literal, note: string)
    requires listId in lists && NormalizeCIDR(cidr).Ok? && |CleanNote(note)| <= 120
    requires ListsSound(rows)
    ensures AddOutcome(lists, rows, listId, cidr, note).Ok? <==>
              forall e, a: Addr :: e in rows && e.listId == listId && ValidAddr(a) && Contains(EntryPrefix(cidr).value, a)
                ==> !Contains(EntryPrefix(e.cidr).value, a)
  {
    hide Contains, Overlaps, Masked;
    var p := EntryPrefix(cidr).value;
    var norm := NormalizeCIDR(cidr).value;
    PrefixLiteralRoundTrip(Masked(p));
    MaskedIsMasked(p);
    forall e | e in rows && e.listId == listId
      ensures Collide(norm, e.cidr) <==> exists a: Addr :: ValidAddr(a) && Contains(p, a) && Contains(EntryPrefix(e.cidr).value, a)
    {
      OverlapsIsSharing(Masked(p), EntryPrefix(e.cidr).value);
    }
  }

  function NewRows(entries: seq<Literal>, listId: nat, nextId: nat): (r: seq<Entry>)
    ensures |r| == |entries|
    ensures forall i :: 0 <= i < |r| ==> r[i] == Entry(nextId + i, listId, entries[i], "")
  {
    seq(|entries|, i requires 0 <= i < |entries| => Entry(nextId + i, listId, entries[i], ""))
  }

  function OtherLists(rows: seq<Entry>, listId: nat): (r: seq<Entry>) {
    if rows == [] then []
    else if rows[0].listId == listId then OtherLists(rows[1..], listId)
    else [rows[0]] + OtherLists(rows[1..], listId)
  }

  function WithoutId(rows: seq<Entry>, id: nat): (r: seq<Entry>) {
    if rows == [] then []
    else if rows[0].id == id then WithoutId(rows[1..], id)
    else [rows[0]] + WithoutId(rows[1..], id)
  }

  lemma SoundTail(rows: seq<Entry>)
    requires ListsSound(rows) && rows != []
    ensures ListsSound(rows[1..])
    ensures forall e :: e in rows[1..] && e.listId == rows[0].listId ==> !Collide(rows[0].cidr, e.cidr)
  {
    hide Collide, Canonical;
  }

  lemma SoundCons(e: Entry, rest: seq<Entry>)
    requires ListsSound(rest) && Canonical(e.cidr)
    requires forall f :: f in rest && f.listId == e.listId ==> !Collide(e.cidr, f.cidr)
    ensures ListsSound([e] + rest)
  {
    hide Collide, Canonical;
    var s := [e] + rest;
    forall i, j | 0 <= i < j < |s| && s[i].listId == s[j].listId ensures !Collide(s[i].cidr, s[j].cidr) {
      assert s[j] == rest[j - 1] && rest[j - 1] in rest;
      if i > 0 {
        assert s[i] == rest[i - 1];
      }
    }
  }

  lemma {:induction false} SubsetSound(rows: seq<Entry>, listId: nat, id: nat)
    requires ListsSound(rows)
    ensures ListsSound(OtherLists(rows, listId)) && ListsSound(WithoutId(rows, id))
    ensures forall e :: e in OtherLists(rows, listId) <==> e in rows && e.listId != listId
    ensures forall e :: e in WithoutId(rows, id) <==> e in rows && e.id != id
  {
    hide Collide, Canonical;
    if rows != [] {
      SoundTail(rows);
      SubsetSound(rows[1..], listId, id);
      assert rows == [rows[0]] + rows[1..];
      SoundCons(rows[0], OtherLists(rows[1..], listId));
      SoundCons(rows[0], WithoutId(rows[1..], id));
    }
  }

  /** Appending rows that are sound on their own and clear of the old ones keeps soundness. */
  lemma SoundAppend(earlier: seq<Entry>, added: seq<Entry>)
    requires ListsSound(earlier) && ListsSound(added)
    requires forall e, f :: e in earlier && f in added && e.listId == f.listId ==> !Collide(e.cidr, f.cidr)
    ensures ListsSound(earlier + added)
  {
    hide Collide, Canonical;
    var s := earlier + added;
    forall i, j | 0 <= i < j < |s| && s[i].listId == s[j].listId ensures !Collide(s[i].cidr, s[j].cidr) {
      if i < |earlier| && |earlier| <= j {
        assert s[i] in earlier && s[j] in added;
      }
    }
  }

  lemma CollideSymmetric(c: Literal, d: Literal)
    ensures Collide(c, d) <==> Collide(d, c)
  {}

  lemma ReplacementSound(cidrs: seq<Literal>, listId: nat, nextId: nat)
    ensures ListsSound(NewRows(Dedupe(cidrs), listId, nextId))
  {
    hide Overlaps, Canonical, NormalizeCIDR;
    var r := NewRows(Dedupe(cidrs), listId, nextId);
    forall i | 0 <= i < |r| ensures Canonical(r[i].cidr) {
      DedupeCanonical(cidrs, i);
    }
    forall i, j | 0 <= i < j < |r| ensures !Collide(r[i].cidr, r[j].cidr) {
      DedupeCanonical(cidrs, i);
      DedupeCanonical(cidrs, j);
      KeptDisjoint(cidrs, i, j);
    }
  }

  datatype ListOp =
    | AddRow(listId: nat, cidr: Literal, note: string)
    | ReplaceRows(listId: nat, cidrs: seq<Literal>)
    | DeleteRow(id: nat)

  datatype Rows = Rows(entries: seq<Entry>, nextId: nat)

  // Only adding a row asks whether the list exists: entry rows carry no foreign key
  // (internal/store/schema.go:116-125), so replacing does not notice.
  function Apply(lists: set<nat>, s: Rows, op: ListOp): (r: Rows) {
    match op
    case AddRow(l, c, n) => (
      match AddOutcome(lists, s.entries, l, c, n)
      case Ok(norm) => Rows(s.entries + [Entry(s.nextId, l, norm, CleanNote(n))], s.nextId + 1)
      case Err(_) => s
    )
    case ReplaceRows(l, cs) =>
      Rows(OtherLists(s.entries, l) + NewRows(Dedupe(cs), l, s.nextId), s.nextId + |Dedupe(cs)|)
    case DeleteRow(id) => Rows(WithoutId(s.entries, id), s.nextId)
  }

  lemma OperationKeepsSound(lists: set<nat>, s: Rows, op: ListOp)
    requires ListsSound(s.entries)
    ensures ListsSound(Apply(lists, s, op).entries)
  {
    hide Collide, Canonical, NormalizeCIDR, Dedupe;
    match op
    case AddRow(l, c, n) =>
      if AddOutcome(lists, s.entries, l, c, n).Ok? {
        NormalizeIdempotent(c);
        var e := Entry(s.nextId, l, NormalizeCIDR(c).value, CleanNote(n));
        forall f | f in s.entries && f.listId == l ensures !Collide(f.cidr, e.cidr) {
          assert f in EntriesOf(s.entries, l);
          CollideSymmetric(f.cidr, e.cidr);
        }
        SoundAppend(s.entries, [e]);
      }
    case ReplaceRows(l, cs) =>
      SubsetSound(s.entries, l, 0);
      ReplacementSound(cs, l, s.nextId);
      SoundAppend(OtherLists(s.entries, l), NewRows(Dedupe(cs), l, s.nextId));
    case DeleteRow(id) =>
      SubsetSound(s.entries, 0, id);
  }

  function ApplyAll(lists: set<nat>, s: Rows, ops: seq<ListOp>): (r: Rows)
    decreases |ops|
  {
    if ops == [] then s else ApplyAll(lists, Apply(lists, s, ops[0]), ops[1..])
  }

  /** The list invariant holds after any sequence of additions, replacements and deletions. */
  lemma {:induction false} ListsAlwaysSound(lists: set<nat>, s: Rows, ops: seq<ListOp>)
    requires ListsSound(s.entries)
    ensures ListsSound(ApplyAll(lists, s, ops).entries)
    decreases |ops|
  {
    if ops != [] {
      OperationKeepsSound(lists, s, ops[0]);
      ListsAlwaysSound(lists, Apply(lists, s, ops[0]), ops[1..]);
    }
  }

  /** After a replacement the list holds exactly the de-overlapped input, in sorted order. */
  lemma ReplacedEntries(lists: set<nat>, s: Rows, listId: nat, cidrs: seq<Literal>)
    ensures EntriesOf(Apply(lists, s, ReplaceRows(listId, cidrs)).entries, listId) == NewRows(Dedupe(cidrs), listId, s.nextId)
  {
    hide EntriesOf, OtherLists, Dedupe;
    var added := NewRows(Dedupe(cidrs), listId, s.nextId);
    EntriesOfAppend(OtherLists(s.entries, listId), added, listId);
    NoneOfOthers(s.entries, listId);
    AllOfOne(added, listId);
    assert [] + added == added;
  }

  lemma {:induction false} NoneOfOthers(rows: seq<Entry>, listId: nat)
    ensures EntriesOf(OtherLists(rows, listId), listId) == []
  {
    if rows != [] {
      NoneOfOthers(rows[1..], listId);
      if rows[0].listId != listId {
        assert OtherLists(rows, listId)[1..] == OtherLists(rows[1..], listId);
      }
    }
  }

  lemma {:induction false} AllOfOne(rows: seq<Entry>, listId: nat)
    requires forall i :: 0 <= i < |rows| ==> rows[i].listId == listId
    ensures EntriesOf(rows, listId) == rows
  {
    if rows != [] {
      AllOfOne(rows[1..], listId);
      assert rows == [rows[0]] + rows[1..];
    }
  }

  // ── What each operation does to each list ─────────────────────────────────

  // The entry has an address of the prefix.
  predicate Meets(e: Entry, p: Prefix) {
    EntryPrefix(e.cidr).Some? && Overlaps(p, EntryPrefix(e.cidr).value)
  }

  predicate FirstMeets(existing: seq<Entry>, p: Prefix, hit: Literal) {
    exists i :: 0 <= i < |existing| && existing[i].cidr == hit && Meets(existing[i], p) && forall j :: 0 <= j < i ==> !Meets(existing[j], p)
  }

  /** Why an addition is refused, first reason first, and what is stored when it is not: the masked
      prefix, printed. */
  lemma AddOutcomeExactly(lists: set<nat>, rows: seq<Entry>, listId: nat, cidr: Literal, note: string)
    ensures var o, p := AddOutcome(lists, rows, listId, cidr, note), EntryPrefix(cidr);
            if listId !in lists then o == Err(NotFound)
            else if p.None? then o == Err(Malformed)
            else if !Listable(Masked(p.value).addr) then o == Err(Unlistable)
            else if |CleanNote(note)| > 120 then o == Err(NoteTooLong)
            else if exists e :: e in rows && e.listId == listId && Meets(e, Masked(p.value)) then
              o.Err? && o.error.Overlap? && FirstMeets(EntriesOf(rows, listId), Masked(p.value), o.error.hit)
            else o.Ok? && EntryPrefix(o.value) == Some(Masked(p.value))
  {
    hide Masked, Listable, Overlaps;
    if EntryPrefix(cidr).Some? {
      var p := Masked(EntryPrefix(cidr).value);
      PrefixLiteralRoundTrip(p);
      FirstHitExactly(EntriesOf(rows, listId), PrefixLiteral(p), p);
    }
  }

  lemma FirstMeetsLater(e: Entry, rest: seq<Entry>, p: Prefix, hit: Literal)
    requires !Meets(e, p) && FirstMeets(rest, p, hit)
    ensures FirstMeets([e] + rest, p, hit)
  {
    hide Meets;
    var i :| 0 <= i < |rest| && rest[i].cidr == hit && Meets(rest[i], p) && forall j :: 0 <= j < i ==> !Meets(rest[j], p);
    var s := [e] + rest;
    assert s[i + 1] == rest[i];
    forall j | 0 <= j < i + 1 ensures !Meets(s[j], p) {
      assert s[j] == if j == 0 then e else rest[j - 1];
    }
  }

  lemma {:induction false} FirstHitExactly(existing: seq<Entry>, norm: Literal, p: Prefix)
    requires EntryPrefix(norm) == Some(p)
    ensures FirstHit(existing, norm).None? <==> forall e :: e in existing ==> !Meets(e, p)
    ensures FirstHit(existing, norm).Some? ==> FirstMeets(existing, p, FirstHit(existing, norm).value)
  {
    if existing != [] {
      assert existing == [existing[0]] + existing[1..];
      FirstHitExactly(existing[1..], norm, p);
      assert Collide(norm, existing[0].cidr) <==> Meets(existing[0], p);
      hide Meets, Collide;
      if Meets(existing[0], p) {
        assert FirstMeets(existing, p, existing[0].cidr);
      } else if FirstHit(existing[1..], norm).Some? {
        hide FirstMeets;
        FirstMeetsLater(existing[0], existing[1..], p, FirstHit(existing[1..], norm).value);
      }
    }
  }

  /** Adding appends one entry to its list, when accepted, and leaves every other list alone. */
  lemma AddedEntries(lists: set<nat>, s: Rows, listId: nat, cidr: Literal, note: string, other: nat)
    ensures var o := AddOutcome(lists, s.entries, listId, cidr, note);
            EntriesOf(Apply(lists, s, AddRow(listId, cidr, note)).entries, other) ==
              EntriesOf(s.entries, other) +
              (if o.Ok? && other == listId then [Entry(s.nextId, listId, o.value, CleanNote(note))] else [])
  {
    hide EntriesOf, AddOutcome;
    var o := AddOutcome(lists, s.entries, listId, cidr, note);
    assert EntriesOf(s.entries, other) + [] == EntriesOf(s.entries, other);
    if o.Ok? {
      var e := Entry(s.nextId, listId, o.value, CleanNote(note));
      EntriesOfAppend(s.entries, [e], other);
      EntriesOfCons(e, [], other);
      NoEntriesOf(other);
      assert [e] + [] == [e];
    }
  }

  /** Replacing one list leaves every other list alone. */
  lemma ReplacedElsewhere(lists: set<nat>, s: Rows, listId: nat, cidrs: seq<Literal>, other: nat)
    requires other != listId
    ensures EntriesOf(Apply(lists, s, ReplaceRows(listId, cidrs)).entries, other) == EntriesOf(s.entries, other)
  {
    hide EntriesOf, OtherLists, Dedupe;
    var added := NewRows(Dedupe(cidrs), listId, s.nextId);
    EntriesOfAppend(OtherLists(s.entries, listId), added, other);
    OthersStay(s.entries, listId, other);
    NoneOf(added, listId, other);
    assert EntriesOf(s.entries, other) + [] == EntriesOf(s.entries, other);
  }

  lemma {:induction false} OthersStay(rows: seq<Entry>, listId: nat, other: nat)
    requires other != listId
    ensures EntriesOf(OtherLists(rows, listId), other) == EntriesOf(rows, other)
  {
    if rows != [] {
      OthersStay(rows[1..], listId, other);
      if rows[0].listId != listId {
        assert OtherLists(rows, listId)[1..] == OtherLists(rows[1..], listId);
      }
    }
  }

  lemma {:induction false} NoneOf(rows: seq<Entry>, listId: nat, other: nat)
    requires other != listId && forall i :: 0 <= i < |rows| ==> rows[i].listId == listId
    ensures EntriesOf(rows, other) == []
  {
    if rows != [] {
      NoneOf(rows[1..], listId, other);
    }
  }

  ghost predicate Same(e: Entry, f: Entry) {
    e == f
  }

  /** Deleting takes the row of that id out of its list and changes nothing else: every list keeps its
      other entries, in order. */
  lemma {:induction false} DeletedEntries(rows: seq<Entry>, id: nat, listId: nat)
    ensures Filters(EntriesOf(rows, listId), EntriesOf(WithoutId(rows, id), listId), (e: Entry) => e.id != id, Same)
  {
    hide Filters;
    var stays := (e: Entry) => e.id != id;
    if rows == [] {
      FiltersNothing<Entry, Entry>(stays, Same);
    } else {
      DeletedEntries(rows[1..], id, listId);
      var e := rows[0];
      assert [e] + rows[1..] == rows;
      if e.id != id {
        assert [e] + WithoutId(rows[1..], id) == WithoutId(rows, id);
        EntriesOfCons(e, WithoutId(rows[1..], id), listId);
      }
      var ys := if e.id != id then [e] else [];
      var left := EntriesOf(WithoutId(rows[1..], id), listId);
      if e.listId == listId {
        FiltersCons(e, EntriesOf(rows[1..], listId), ys, left, stays, Same);
        assert EntriesOf(rows, listId) == [e] + EntriesOf(rows[1..], listId);
        assert EntriesOf(WithoutId(rows, id), listId) == ys + left;
      }
    }
  }

  /** Ids are handed out in ascending order and never twice, so rows stay in id order. */
  ghost predicate FreshIds(s: Rows) {
    && (forall i :: 0 <= i < |s.entries| ==> s.entries[i].id < s.nextId)
    && forall i, j :: 0 <= i < j < |s.entries| ==> s.entries[i].id < s.entries[j].id
  }

  lemma {:induction false} FreshSubset(rows: seq<Entry>, nextId: nat, listId: nat, id: nat)
    requires FreshIds(Rows(rows, nextId))
    ensures FreshIds(Rows(OtherLists(rows, listId), nextId)) && FreshIds(Rows(WithoutId(rows, id), nextId))
    ensures rows != [] ==> forall e :: e in OtherLists(rows, listId) || e in WithoutId(rows, id) ==> e.id >= rows[0].id
  {
    if rows != [] {
      FreshSubset(rows[1..], nextId, listId, id);
      FreshCons(rows[0], rows[1..], OtherLists(rows[1..], listId), nextId);
      FreshCons(rows[0], rows[1..], WithoutId(rows[1..], id), nextId);
    }
  }

  lemma FreshCons(e: Entry, rest: seq<Entry>, left: seq<Entry>, nextId: nat)
    requires FreshIds(Rows([e] + rest, nextId)) && FreshIds(Rows(left, nextId))
    requires rest != [] ==> forall f :: f in left ==> f.id >= rest[0].id
    requires rest == [] ==> left == []
    ensures FreshIds(Rows([e] + left, nextId)) && forall f :: f in [e] + left ==> f.id >= e.id
  {
    if rest != [] {
      assert ([e] + rest)[0].id < ([e] + rest)[1].id;
      forall f | f in left ensures f.id > e.id {}
    }
  }

  lemma OperationKeepsFresh(lists: set<nat>, s: Rows, op: ListOp)
    requires FreshIds(s)
    ensures FreshIds(Apply(lists, s, op)) && s.nextId <= Apply(lists, s, op).nextId
  {
    hide AddOutcome, Dedupe;
    match op
    case AddRow(_, _, _) =>
    case ReplaceRows(l, _) => FreshSubset(s.entries, s.nextId, l, 0);
    case DeleteRow(id) => FreshSubset(s.entries, s.nextId, 0, id);
  }

  /** So over every sequence of operations. */
  lemma {:induction false} IdsAlwaysFresh(lists: set<nat>, s: Rows, ops: seq<ListOp>)
    requires FreshIds(s)
    ensures FreshIds(ApplyAll(lists, s, ops))
    decreases |ops|
  {
    if ops != [] {
      OperationKeepsFresh(lists, s, ops[0]);
      IdsAlwaysFresh(lists, Apply(lists, s, ops[0]), ops[1..]);
    }
  }

  method InsertRows(cidrs: seq<Literal>, listId: nat, nextId: nat) returns (rows: seq<Entry>)
    ensures rows == NewRows(cidrs, listId, nextId)
  {
    rows := [];
    for i := 0 to |cidrs|
      invariant rows == NewRows(cidrs[..i], listId, nextId)
    {
      rows := rows + [Entry(nextId + i, listId, cidrs[i], "")];
    }
    assert cidrs[..|cidrs|] == cidrs;
  }

  /** The store's list tables, updated in place. */
  class ListStore {
    var lists: set<nat>
    var entries: seq<Entry>
    var nextId: nat

    constructor ()
      ensures lists == {} && entries == [] && Valid()
    {
      lists, entries, nextId := {}, [], 1;
    }

    ghost predicate Valid()
      reads this
    {
      ListsSound(entries)
    }

    ghost function State(): Rows
      reads this
    {
      Rows(entries, nextId)
    }

    method ListEntries(listId: nat) returns (out: seq<Entry>)
      ensures out == EntriesOf(entries, listId)
    {
      out := [];
      for i := 0 to |entries|
        invariant out == EntriesOf(entries[..i], listId)
      {
        assert entries[..i + 1] == entries[..i] + [entries[i]];
        EntriesOfAppend(entries[..i], [entries[i]], listId);
        if entries[i].listId == listId {
          out := out + [entries[i]];
        }
      }
      assert entries[..|entries|] == entries;
    }

    method AddListEntry(listId: nat, cidr: Literal, note: string) returns (r: Result<(), ListError>)
      requires Valid()
      modifies this`entries, this`nextId
      ensures Valid()
      ensures State() == Apply(lists, old(State()), AddRow(listId, cidr, note))
      ensures r == match AddOutcome(lists, old(entries), listId, cidr, note) case Ok(_) => Ok(()) case Err(e) => Err(e)
      ensures forall other :: other != listId || r.Err? ==> EntriesOf(entries, other) == EntriesOf(old(entries), other)
      ensures r.Ok? ==> exists norm :: EntriesOf(entries, listId) == EntriesOf(old(entries), listId) + [Entry(old(nextId), listId, norm, CleanNote(note))]
    {
      hide EntriesOf;
      forall other {
        AddedEntries(lists, State(), listId, cidr, note, other);
      }
      OperationKeepsSound(lists, State(), AddRow(listId, cidr, note));
      if listId !in lists {
        return Err(NotFound);
      }
      var norm := NormalizeCIDR(cidr);
      if norm.Err? {
        return Err(norm.error);
      }
      var clean := TrimSpace(NewlinesToSpaces(note));
      if |clean| > 120 {
        return Err(NoteTooLong);
      }
      var existing := ListEntries(listId);
      for i := 0 to |existing|
        invariant FirstHit(existing, norm.value) == FirstHit(existing[i..], norm.value)
      {
        assert existing[i..][0] == existing[i] && existing[i..][1..] == existing[i + 1..];
        var p, q := EntryPrefix(norm.value), EntryPrefix(existing[i].cidr);
        if p.Some? && q.Some? && Overlaps(p.value, q.value) {
          return Err(Overlap(existing[i].cidr));
        }
      }
      entries := entries + [Entry(nextId, listId, norm.value, clean)];
      nextId := nextId + 1;
      return Ok(());
    }

    method ReplaceListEntries(listId: nat, cidrs: seq<Literal>) returns (n: nat)
      requires Valid()
      modifies this`entries, this`nextId
      ensures Valid()
      ensures State() == Apply(lists, old(State()), ReplaceRows(listId, cidrs))
      ensures n == |EntriesOf(entries, listId)|
      ensures EntriesOf(entries, listId) == NewRows(Dedupe(cidrs), listId, old(nextId))
      ensures forall other :: other != listId ==> EntriesOf(entries, other) == EntriesOf(old(entries), other)
    {
      hide Dedupe, ListsSound, EntriesOf;
      forall other | other != listId {
        ReplacedElsewhere(lists, State(), listId, cidrs, other);
      }
      OperationKeepsSound(lists, State(), ReplaceRows(listId, cidrs));
      ReplacedEntries(lists, State(), listId, cidrs);
      var added := DedupePrefixes(cidrs);
      var rows := InsertRows(added, listId, nextId);
      entries := OtherLists(entries, listId) + rows;
      nextId := nextId + |rows|;
      n := |rows|;
    }

    method DeleteListEntry(id: nat) returns (r: Result<(), ListError>)
      requires Valid()
      modifies this`entries
      ensures Valid()
      ensures State() == Apply(lists, old(State()), DeleteRow(id))
      ensures r == if exists e :: e in old(entries) && e.id == id then Ok(()) else Err(NotFound)
      ensures forall l :: Filters(EntriesOf(old(entries), l), EntriesOf(entries, l), (e: Entry) => e.id != id, Same)
    {
      hide Filters, EntriesOf;
      forall l {
        DeletedEntries(entries, id, l);
      }
      OperationKeepsSound(lists, State(), DeleteRow(id));
      SubsetSound(entries, 0, id);
      var kept := WithoutId(entries, id);
      NothingRemoved(entries, id);
      if kept == entries {
        return Err(NotFound);
      }
      entries := kept;
      return Ok(());
    }
  }

  lemma {:induction false} NothingRemoved(rows: seq<Entry>, id: nat)
    ensures |WithoutId(rows, id)| <= |rows|
    ensures WithoutId(rows, id) == rows <==> forall e :: e in rows ==> e.id != id
  {
    if rows != [] {
      NothingRemoved(rows[1..], id);
      assert rows == [rows[0]] + rows[1..];
    }
  }
}
