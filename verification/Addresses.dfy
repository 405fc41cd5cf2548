/** IP addresses and CIDR prefixes (section 3.1 of RFC 4632) as (family, number) pairs and
    power-of-two blocks. These are the parts of Go's net/netip the program relies on. */
module Addresses {
  import opened Wrappers

  datatype Family = V4 | V6

  function Width(f: Family): (w: nat) {
    if f.V4? then 32 else 128
  }

  function Pow2(n: nat): (p: nat)
    ensures p > 0
  {
    if n == 0 then 1 else 2 * Pow2(n - 1)
  }

  datatype Addr = Addr(fam: Family, val: nat)

  predicate ValidAddr(a: Addr) {
    a.val < Pow2(Width(a.fam))
  }

  /** A prefix as parsed: `bits` leading bits are significant, the rest may still be set. */
  datatype Prefix = Prefix(addr: Addr, bits: nat)

  predicate ValidPrefix(p: Prefix) {
    ValidAddr(p.addr) && p.bits <= Width(p.addr.fam)
  }

  // The number of addresses a prefix spans.
  function Size(p: Prefix): (s: nat)
    ensures s > 0
  {
    if p.bits <= Width(p.addr.fam) then Pow2(Width(p.addr.fam) - p.bits) else 1
  }

  function Masked(p: Prefix): (m: Prefix)
    ensures ValidPrefix(p) ==> ValidPrefix(m)
    ensures m.bits == p.bits && m.addr.fam == p.addr.fam
  {
    DivDef(p.addr.val, Size(p));
    Prefix(Addr(p.addr.fam, p.addr.val - p.addr.val % Size(p)), p.bits)
  }

  predicate IsMasked(p: Prefix) {
    ValidPrefix(p) && p.addr.val % Size(p) == 0
  }

  // netip.Prefix.Contains: same family and the same leading bits.
  predicate Contains(p: Prefix, a: Addr) {
    a.fam == p.addr.fam && a.val / Size(p) == p.addr.val / Size(p)
  }

  // netip.Prefix.Overlaps: compare both addresses under the shorter mask.
  predicate Overlaps(p: Prefix, q: Prefix) {
    && p.addr.fam == q.addr.fam
    && var shorter := if p.bits <= q.bits then p.bits else q.bits;
       Masked(Prefix(p.addr, shorter)).addr == Masked(Prefix(q.addr, shorter)).addr
  }

  // The containment test dedupePrefixes uses between a cover and a later prefix.
  predicate Covers(c: Prefix, p: Prefix) {
    Contains(c, p.addr) && c.bits <= p.bits
  }

  // netip.Addr.Less: shorter address families first, then by value.
  predicate AddrLess(a: Addr, b: Addr) {
    if a.fam == b.fam then a.val < b.val else a.fam.V4?
  }

  // The sort order of dedupePrefixes: by address, then the shorter prefix first.
  predicate PrefixLess(p: Prefix, q: Prefix) {
    if p.addr != q.addr then AddrLess(p.addr, q.addr) else p.bits < q.bits
  }

  predicate IsLoopback(a: Addr) {
    if a.fam.V4? then a.val / 0x100_0000 == 127 else a.val == 1
  }

  predicate IsUnspecified(a: Addr) {
    a.val == 0
  }

  predicate IsMulticast(a: Addr) {
    if a.fam.V4? then a.val / 0x1000_0000 == 14
    else a.val / 0x1_0000_0000_0000_0000_0000_0000_0000_00 == 0xff
  }

  // ── Division facts ────────────────────────────────────────────────────────

  lemma DivDef(x: nat, d: nat)
    requires d > 0
    ensures x == d * (x / d) + x % d && x % d < d && x % d <= x
  {
    var q := x / d;
    MulAtLeast(d, q);
  }

  lemma MulAtLeast(d: nat, k: nat)
    ensures d * k >= 0
    ensures k >= 1 ==> d * k >= d
  {
    if k >= 1 {
      assert d * k == d * (k - 1) + d;
    }
  }

  // Two ways to write a number as d times something plus a remainder agree.
  lemma QuotientUnique(d: nat, q1: nat, r1: nat, q2: nat, r2: nat)
    requires r1 < d && r2 < d && d * q1 + r1 == d * q2 + r2
    ensures q1 == q2 && r1 == r2
  {
    if q1 < q2 {
      assert d * q2 == d * q1 + d * (q2 - q1);
      MulAtLeast(d, q2 - q1);
    } else if q2 < q1 {
      assert d * q1 == d * q2 + d * (q1 - q2);
      MulAtLeast(d, q1 - q2);
    }
  }

  lemma DivUnique(x: nat, d: nat, q: nat, r: nat)
    requires d > 0 && r < d && x == d * q + r
    ensures x / d == q && x % d == r
  {
    DivDef(x, d);
    QuotientUnique(d, x / d, x % d, q, r);
  }

  lemma DivDiv(x: nat, a: nat, b: nat)
    requires a > 0 && b > 0
    ensures a * b > 0 && (x / a) / b == x / (a * b)
  {
    DivDef(x, a);
    var q, r := x / a, x % a;
    DivDef(q, b);
    var q2, r2 := q / b, q % b;
    MulAtLeast(a, b);
    assert x == (a * b) * q2 + (a * r2 + r) by {
      Distribute(a, b, q2, r2);
    }
    assert a * r2 + r < a * b by {
      Distribute(a, 1, r2, 1);
      SmallerFactor(a, r2, b);
    }
    DivUnique(x, a * b, q2, a * r2 + r);
  }

  lemma Distribute(a: nat, b: nat, q: nat, r: nat)
    ensures a * (b * q + r) == (a * b) * q + a * r
  {}

  lemma SmallerFactor(a: nat, r: nat, b: nat)
    requires r < b
    ensures a * r + a <= a * b
  {
    assert a * b == a * r + a * (b - r);
    MulAtLeast(a, b - r);
  }

  lemma {:induction false} Pow2Add(a: nat, b: nat)
    ensures Pow2(a + b) == Pow2(a) * Pow2(b)
  {
    if a != 0 {
      Pow2Add(a - 1, b);
    }
  }

  // ── Prefix facts ──────────────────────────────────────────────────────────

  /** A masked prefix is the interval [addr, addr + size). */
  lemma ContainsIsInterval(p: Prefix, a: Addr)
    requires IsMasked(p)
    ensures Contains(p, a) <==> a.fam == p.addr.fam && p.addr.val <= a.val < p.addr.val + Size(p)
  {
    IntervalIsBlock(p.addr.val, a.val, Size(p));
  }

  lemma IntervalIsBlock(base: nat, x: nat, s: nat)
    requires s > 0 && base % s == 0
    ensures x / s == base / s <==> base <= x < base + s
  {
    DivDef(base, s);
    DivDef(x, s);
    if base <= x < base + s {
      DivUnique(x, s, base / s, x - base);
    }
  }

  lemma MaskedIsMasked(p: Prefix)
    requires ValidPrefix(p)
    ensures IsMasked(Masked(p))
    ensures IsMasked(p) ==> Masked(p) == p
    ensures Contains(p, Masked(p).addr)
    ensures forall a: Addr :: Contains(Masked(p), a) <==> Contains(p, a)
  {
    var x, s := p.addr.val, Size(p);
    DivDef(x, s);
    DivUnique(x - x % s, s, x / s, 0);
    assert Size(Masked(p)) == s;
  }

  lemma SizeRatio(p: Prefix, q: Prefix)
    requires ValidPrefix(p) && ValidPrefix(q)
    requires p.addr.fam == q.addr.fam && p.bits <= q.bits
    ensures Size(p) == Size(q) * Pow2(q.bits - p.bits)
  {
    Pow2Add(Width(q.addr.fam) - q.bits, q.bits - p.bits);
  }

  /** A prefix that contains the address of a longer prefix contains all of it. */
  lemma CoversContains(p: Prefix, q: Prefix, a: Addr)
    requires ValidPrefix(p) && ValidPrefix(q)
    requires Covers(p, q) && Contains(q, a)
    ensures Contains(p, a)
  {
    var m := Pow2(q.bits - p.bits);
    SizeRatio(p, q);
    DivDiv(a.val, Size(q), m);
    DivDiv(q.addr.val, Size(q), m);
  }

  lemma CoversReflexive(p: Prefix)
    ensures Covers(p, p)
  {}

  lemma CoversTransitive(p: Prefix, q: Prefix, r: Prefix)
    requires ValidPrefix(p) && ValidPrefix(q) && ValidPrefix(r)
    requires Covers(p, q) && Covers(q, r)
    ensures Covers(p, r)
  {
    CoversContains(p, q, r.addr);
  }

  lemma CoversAntisymmetric(p: Prefix, q: Prefix)
    requires IsMasked(p) && IsMasked(q)
    requires Covers(p, q) && Covers(q, p)
    ensures p == q
  {
    ContainsIsInterval(p, q.addr);
    ContainsIsInterval(q, p.addr);
  }

  /** Two blocks that share an address are nested: masked prefixes never overlap partially. */
  lemma NestedOrDisjoint(p: Prefix, q: Prefix, a: Addr)
    requires ValidPrefix(p) && ValidPrefix(q)
    requires Contains(p, a) && Contains(q, a)
    ensures Covers(p, q) || Covers(q, p)
  {
    if p.bits <= q.bits {
      SizeRatio(p, q);
      var m := Pow2(q.bits - p.bits);
      DivDiv(a.val, Size(q), m);
      DivDiv(q.addr.val, Size(q), m);
    } else {
      SizeRatio(q, p);
      var m := Pow2(p.bits - q.bits);
      DivDiv(a.val, Size(p), m);
      DivDiv(p.addr.val, Size(p), m);
    }
  }

  // Equal masks are equal block numbers.
  lemma MaskEqual(x: nat, y: nat, s: nat)
    requires s > 0
    ensures x - x % s == y - y % s <==> x / s == y / s
  {
    assert x - x % s == s * (x / s);
    assert y - y % s == s * (y / s);
    if s * (x / s) == s * (y / s) {
      DivUnique(x - x % s, s, x / s, 0);
      DivUnique(x - x % s, s, y / s, 0);
    }
  }

  // Two addresses have the same mask exactly when the block of one contains the other.
  lemma SameBlock(x: Addr, y: Addr, bits: nat)
    requires x.fam == y.fam
    ensures Masked(Prefix(x, bits)).addr == Masked(Prefix(y, bits)).addr <==> Contains(Prefix(x, bits), y)
    ensures Contains(Prefix(x, bits), y) <==> Contains(Prefix(y, bits), x)
  {
    MaskEqual(x.val, y.val, Size(Prefix(x, bits)));
  }

  /** Overlaps as net/netip computes it is exactly nesting of the two blocks. */
  lemma OverlapsIsNesting(p: Prefix, q: Prefix)
    requires ValidPrefix(p) && ValidPrefix(q)
    ensures Overlaps(p, q) <==> Covers(p, q) || Covers(q, p)
  {
    ContainsFamily(p, q.addr);
    ContainsFamily(q, p.addr);
    hide Masked, Contains, Size;
    if p.addr.fam == q.addr.fam {
      SameBlock(p.addr, q.addr, p.bits);
      SameBlock(q.addr, p.addr, q.bits);
      assert Prefix(p.addr, p.bits) == p && Prefix(q.addr, q.bits) == q;
    }
  }

  lemma ContainsFamily(p: Prefix, a: Addr)
    ensures Contains(p, a) ==> p.addr.fam == a.fam
  {}

  /** Overlaps means sharing an address. */
  lemma OverlapsIsSharing(p: Prefix, q: Prefix)
    requires ValidPrefix(p) && ValidPrefix(q)
    ensures Overlaps(p, q) <==> exists a: Addr :: ValidAddr(a) && Contains(p, a) && Contains(q, a)
  {
    OverlapsIsNesting(p, q);
    if Covers(p, q) {
      assert ValidAddr(q.addr) && Contains(p, q.addr) && Contains(q, q.addr);
    } else if Covers(q, p) {
      assert ValidAddr(p.addr) && Contains(p, p.addr) && Contains(q, p.addr);
    } else if a: Addr :| ValidAddr(a) && Contains(p, a) && Contains(q, a) {
      NestedOrDisjoint(p, q, a);
    }
  }

  /** The order used by the one-pass de-overlap: if an earlier prefix covers a later one, it
      covers every prefix sorted in between. */
  lemma CoverReachesBetween(k: Prefix, c: Prefix, p: Prefix)
    requires IsMasked(k) && IsMasked(c) && IsMasked(p)
    requires PrefixLess(k, c) && (PrefixLess(c, p) || c == p)
    requires Covers(k, p)
    ensures Covers(k, c)
  {
    ContainsIsInterval(k, p.addr);
    ContainsIsInterval(k, c.addr);
    if c.bits < k.bits {
      // c would be the larger block, yet it starts inside k: then both start at k
      LargerBlockStart(k, c);
    }
  }

  // A larger block that starts inside a masked block starts where that block does.
  lemma LargerBlockStart(k: Prefix, c: Prefix)
    requires IsMasked(k) && IsMasked(c)
    requires c.bits < k.bits && Contains(k, c.addr)
    ensures c.addr == k.addr
  {
    SizeRatio(c, k);
    BlockStart(k.addr.val, c.addr.val, Size(k), Pow2(k.bits - c.bits));
  }

  lemma BlockStart(x: nat, y: nat, s: nat, m: nat)
    requires s > 0 && m > 0 && s * m > 0
    requires x % s == 0 && y % (s * m) == 0 && y / s == x / s
    ensures x == y
  {
    DivDef(x, s);
    DivDef(y, s * m);
    var j := y / (s * m);
    Distribute(s, m, j, 0);
    DivUnique(y, s, m * j, 0);
  }

  /** Covers means inclusion: every address of the one is an address of the other. */
  lemma CoversIsInclusion(p: Prefix, q: Prefix)
    requires ValidPrefix(p) && ValidPrefix(q)
    ensures Covers(p, q) <==> forall a: Addr :: ValidAddr(a) && Contains(q, a) ==> Contains(p, a)
  {
    if Covers(p, q) {
      forall a: Addr | ValidAddr(a) && Contains(q, a) ensures Contains(p, a) {
        CoversContains(p, q, a);
      }
    } else if forall a: Addr :: ValidAddr(a) && Contains(q, a) ==> Contains(p, a) {
      assert Contains(p, q.addr);
      StrictlyLarger(p, q);
    }
  }

  // A block with fewer significant bits holds an address outside any smaller block.
  lemma StrictlyLarger(p: Prefix, q: Prefix)
    requires ValidPrefix(p) && ValidPrefix(q) && p.addr.fam == q.addr.fam
    requires q.bits < p.bits
    ensures exists a: Addr :: ValidAddr(a) && Contains(q, a) && !Contains(p, a)
  {
    MaskedIsMasked(q);
    var m := Masked(q);
    SizeRatio(q, p);
    var s := Size(p);
    assert Pow2(p.bits - q.bits) >= 2;
    assert Size(q) >= 2 * s by { SmallerFactor(s, 1, Pow2(p.bits - q.bits)); }
    var far := Addr(q.addr.fam, m.addr.val + s);
    ContainsIsInterval(m, far);
    ContainsIsInterval(m, m.addr);
    assert Contains(q, far) && Contains(q, m.addr);
    InRange(m);
    if Contains(p, far) && Contains(p, m.addr) {
      DivDef(far.val, s);
      DivDef(m.addr.val, s);
      assert false;
    }
  }

  // The last address of a masked prefix is still an address of its family.
  lemma InRange(m: Prefix)
    requires IsMasked(m)
    ensures m.addr.val + Size(m) <= Pow2(Width(m.addr.fam))
  {
    Pow2Add(Width(m.addr.fam) - m.bits, m.bits);
    LastMultiple(m.addr.val, Size(m), Pow2(m.bits));
  }

  lemma LastMultiple(x: nat, s: nat, k: nat)
    requires s > 0 && x % s == 0 && x < s * k
    ensures x + s <= s * k
  {
    DivDef(x, s);
    var j := x / s;
    if j < k {
      SmallerFactor(s, j, k);
    } else {
      Distribute(s, 1, k, j - k);
      MulAtLeast(s, j - k);
    }
  }
}
