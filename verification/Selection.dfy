/** Selections: a sequence made of some elements of another one, in order, each carried over in
    some sense. The filters of the program are described with it. */
module Selection {
  /** Some of the first n places, in order. */
  ghost predicate Places(idx: seq<nat>, n: nat) {
    && (forall k :: 0 <= k < |idx| ==> idx[k] < n)
    && forall j, k :: 0 <= j < k < |idx| ==> idx[j] < idx[k]
  }

  /** The places picked are exactly those of the elements that are kept. */
  ghost predicate Picks<A(!new)>(s: seq<A>, idx: seq<nat>, keeps: A -> bool) {
    && Places(idx, |s|)
    && forall i :: 0 <= i < |s| ==> (i in idx <==> keeps(s[i]))
  }

  ghost predicate SameAt<A(!new), B(!new)>(s: seq<A>, out: seq<B>, idx: seq<nat>, same: (A, B) -> bool) {
    |idx| == |out| && forall k :: 0 <= k < |out| ==> idx[k] < |s| && same(s[idx[k]], out[k])
  }

  /** The result has one element for each kept one, in order, that is the same in some sense. */
  ghost predicate Filters<A(!new), B(!new)>(s: seq<A>, out: seq<B>, keeps: A -> bool, same: (A, B) -> bool) {
    exists idx :: Picks(s, idx, keeps) && SameAt(s, out, idx, same)
  }

  // The same places one further on.
  function Later(idx: seq<nat>): (r: seq<nat>) {
    seq(|idx|, k requires 0 <= k < |idx| => idx[k] + 1)
  }

  lemma LaterIn(idx: seq<nat>, i: nat)
    ensures i in Later(idx) <==> i > 0 && i - 1 in idx
  {
    if i in Later(idx) {
      var k :| 0 <= k < |idx| && Later(idx)[k] == i;
      assert idx[k] == i - 1;
    }
    if i > 0 && i - 1 in idx {
      var k :| 0 <= k < |idx| && idx[k] == i - 1;
      assert Later(idx)[k] == i;
    }
  }

  lemma LaterPlaces(idx: seq<nat>, n: nat)
    requires Places(idx, n)
    ensures Places(Later(idx), n + 1) && Places([0] + Later(idx), n + 1)
  {}

  lemma PickedCons<A(!new)>(x: A, s: seq<A>, idx: seq<nat>, keeps: A -> bool, i: nat)
    requires Picks(s, idx, keeps) && i <= |s|
    ensures i in (if keeps(x) then [0] else []) + Later(idx) <==> keeps(([x] + s)[i])
  {
    hide Places, Later;
    LaterIn(idx, i);
    if i > 0 {
      assert ([x] + s)[i] == s[i - 1];
    }
  }

  lemma PicksCons<A(!new)>(x: A, s: seq<A>, idx: seq<nat>, keeps: A -> bool)
    requires Picks(s, idx, keeps)
    ensures Picks([x] + s, (if keeps(x) then [0] else []) + Later(idx), keeps)
  {
    var all := (if keeps(x) then [0] else []) + Later(idx);
    assert Places(all, |s| + 1) by {
      hide Later;
      LaterPlaces(idx, |s|);
      assert [] + Later(idx) == Later(idx);
    }
    forall i | 0 <= i <= |s| ensures i in all <==> keeps(([x] + s)[i]) {
      hide *;
      PickedCons(x, s, idx, keeps, i);
    }
    hide Places, Later;
  }

  lemma FiltersNothing<A(!new), B(!new)>(keeps: A -> bool, same: (A, B) -> bool)
    ensures Filters([], [], keeps, same)
  {
    var idx: seq<nat> := [];
    assert Picks([], idx, keeps) && SameAt([], [], idx, same);
  }

  lemma SameCons<A(!new), B(!new)>(x: A, s: seq<A>, ys: seq<B>, out: seq<B>, first: seq<nat>, idx: seq<nat>, same: (A, B) -> bool)
    requires SameAt(s, out, idx, same)
    requires if ys == [] then first == [] else |ys| == 1 && same(x, ys[0]) && first == [0]
    ensures SameAt([x] + s, ys + out, first + Later(idx), same)
  {
    var all := first + Later(idx);
    forall k | 0 <= k < |ys + out| ensures all[k] < |[x] + s| && same(([x] + s)[all[k]], (ys + out)[k]) {
      if k >= |ys| {
        assert (ys + out)[k] == out[k - |ys|] && all[k] == idx[k - |ys|] + 1;
      }
    }
  }

  /** One more element at the front, kept as ys or not kept. */
  lemma FiltersCons<A(!new), B(!new)>(x: A, s: seq<A>, ys: seq<B>, out: seq<B>, keeps: A -> bool, same: (A, B) -> bool)
    requires Filters(s, out, keeps, same)
    requires if keeps(x) then |ys| == 1 && same(x, ys[0]) else ys == []
    ensures Filters([x] + s, ys + out, keeps, same)
  {
    hide Picks, SameAt;
    var idx :| Picks(s, idx, keeps) && SameAt(s, out, idx, same);
    PicksCons(x, s, idx, keeps);
    SameCons(x, s, ys, out, if keeps(x) then [0] else [], idx, same);
  }
}
