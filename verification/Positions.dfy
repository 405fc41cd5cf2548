/** Ordered rows (internal/store/model.go, store.go): integer positions within a scope stand for a
    sequence. A table of rows is kept by chain, table or, for the tables themselves, one common
    scope; every listing is read ORDER BY position, id. */
module Positions {
  import opened Wrappers
  import opened Model
  import Selection

  datatype Row<T> = Row(id: nat, scope: nat, pos: int, data: T)

  datatype Item<T> = Item(id: nat, data: T)

  // ── Reading in order ──────────────────────────────────────────────────────

  predicate Before<T>(x: Row<T>, y: Row<T>) {
    x.pos < y.pos || (x.pos == y.pos && x.id < y.id)
  }

  function Insert<T>(r: Row<T>, s: seq<Row<T>>): (t: seq<Row<T>>) {
    if s == [] then [r]
    else if Before(r, s[0]) then [r] + s
    else [s[0]] + Insert(r, s[1..])
  }

  // SELECT ... WHERE scope = ? ORDER BY position, id
  function Listing<T>(rows: seq<Row<T>>, scope: nat): (s: seq<Row<T>>) {
    if rows == [] then []
    else if rows[0].scope == scope then Insert(rows[0], Listing(rows[1..], scope))
    else Listing(rows[1..], scope)
  }

  function ItemOf<T>(r: Row<T>): (i: Item<T>) {
    Item(r.id, r.data)
  }

  function ItemsOf<T>(s: seq<Row<T>>): (t: seq<Item<T>>)
    ensures |t| == |s|
    ensures forall k :: 0 <= k < |s| ==> t[k] == ItemOf(s[k])
  {
    seq(|s|, k requires 0 <= k < |s| => ItemOf(s[k]))
  }

  /** What a reader of the scope sees, positions aside. */
  function Items<T>(rows: seq<Row<T>>, scope: nat): (t: seq<Item<T>>) {
    ItemsOf(Listing(rows, scope))
  }

  ghost predicate DistinctIds<T(!new)>(rows: seq<Row<T>>) {
    forall i, j :: 0 <= i < j < |rows| ==> rows[i].id != rows[j].id
  }

  ghost predicate DistinctPositions<T(!new)>(rows: seq<Row<T>>) {
    forall i, j :: 0 <= i < j < |rows| && rows[i].scope == rows[j].scope ==> rows[i].pos != rows[j].pos
  }

  ghost predicate Sound<T(!new)>(rows: seq<Row<T>>, nextId: nat) {
    DistinctIds(rows) && DistinctPositions(rows) && forall r :: r in rows ==> r.id < nextId
  }

  ghost predicate Sorted<T(!new)>(s: seq<Row<T>>) {
    forall i, j :: 0 <= i < j < |s| ==> Before(s[i], s[j])
  }

  lemma {:induction false} InsertSorted<T(!new)>(r: Row<T>, s: seq<Row<T>>)
    requires Sorted(s) && forall x :: x in s ==> x.id != r.id
    ensures Sorted(Insert(r, s))
    ensures forall x :: x in Insert(r, s) <==> x == r || x in s
  {
    if s != [] && !Before(r, s[0]) {
      InsertSorted(r, s[1..]);
      var t := Insert(r, s[1..]);
      assert s == [s[0]] + s[1..] && s[0] in s;
      forall x | x in s[1..] ensures Before(s[0], x) {
        var k :| 0 <= k < |s[1..]| && s[1..][k] == x;
        assert s[k + 1] == x;
      }
      forall j | 0 <= j < |t| ensures Before(s[0], t[j]) {
        assert t[j] in t;
      }
    }
  }

  lemma {:induction false} ListingSorted<T(!new)>(rows: seq<Row<T>>, scope: nat)
    requires DistinctIds(rows)
    ensures Sorted(Listing(rows, scope))
    ensures forall r :: r in Listing(rows, scope) <==> r in rows && r.scope == scope
    ensures forall k :: 0 <= k < |Listing(rows, scope)| ==> Listing(rows, scope)[k] in rows && Listing(rows, scope)[k].scope == scope
  {
    var l := Listing(rows, scope);
    if rows != [] {
      ListingSorted(rows[1..], scope);
      assert rows == [rows[0]] + rows[1..];
      if rows[0].scope == scope {
        forall x | x in rows[1..] ensures x.id != rows[0].id {
          var k :| 0 <= k < |rows[1..]| && rows[1..][k] == x;
          assert rows[k + 1] == x;
        }
        InsertSorted(rows[0], Listing(rows[1..], scope));
      }
    }
    assert forall r :: r in l <==> r in rows && r.scope == scope;
    forall k | 0 <= k < |l| ensures l[k] in rows && l[k].scope == scope {
      assert l[k] in l;
    }
  }

  lemma {:induction false} SortedByContent<T(!new)>(s: seq<Row<T>>, t: seq<Row<T>>)
    requires Sorted(s) && Sorted(t) && forall r :: r in s <==> r in t
    ensures s == t
  {
    SameEmpty(s, t);
    if s != [] {
      assert s[0] in t && t[0] in s;
      if s[0] != t[0] {
        // each would sort strictly before the other
        assert false;
      }
      assert s == [s[0]] + s[1..] && t == [t[0]] + t[1..];
      forall r ensures r in s[1..] <==> r in t[1..] {
        if r in s[1..] {
          assert r in s && Before(s[0], r);
        }
        if r in t[1..] {
          assert r in t && Before(t[0], r);
        }
      }
      SortedByContent(s[1..], t[1..]);
    }
  }

  /** A listing is known from its content: any sorted sequence of the scope's rows is it. */
  lemma ListingIs<T(!new)>(rows: seq<Row<T>>, scope: nat, s: seq<Row<T>>)
    requires DistinctIds(rows) && Sorted(s)
    requires forall r :: r in s <==> r in rows && r.scope == scope
    ensures Listing(rows, scope) == s
  {
    ListingSorted(rows, scope);
    SortedByContent(Listing(rows, scope), s);
  }

  lemma SameScope<T(!new)>(rows: seq<Row<T>>, changed: seq<Row<T>>, scope: nat)
    requires DistinctIds(rows) && DistinctIds(changed)
    requires forall r: Row<T> :: r.scope == scope ==> (r in rows <==> r in changed)
    ensures Listing(changed, scope) == Listing(rows, scope)
  {
    ListingSorted(rows, scope);
    ListingIs(changed, scope, Listing(rows, scope));
  }

  lemma SortedAppend<T(!new)>(s: seq<Row<T>>, t: seq<Row<T>>)
    requires Sorted(s) && Sorted(t)
    requires forall i, j :: 0 <= i < |s| && 0 <= j < |t| ==> s[i].pos < t[j].pos
    ensures Sorted(s + t)
  {}

  // ── Creating ──────────────────────────────────────────────────────────────

  // COALESCE(MAX(position), 0) + 1 over the scope
  function MaxPosition<T>(rows: seq<Row<T>>, scope: nat): (m: Option<int>)
    ensures m.None? <==> forall r :: r in rows ==> r.scope != scope
    ensures m.Some? ==> forall r :: r in rows && r.scope == scope ==> r.pos <= m.value
  {
    if rows == [] then None
    else
      var rest := MaxPosition(rows[1..], scope);
      assert rows == [rows[0]] + rows[1..];
      if rows[0].scope != scope then rest
      else if rest.None? || rest.value < rows[0].pos then Some(rows[0].pos)
      else rest
  }

  function MinPosition<T>(rows: seq<Row<T>>, scope: nat): (m: Option<int>)
    ensures m.None? <==> forall r :: r in rows ==> r.scope != scope
    ensures m.Some? ==> forall r :: r in rows && r.scope == scope ==> m.value <= r.pos
  {
    if rows == [] then None
    else
      var rest := MinPosition(rows[1..], scope);
      assert rows == [rows[0]] + rows[1..];
      if rows[0].scope != scope then rest
      else if rest.None? || rows[0].pos < rest.value then Some(rows[0].pos)
      else rest
  }

  function TailPosition<T>(rows: seq<Row<T>>, scope: nat): (p: int)
    ensures forall r :: r in rows && r.scope == scope ==> r.pos < p
  {
    match MaxPosition(rows, scope)
    case None => 0 + 1
    case Some(m) => m + 1
  }

  function HeadPosition<T>(rows: seq<Row<T>>, scope: nat): (p: int)
    ensures forall r :: r in rows && r.scope == scope ==> p < r.pos
  {
    match MinPosition(rows, scope)
    case None => 1 - 1
    case Some(m) => m - 1
  }

  function Created<T>(rows: seq<Row<T>>, id: nat, scope: nat, data: T, atStart: bool): (s: seq<Row<T>>) {
    rows + [Row(id, scope, if atStart then HeadPosition(rows, scope) else TailPosition(rows, scope), data)]
  }

  lemma CreatedSound<T(!new)>(rows: seq<Row<T>>, nextId: nat, scope: nat, data: T, atStart: bool)
    requires Sound(rows, nextId)
    ensures Sound(Created(rows, nextId, scope, data, atStart), nextId + 1)
  {
    hide TailPosition, HeadPosition;
    var out := Created(rows, nextId, scope, data, atStart);
    forall i, j | 0 <= i < j < |out| ensures out[i].id != out[j].id && (out[i].scope == out[j].scope ==> out[i].pos != out[j].pos) {
      assert out[i] in rows;
    }
  }

  /** Creating appends to, or prepends to, exactly its own scope. */
  lemma CreatedItems<T(!new)>(rows: seq<Row<T>>, nextId: nat, scope: nat, data: T, atStart: bool, s: nat)
    requires Sound(rows, nextId)
    ensures Items(Created(rows, nextId, scope, data, atStart), s) ==
              if s != scope then Items(rows, s)
              else if atStart then [Item(nextId, data)] + Items(rows, s)
              else Items(rows, s) + [Item(nextId, data)]
  {
    hide TailPosition, HeadPosition, Listing, Sorted, Sound, DistinctIds;
    CreatedSound(rows, nextId, scope, data, atStart);
    var r := Created(rows, nextId, scope, data, atStart)[|rows|];
    SoundIds(rows, nextId);
    SoundIds(rows + [r], nextId + 1);
    if s != scope {
      AddedElsewhere(rows, r, s);
    } else if atStart {
      AddedFirst(rows, r);
    } else {
      AddedLast(rows, r);
    }
  }

  lemma SoundIds<T(!new)>(rows: seq<Row<T>>, nextId: nat)
    requires Sound(rows, nextId)
    ensures DistinctIds(rows)
  {}

  lemma AddedElsewhere<T(!new)>(rows: seq<Row<T>>, r: Row<T>, s: nat)
    requires DistinctIds(rows + [r]) && DistinctIds(rows) && r.scope != s
    ensures Items(rows + [r], s) == Items(rows, s)
  {
    hide Listing, DistinctIds;
    SameScope(rows, rows + [r], s);
  }

  lemma AddedFirst<T(!new)>(rows: seq<Row<T>>, r: Row<T>)
    requires DistinctIds(rows + [r]) && DistinctIds(rows)
    requires forall x :: x in rows && x.scope == r.scope ==> r.pos < x.pos
    ensures Items(rows + [r], r.scope) == [ItemOf(r)] + Items(rows, r.scope)
  {
    hide Listing, DistinctIds, Sorted;
    var l := Listing(rows, r.scope);
    ListingSorted(rows, r.scope);
    SortedOne(r);
    SortedAppend([r], l);
    ListingIs(rows + [r], r.scope, [r] + l);
  }

  lemma AddedLast<T(!new)>(rows: seq<Row<T>>, r: Row<T>)
    requires DistinctIds(rows + [r]) && DistinctIds(rows)
    requires forall x :: x in rows && x.scope == r.scope ==> x.pos < r.pos
    ensures Items(rows + [r], r.scope) == Items(rows, r.scope) + [ItemOf(r)]
  {
    hide Listing, DistinctIds, Sorted;
    var l := Listing(rows, r.scope);
    ListingSorted(rows, r.scope);
    SortedOne(r);
    SortedAppend(l, [r]);
    ListingIs(rows + [r], r.scope, l + [r]);
  }

  lemma SortedOne<T(!new)>(r: Row<T>)
    ensures Sorted([r])
  {}

  // ── Updating one row ──────────────────────────────────────────────────────

  function Put<T>(r: Row<T>, to: Option<nat>, pos: int): (q: Row<T>) {
    r.(scope := if to.Some? then to.value else r.scope, pos := pos)
  }

  // UPDATE ... SET position = ? WHERE id = ?, with the scope column too when a target is given
  function Placed<T>(rows: seq<Row<T>>, id: nat, to: Option<nat>, pos: int): (s: seq<Row<T>>)
    ensures |s| == |rows|
    ensures forall k :: 0 <= k < |rows| ==> s[k] == if rows[k].id == id then Put(rows[k], to, pos) else rows[k]
  {
    seq(|rows|, k requires 0 <= k < |rows| => if rows[k].id == id then Put(rows[k], to, pos) else rows[k])
  }

  function Find<T>(rows: seq<Row<T>>, id: nat): (r: Option<Row<T>>)
    ensures r.Some? ==> r.value in rows && r.value.id == id
    ensures r.None? ==> forall x :: x in rows ==> x.id != id
  {
    if rows == [] then None
    else if rows[0].id == id then Some(rows[0])
    else Find(rows[1..], id)
  }

  lemma FindUnique<T(!new)>(rows: seq<Row<T>>, r: Row<T>)
    requires DistinctIds(rows) && r in rows
    ensures Find(rows, r.id) == Some(r)
  {
    var f := Find(rows, r.id);
    var i :| 0 <= i < |rows| && rows[i] == r;
    if f.Some? {
      var j :| 0 <= j < |rows| && rows[j] == f.value;
      assert i == j;
    }
  }

  // After an update the row stands at its new place and every other row is as before.
  lemma PlacedContent<T(!new)>(rows: seq<Row<T>>, was: Row<T>, to: Option<nat>, pos: int)
    requires DistinctIds(rows) && was in rows
    ensures DistinctIds(Placed(rows, was.id, to, pos))
    ensures forall x :: x in Placed(rows, was.id, to, pos) <==> x == Put(was, to, pos) || (x in rows && x != was)
  {
    var out := Placed(rows, was.id, to, pos);
    var at :| 0 <= at < |rows| && rows[at] == was;
    assert out[at] == Put(was, to, pos);
    forall x ensures x in out <==> x == Put(was, to, pos) || (x in rows && x != was) {
      if x in out {
        var k :| 0 <= k < |out| && out[k] == x;
        if k != at {
          assert rows[k] == x && rows[k].id != rows[at].id;
        }
      }
      if x in rows && x != was {
        var k :| 0 <= k < |rows| && rows[k] == x;
        assert out[k] == x;
      }
    }
  }

  // ── Moving ────────────────────────────────────────────────────────────────

  // q lies in the direction of travel from pos.
  predicate Ahead<T>(q: Row<T>, scope: nat, pos: int, dir: int) {
    q.scope == scope && if dir < 0 then q.pos < pos else q.pos > pos
  }

  // ORDER BY position (DESC when moving up), id
  predicate Nearer<T>(x: Row<T>, y: Row<T>, dir: int) {
    if x.pos == y.pos then x.id < y.id
    else if dir < 0 then x.pos > y.pos
    else x.pos < y.pos
  }

  // The neighbour query: LIMIT 1 of the rows ahead.
  function Neighbour<T>(rows: seq<Row<T>>, scope: nat, pos: int, dir: int): (r: Option<Row<T>>)
    ensures r.Some? ==> r.value in rows && Ahead(r.value, scope, pos, dir)
    ensures r.None? ==> forall q :: q in rows ==> !Ahead(q, scope, pos, dir)
  {
    if rows == [] then None
    else
      var rest := Neighbour(rows[1..], scope, pos, dir);
      assert rows == [rows[0]] + rows[1..];
      if !Ahead(rows[0], scope, pos, dir) then rest
      else if rest.None? || Nearer(rows[0], rest.value, dir) then Some(rows[0])
      else rest
  }

  lemma {:induction false} NeighbourNearest<T(!new)>(rows: seq<Row<T>>, scope: nat, pos: int, dir: int, q: Row<T>)
    requires q in rows && Ahead(q, scope, pos, dir)
    ensures Neighbour(rows, scope, pos, dir).Some?
    ensures !Nearer(q, Neighbour(rows, scope, pos, dir).value, dir)
  {
    assert rows == [rows[0]] + rows[1..];
    if q in rows[1..] {
      NeighbourNearest(rows[1..], scope, pos, dir, q);
    }
  }

  function Moved<T>(rows: seq<Row<T>>, id: nat, dir: int): (s: seq<Row<T>>) {
    match Find(rows, id)
    case None => rows
    case Some(r) =>
      match Neighbour(rows, r.scope, r.pos, dir)
      case None => rows
      case Some(q) => Placed(Placed(rows, id, None, q.pos), q.id, None, r.pos)
  }

  function IndexOf<T>(items: seq<Item<T>>, id: nat): (k: Option<nat>)
    ensures k.Some? ==> k.value < |items| && items[k.value].id == id
    ensures k.None? ==> forall i :: i in items ==> i.id != id
  {
    if items == [] then None
    else if items[0].id == id then Some(0)
    else
      var rest := IndexOf(items[1..], id);
      if rest.None? then None else Some(rest.value + 1)
  }

  function SwapNext<S>(s: seq<S>, k: nat): (t: seq<S>)
    requires k + 1 < |s|
    ensures |t| == |s|
  {
    s[k := s[k + 1]][k + 1 := s[k]]
  }

  /** Moving on a sequence: exchange the item with its neighbour, if there is one. */
  function Swapped<T>(items: seq<Item<T>>, id: nat, dir: int): (t: seq<Item<T>>) {
    match IndexOf(items, id)
    case None => items
    case Some(k) =>
      if dir < 0 then (if k > 0 then SwapNext(items, k - 1) else items)
      else if k + 1 < |items| then SwapNext(items, k)
      else items
  }

  lemma ListingPositions<T(!new)>(rows: seq<Row<T>>, nextId: nat, scope: nat)
    requires Sound(rows, nextId)
    ensures forall k :: 0 <= k < |Listing(rows, scope)| ==> Listing(rows, scope)[k] in rows && Listing(rows, scope)[k].scope == scope
    ensures forall i, j :: 0 <= i < j < |Listing(rows, scope)| ==>
      Listing(rows, scope)[i].pos < Listing(rows, scope)[j].pos && Listing(rows, scope)[i].id != Listing(rows, scope)[j].id
  {
    ListingSorted(rows, scope);
    var l := Listing(rows, scope);
    forall i, j | 0 <= i < j < |l| ensures l[i].pos < l[j].pos && l[i].id != l[j].id {
      assert Before(l[i], l[j]);
      assert l[i] in l && l[j] in l;
      var x :| 0 <= x < |rows| && rows[x] == l[i];
      var y :| 0 <= y < |rows| && rows[y] == l[j];
      assert x != y;
    }
  }

  lemma ExchangeSorted<T(!new)>(l: seq<Row<T>>, k: nat, y: Row<T>, x: Row<T>)
    requires k + 1 < |l| && forall i, j :: 0 <= i < j < |l| ==> l[i].pos < l[j].pos
    requires y.pos == l[k].pos && x.pos == l[k + 1].pos
    ensures Sorted(l[k := y][k + 1 := x])
  {
    var t := l[k := y][k + 1 := x];
    assert forall i :: 0 <= i < |l| ==> t[i].pos == l[i].pos;
  }

  lemma ExchangeContent<T(!new)>(l: seq<Row<T>>, k: nat, y: Row<T>, x: Row<T>, r: Row<T>)
    requires k + 1 < |l| && forall i, j :: 0 <= i < j < |l| ==> l[i].id != l[j].id
    ensures r in l[k := y][k + 1 := x] <==> r == y || r == x || (r in l && r != l[k] && r != l[k + 1])
  {
    var t := l[k := y][k + 1 := x];
    assert t[k] == y && t[k + 1] == x;
    if r in l && r != l[k] && r != l[k + 1] {
      var i :| 0 <= i < |l| && l[i] == r;
      assert t[i] == r;
    }
    if r in t && r != y && r != x {
      var i :| 0 <= i < |t| && t[i] == r;
      assert l[i] == r;
      assert i != k && i != k + 1;
    }
  }

  function Exchanged<T>(rows: seq<Row<T>>, x: Row<T>, y: Row<T>): (s: seq<Row<T>>) {
    Placed(Placed(rows, x.id, None, y.pos), y.id, None, x.pos)
  }

  lemma ExchangeRows<T(!new)>(rows: seq<Row<T>>, x: Row<T>, y: Row<T>)
    requires DistinctIds(rows) && x in rows && y in rows && x.id != y.id
    ensures DistinctIds(Exchanged(rows, x, y))
    ensures forall r :: r in Exchanged(rows, x, y) <==>
      r == Put(y, None, x.pos) || r == Put(x, None, y.pos) || (r in rows && r != x && r != y)
    ensures Exchanged(rows, x, y) == Exchanged(rows, y, x)
  {
    hide Placed;
    PlacedContent(rows, x, None, y.pos);
    PlacedContent(Placed(rows, x.id, None, y.pos), y, None, x.pos);
    ExchangeCommutes(rows, x, y);
  }

  lemma ExchangeCommutes<T(!new)>(rows: seq<Row<T>>, x: Row<T>, y: Row<T>)
    requires x.id != y.id
    ensures Exchanged(rows, x, y) == Exchanged(rows, y, x)
  {}

  // Exchanging the positions of two rows that are next to each other in the listing.
  lemma ExchangeItems<T(!new)>(rows: seq<Row<T>>, nextId: nat, scope: nat, k: nat)
    requires Sound(rows, nextId) && k + 1 < |Listing(rows, scope)|
    ensures var l := Listing(rows, scope);
      Items(Exchanged(rows, l[k], l[k + 1]), scope) == SwapNext(Items(rows, scope), k)
  {
    hide Listing, Sorted, Exchanged;
    var l := Listing(rows, scope);
    ListingSorted(rows, scope);
    ListingPositions(rows, nextId, scope);
    var x, y := l[k], l[k + 1];
    ExchangeRows(rows, x, y);
    var out := Exchanged(rows, x, y);
    var x2, y2 := Put(x, None, y.pos), Put(y, None, x.pos);
    var swapped := l[k := y2][k + 1 := x2];
    ExchangeSorted(l, k, y2, x2);
    forall r ensures r in swapped <==> r in out && r.scope == scope {
      ExchangeContent(l, k, y2, x2, r);
    }
    ListingIs(out, scope, swapped);
  }

  lemma ExchangeElsewhere<T(!new)>(rows: seq<Row<T>>, x: Row<T>, y: Row<T>, s: nat)
    requires DistinctIds(rows) && x in rows && y in rows && x.id != y.id && x.scope == y.scope != s
    ensures Items(Exchanged(rows, x, y), s) == Items(rows, s)
  {
    hide Listing, Exchanged;
    ExchangeRows(rows, x, y);
    SameScope(rows, Exchanged(rows, x, y), s);
  }

  lemma ExchangeSound<T(!new)>(rows: seq<Row<T>>, nextId: nat, x: Row<T>, y: Row<T>)
    requires Sound(rows, nextId) && x in rows && y in rows && x.id != y.id && x.scope == y.scope
    ensures Sound(Exchanged(rows, x, y), nextId)
  {
    ExchangeRows(rows, x, y);
    ExchangePositions(rows, x, y);
    hide DistinctIds, DistinctPositions, Exchanged;
  }

  lemma ExchangePositions<T(!new)>(rows: seq<Row<T>>, x: Row<T>, y: Row<T>)
    requires DistinctIds(rows) && DistinctPositions(rows) && x in rows && y in rows && x.id != y.id && x.scope == y.scope
    ensures DistinctPositions(Exchanged(rows, x, y))
  {
    var out := Exchanged(rows, x, y);
    forall k | 0 <= k < |rows| ensures out[k] == (if rows[k] == x then Put(x, None, y.pos) else if rows[k] == y then Put(y, None, x.pos) else rows[k]) {
      ById(rows, rows[k], x);
      ById(rows, rows[k], y);
    }
    hide Exchanged, DistinctIds;
    var i :| 0 <= i < |rows| && rows[i] == x;
    var j :| 0 <= j < |rows| && rows[j] == y;
    forall a, b | 0 <= a < b < |rows| && out[a].scope == out[b].scope ensures out[a].pos != out[b].pos {
      assert rows[a].scope == rows[b].scope;
    }
  }

  lemma ById<T(!new)>(rows: seq<Row<T>>, r: Row<T>, x: Row<T>)
    requires DistinctIds(rows) && r in rows && x in rows
    ensures r.id == x.id <==> r == x
  {
    var i :| 0 <= i < |rows| && rows[i] == r;
    var j :| 0 <= j < |rows| && rows[j] == x;
  }

  // The neighbour query finds the adjacent row of the listing.
  lemma NeighbourIsAdjacent<T(!new)>(rows: seq<Row<T>>, nextId: nat, scope: nat, k: nat, dir: int)
    requires Sound(rows, nextId) && k < |Listing(rows, scope)|
    ensures var l := Listing(rows, scope);
      Neighbour(rows, scope, l[k].pos, dir) ==
        if dir < 0 then (if k > 0 then Some(l[k - 1]) else None)
        else if k + 1 < |l| then Some(l[k + 1])
        else None
  {
    hide Listing, Neighbour;
    var l := Listing(rows, scope);
    ListingSorted(rows, scope);
    ListingPositions(rows, nextId, scope);
    var n := Neighbour(rows, scope, l[k].pos, dir);
    if dir < 0 && k > 0 {
      NeighbourNearest(rows, scope, l[k].pos, dir, l[k - 1]);
    }
    if dir >= 0 && k + 1 < |l| {
      NeighbourNearest(rows, scope, l[k].pos, dir, l[k + 1]);
    }
    if n.Some? {
      assert n.value in l;
      var m :| 0 <= m < |l| && l[m] == n.value;
    }
  }

  // Where an item stands in a listing that has its row.
  lemma IndexOfRow<T(!new)>(rows: seq<Row<T>>, nextId: nat, scope: nat, k: nat)
    requires Sound(rows, nextId) && k < |Listing(rows, scope)|
    ensures IndexOf(Items(rows, scope), Listing(rows, scope)[k].id) == Some(k)
  {
    hide Listing;
    ListingPositions(rows, nextId, scope);
    UniqueIndex(Items(rows, scope), k);
  }

  lemma {:induction false} UniqueIndex<T(!new)>(items: seq<Item<T>>, k: nat)
    requires k < |items| && forall i, j :: 0 <= i < j < |items| ==> items[i].id != items[j].id
    ensures IndexOf(items, items[k].id) == Some(k)
  {
    if k > 0 {
      assert items[0].id != items[k].id;
      UniqueIndex(items[1..], k - 1);
    }
  }

  lemma NotInScope<T(!new)>(rows: seq<Row<T>>, scope: nat, id: nat)
    requires DistinctIds(rows) && forall r :: r in rows && r.id == id ==> r.scope != scope
    ensures IndexOf(Items(rows, scope), id) == None
  {
    hide Listing;
    ListingSorted(rows, scope);
    var l := Listing(rows, scope);
    assert forall k :: 0 <= k < |l| ==> l[k].id != id;
  }

  /** Moving exchanges the row with its neighbour in its own scope and touches nothing else. */
  lemma MovedItems<T(!new)>(rows: seq<Row<T>>, nextId: nat, id: nat, dir: int, s: nat)
    requires Sound(rows, nextId)
    ensures Items(Moved(rows, id, dir), s) == Swapped(Items(rows, s), id, dir)
  {
    hide Listing, Exchanged, Neighbour, Items, IndexOf, Placed, Sound;
    match Find(rows, id)
    case None =>
      SoundIds(rows, nextId);
      NotInScope(rows, s, id);
    case Some(r) =>
      SoundIds(rows, nextId);
      if r.scope != s {
        MoveElsewhere(rows, r, dir, s);
      } else {
        ListingSorted(rows, s);
        var k :| 0 <= k < |Listing(rows, s)| && Listing(rows, s)[k] == r;
        MoveInside(rows, nextId, s, k, dir);
      }
  }

  lemma MoveElsewhere<T(!new)>(rows: seq<Row<T>>, r: Row<T>, dir: int, s: nat)
    requires DistinctIds(rows) && Find(rows, r.id) == Some(r) && r.scope != s
    ensures Items(Moved(rows, r.id, dir), s) == Items(rows, s)
    ensures IndexOf(Items(rows, s), r.id) == None
  {
    hide Listing, Neighbour, Items, IndexOf;
    forall x | x in rows && x.id == r.id ensures x.scope != s {
      ById(rows, x, r);
    }
    NotInScope(rows, s, r.id);
    match Neighbour(rows, r.scope, r.pos, dir)
    case None =>
    case Some(q) =>
      ById(rows, q, r);
      ExchangeElsewhere(rows, r, q, s);
  }

  lemma MoveInside<T(!new)>(rows: seq<Row<T>>, nextId: nat, s: nat, k: nat, dir: int)
    requires Sound(rows, nextId) && k < |Listing(rows, s)|
    ensures var r := Listing(rows, s)[k]; Items(Moved(rows, r.id, dir), s) == Swapped(Items(rows, s), r.id, dir)
  {
    hide Listing, Neighbour, IndexOf, Items, Sound, Placed, SwapNext, Find;
    var l := Listing(rows, s);
    ListingPositions(rows, nextId, s);
    SoundIds(rows, nextId);
    FindUnique(rows, l[k]);
    ItemsLength(rows, s);
    IndexOfRow(rows, nextId, s, k);
    NeighbourIsAdjacent(rows, nextId, s, k, dir);
    if dir < 0 && k > 0 {
      MovesByExchange(rows, l[k], l[k - 1], dir);
      ExchangeItems(rows, nextId, s, k - 1);
      ExchangeCommutes(rows, l[k - 1], l[k]);
    }
    if dir >= 0 && k + 1 < |l| {
      MovesByExchange(rows, l[k], l[k + 1], dir);
      ExchangeItems(rows, nextId, s, k);
    }
  }

  lemma ItemsLength<T(!new)>(rows: seq<Row<T>>, s: nat)
    ensures |Items(rows, s)| == |Listing(rows, s)|
  {}

  lemma MovesByExchange<T(!new)>(rows: seq<Row<T>>, r: Row<T>, q: Row<T>, dir: int)
    requires Find(rows, r.id) == Some(r) && Neighbour(rows, r.scope, r.pos, dir) == Some(q)
    ensures Moved(rows, r.id, dir) == Exchanged(rows, r, q)
  {}

  lemma MovedSound<T(!new)>(rows: seq<Row<T>>, nextId: nat, id: nat, dir: int)
    requires Sound(rows, nextId)
    ensures Sound(Moved(rows, id, dir), nextId)
  {
    hide Sound, Neighbour;
    SoundIds(rows, nextId);
    match Find(rows, id)
    case None =>
    case Some(r) =>
      match Neighbour(rows, r.scope, r.pos, dir)
      case None =>
      case Some(q) =>
        ById(rows, q, r);
        ExchangeSound(rows, nextId, r, q);
  }

  // ── Reordering ────────────────────────────────────────────────────────────

  function IdsOf<T>(items: seq<Item<T>>): (ids: seq<nat>)
    ensures |ids| == |items|
    ensures forall k :: 0 <= k < |items| ==> ids[k] == items[k].id
  {
    seq(|items|, k requires 0 <= k < |items| => items[k].id)
  }

  // The requested ids that belong, each once.
  function Listed(requested: seq<nat>, members: set<nat>, placed: set<nat>): (r: seq<nat>) {
    if requested == [] then []
    else if requested[0] in members && requested[0] !in placed then
      [requested[0]] + Listed(requested[1..], members, placed + {requested[0]})
    else Listed(requested[1..], members, placed)
  }

  // The current ids nobody asked for, in their own order.
  function Unlisted(current: seq<nat>, placed: set<nat>): (r: seq<nat>) {
    if current == [] then []
    else if current[0] !in placed then [current[0]] + Unlisted(current[1..], placed + {current[0]})
    else Unlisted(current[1..], placed)
  }

  function Elements(s: seq<nat>): (r: set<nat>) {
    set x | x in s
  }

  /** The order a request leads to. */
  function Final(requested: seq<nat>, current: seq<nat>): (r: seq<nat>) {
    var listed := Listed(requested, Elements(current), {});
    listed + Unlisted(current, Elements(listed))
  }

  ghost predicate Distinct(s: seq<nat>) {
    forall i, j :: 0 <= i < j < |s| ==> s[i] != s[j]
  }

  lemma {:induction false} ListedShape(requested: seq<nat>, members: set<nat>, placed: set<nat>)
    ensures Distinct(Listed(requested, members, placed))
    ensures forall x :: x in Listed(requested, members, placed) <==> x in requested && x in members && x !in placed
  {
    if requested != [] {
      var x := requested[0];
      assert requested == [x] + requested[1..];
      if x in members && x !in placed {
        ListedShape(requested[1..], members, placed + {x});
      } else {
        ListedShape(requested[1..], members, placed);
      }
    }
  }

  lemma {:induction false} UnlistedShape(current: seq<nat>, placed: set<nat>)
    ensures Distinct(Unlisted(current, placed))
    ensures forall x :: x in Unlisted(current, placed) <==> x in current && x !in placed
  {
    if current != [] {
      var x := current[0];
      assert current == [x] + current[1..];
      if x !in placed {
        UnlistedShape(current[1..], placed + {x});
      } else {
        UnlistedShape(current[1..], placed);
      }
    }
  }

  /** Whatever ids a stale page asks for, a reorder neither drops nor duplicates a row. */
  lemma FinalPermutes(requested: seq<nat>, current: seq<nat>)
    ensures Distinct(Final(requested, current))
    ensures forall x :: x in Final(requested, current) <==> x in current
  {
    var listed := Listed(requested, Elements(current), {});
    ListedShape(requested, Elements(current), {});
    UnlistedShape(current, Elements(listed));
    var rest := Unlisted(current, Elements(listed));
    forall i, j | 0 <= i < |listed| && 0 <= j < |rest| ensures listed[i] != rest[j] {
      assert listed[i] in listed && rest[j] in rest;
    }
  }

  // x is asked for before y is.
  predicate AskedBefore(requested: seq<nat>, x: nat, y: nat) {
    exists k :: 0 <= k < |requested| && requested[k] == x && y !in requested[..k + 1]
  }

  predicate ComesBefore(s: seq<nat>, x: nat, y: nat) {
    exists a, b :: 0 <= a < b < |s| && s[a] == x && s[b] == y
  }

  lemma AskedLater(r: nat, rest: seq<nat>, x: nat, y: nat)
    requires AskedBefore(rest, x, y) && r != y
    ensures AskedBefore([r] + rest, x, y)
  {
    var k :| 0 <= k < |rest| && rest[k] == x && y !in rest[..k + 1];
    var s := [r] + rest;
    assert s[k + 1] == x && s[..k + 2] == [r] + rest[..k + 1];
  }

  lemma {:induction false} ListedOrders(requested: seq<nat>, members: set<nat>, placed: set<nat>, a: nat, b: nat)
    requires a < b < |Listed(requested, members, placed)|
    ensures var r := Listed(requested, members, placed); AskedBefore(requested, r[a], r[b])
    decreases |requested|
  {
    var r := Listed(requested, members, placed);
    var x, rest := requested[0], requested[1..];
    assert requested == [x] + rest && r[b] in r;
    ListedShape(requested, members, placed);
    if x in members && x !in placed {
      var later := Listed(rest, members, placed + {x});
      ListedShape(rest, members, placed + {x});
      assert r[b] == later[b - 1] && later[b - 1] in later;
      if a == 0 {
        assert requested[..1] == [x];
      } else {
        ListedOrders(rest, members, placed + {x}, a - 1, b - 1);
        AskedLater(x, rest, r[a], r[b]);
      }
    } else {
      ListedOrders(rest, members, placed, a, b);
      AskedLater(x, rest, r[a], r[b]);
    }
  }

  lemma ComesLater(r: nat, rest: seq<nat>, x: nat, y: nat)
    requires ComesBefore(rest, x, y) || (x == r && y in rest)
    ensures ComesBefore([r] + rest, x, y)
  {
    var s := [r] + rest;
    if ComesBefore(rest, x, y) {
      var a, b :| 0 <= a < b < |rest| && rest[a] == x && rest[b] == y;
      assert s[a + 1] == x && s[b + 1] == y;
    } else {
      var b :| 0 <= b < |rest| && rest[b] == y;
      assert s[0] == x && s[b + 1] == y;
    }
  }

  lemma {:induction false} UnlistedOrders(current: seq<nat>, placed: set<nat>, a: nat, b: nat)
    requires a < b < |Unlisted(current, placed)|
    ensures var r := Unlisted(current, placed); ComesBefore(current, r[a], r[b])
    decreases |current|
  {
    var r := Unlisted(current, placed);
    var x, rest := current[0], current[1..];
    assert current == [x] + rest;
    if x !in placed {
      var later := Unlisted(rest, placed + {x});
      UnlistedShape(rest, placed + {x});
      assert r[b] == later[b - 1] && later[b - 1] in later;
      if a > 0 {
        UnlistedOrders(rest, placed + {x}, a - 1, b - 1);
      }
    } else {
      UnlistedOrders(rest, placed, a, b);
    }
    ComesLater(x, rest, r[a], r[b]);
  }

  /** The order of any two rows afterwards: what was asked for comes first, in the order it was first
      asked for, and the rest follows in the order it was in. */
  lemma FinalOrders(requested: seq<nat>, current: seq<nat>, i: nat, j: nat)
    requires i < j < |Final(requested, current)|
    ensures var r := Final(requested, current);
            && (r[j] in requested ==> r[i] in requested && AskedBefore(requested, r[i], r[j]))
            && (r[i] !in requested ==> r[j] !in requested && ComesBefore(current, r[i], r[j]))
  {
    hide AskedBefore, ComesBefore;
    var listed := Listed(requested, Elements(current), {});
    var rest := Unlisted(current, Elements(listed));
    ListedShape(requested, Elements(current), {});
    UnlistedShape(current, Elements(listed));
    assert forall k :: 0 <= k < |listed| ==> listed[k] in listed;
    assert forall k :: 0 <= k < |rest| ==> rest[k] in rest;
    if j < |listed| {
      ListedOrders(requested, Elements(current), {}, i, j);
    } else if i >= |listed| {
      UnlistedOrders(current, Elements(listed), i - |listed|, j - |listed|);
    }
  }

  lemma {:induction false} ListedAll(requested: seq<nat>, members: set<nat>, placed: set<nat>)
    requires Distinct(requested) && forall x :: x in requested ==> x in members && x !in placed
    ensures Listed(requested, members, placed) == requested
  {
    if requested != [] {
      assert forall k :: 0 <= k < |requested| ==> requested[k] in requested;
      forall x | x in requested[1..] ensures x in requested && x != requested[0] {}
      ListedAll(requested[1..], members, placed + {requested[0]});
    }
  }

  /** A request that names every row once is obeyed to the letter; a request that names none
      changes nothing. */
  lemma FreshRequestObeyed(requested: seq<nat>, current: seq<nat>)
    requires Distinct(current)
    ensures Distinct(requested) && (forall x :: x in requested <==> x in current) ==> Final(requested, current) == requested
    ensures (forall x :: x in requested ==> x !in current) ==> Final(requested, current) == current
  {
    if Distinct(requested) && forall x :: x in requested <==> x in current {
      ListedAll(requested, Elements(current), {});
      UnlistedShape(current, Elements(requested));
      SameEmpty(Unlisted(current, Elements(requested)), []);
      assert requested + [] == requested;
    }
    if forall x :: x in requested ==> x !in current {
      ListedShape(requested, Elements(current), {});
      SameEmpty(Listed(requested, Elements(current), {}), []);
      assert Elements([]) == {};
      UnlistedAll(current, {});
      assert [] + current == current;
    }
  }

  lemma {:induction false} UnlistedAll(current: seq<nat>, placed: set<nat>)
    requires Distinct(current) && forall x :: x in current ==> x !in placed
    ensures Unlisted(current, placed) == current
  {
    if current != [] {
      assert forall k :: 0 <= k < |current| ==> current[k] in current;
      forall x | x in current[1..] ensures x in current && x != current[0] {}
      UnlistedAll(current[1..], placed + {current[0]});
    }
  }

  // UPDATE ... SET position = i + 1 WHERE id = final[i], for the first n ids.
  function Renumbered<T>(rows: seq<Row<T>>, ids: seq<nat>, n: nat): (s: seq<Row<T>>)
    requires n <= |ids|
  {
    if n == 0 then rows else Placed(Renumbered(rows, ids, n - 1), ids[n - 1], None, n)
  }

  function Reordered<T>(rows: seq<Row<T>>, scope: nat, requested: seq<nat>): (s: seq<Row<T>>) {
    var ids := Final(requested, IdsOf(Items(rows, scope)));
    Renumbered(rows, ids, |ids|)
  }

  // Each row is its old self, at its place in the final order when it is in it.
  ghost predicate RenumberedRow<T(!new)>(was: Row<T>, now: Row<T>, ids: seq<nat>, n: nat)
    requires n <= |ids|
  {
    && now == was.(pos := now.pos)
    && (forall k :: 0 <= k < n && ids[k] == was.id ==> now.pos == k + 1)
    && ((forall k :: 0 <= k < n ==> ids[k] != was.id) ==> now.pos == was.pos)
  }

  lemma {:induction false} RenumberedRows<T(!new)>(rows: seq<Row<T>>, ids: seq<nat>, n: nat)
    requires n <= |ids| && Distinct(ids)
    ensures |Renumbered(rows, ids, n)| == |rows|
    ensures forall i :: 0 <= i < |rows| ==> RenumberedRow(rows[i], Renumbered(rows, ids, n)[i], ids, n)
  {
    if n > 0 {
      RenumberedRows(rows, ids, n - 1);
    }
  }

  function Pick<T>(items: seq<Item<T>>, id: nat): (r: seq<Item<T>>) {
    match IndexOf(items, id)
    case None => []
    case Some(k) => [items[k]]
  }

  function PickAll<T>(items: seq<Item<T>>, ids: seq<nat>): (r: seq<Item<T>>) {
    if ids == [] then [] else Pick(items, ids[0]) + PickAll(items, ids[1..])
  }

  /** Reordering on a sequence: the items of the final order. */
  function Rearranged<T>(items: seq<Item<T>>, requested: seq<nat>): (t: seq<Item<T>>) {
    PickAll(items, Final(requested, IdsOf(items)))
  }

  ghost predicate HasItem<T(!new)>(items: seq<Item<T>>, id: nat) {
    exists k :: 0 <= k < |items| && items[k].id == id
  }

  lemma PickOne<T(!new)>(items: seq<Item<T>>, id: nat)
    requires HasItem(items, id)
    ensures |Pick(items, id)| == 1 && Pick(items, id)[0].id == id && Pick(items, id)[0] in items
  {
    var k :| 0 <= k < |items| && items[k].id == id;
    assert items[k] in items;
  }

  lemma {:induction false} PickAllIds<T(!new)>(items: seq<Item<T>>, ids: seq<nat>)
    requires forall x :: x in ids ==> HasItem(items, x)
    ensures IdsOf(PickAll(items, ids)) == ids
    ensures forall i :: i in PickAll(items, ids) ==> i in items
  {
    hide HasItem, Pick;
    if ids != [] {
      assert ids == [ids[0]] + ids[1..] && ids[0] in ids;
      PickOne(items, ids[0]);
      PickAllIds(items, ids[1..]);
      var head, rest := Pick(items, ids[0]), PickAll(items, ids[1..]);
      assert IdsOf(head + rest) == [ids[0]] + IdsOf(rest);
    }
  }

  /** A reordered listing holds the same items, each once, in the final order. */
  lemma RearrangedPermutes<T(!new)>(items: seq<Item<T>>, requested: seq<nat>)
    requires forall i, j :: 0 <= i < j < |items| ==> items[i].id != items[j].id
    ensures IdsOf(Rearranged(items, requested)) == Final(requested, IdsOf(items))
    ensures Distinct(IdsOf(Rearranged(items, requested)))
    ensures forall i :: i in Rearranged(items, requested) <==> i in items
  {
    hide Final, PickAll;
    var current := IdsOf(items);
    var ids := Final(requested, current);
    FinalPermutes(requested, current);
    forall x | x in ids ensures HasItem(items, x) {
      var k :| 0 <= k < |current| && current[k] == x;
      assert items[k].id == x;
    }
    PickAllIds(items, ids);
    var out := PickAll(items, ids);
    forall i | i in items ensures i in out {
      var k :| 0 <= k < |items| && items[k] == i;
      assert current[k] in ids;
      var m :| 0 <= m < |ids| && ids[m] == current[k];
      assert IdsOf(out)[m] == i.id;
      assert out[m] in items;
    }
  }

  // The rows of the final order, renumbered from 1.
  function Line<T>(l: seq<Row<T>>, ids: seq<nat>, n: nat): (r: seq<Row<T>>)
    requires n <= |ids|
    ensures |r| <= n
  {
    if n == 0 then []
    else
      match IndexOf(ItemsOf(l), ids[n - 1])
      case None => Line(l, ids, n - 1)
      case Some(k) => Line(l, ids, n - 1) + [l[k].(pos := n)]
  }

  ghost predicate HasId<T(!new)>(l: seq<Row<T>>, id: nat) {
    exists k :: 0 <= k < |l| && l[k].id == id
  }

  // r is the row of l that the order puts at r's own position.
  ghost predicate InPlace<T(!new)>(l: seq<Row<T>>, ids: seq<nat>, n: nat, r: Row<T>)
    requires n <= |ids|
  {
    exists k, m :: 0 <= k < n && 0 <= m < |l| && l[m].id == ids[k] && r == l[m].(pos := k + 1)
  }

  lemma {:induction false} LineLength<T(!new)>(l: seq<Row<T>>, ids: seq<nat>, n: nat)
    requires n <= |ids| && forall x :: x in ids ==> HasId(l, x)
    ensures |Line(l, ids, n)| == n
    ensures forall k :: 0 <= k < n ==> Line(l, ids, n)[k].pos == k + 1
  {
    if n > 0 {
      LineLength(l, ids, n - 1);
      assert ids[n - 1] in ids;
      var m :| 0 <= m < |l| && l[m].id == ids[n - 1];
      assert ItemsOf(l)[m] in ItemsOf(l);
    }
  }

  lemma {:induction false} LineItems<T(!new)>(l: seq<Row<T>>, ids: seq<nat>, n: nat)
    requires n <= |ids|
    ensures ItemsOf(Line(l, ids, n)) == PickAll(ItemsOf(l), ids[..n])
  {
    if n == 0 {
      assert ids[..0] == [];
    } else {
      LineItems(l, ids, n - 1);
      assert ids[..n] == ids[..n - 1] + [ids[n - 1]];
      PickAllAppend(ItemsOf(l), ids[..n - 1], ids[n - 1]);
      match IndexOf(ItemsOf(l), ids[n - 1])
      case None =>
        assert Line(l, ids, n) == Line(l, ids, n - 1);
      case Some(k) =>
        ItemsOfAppend(Line(l, ids, n - 1), l[k].(pos := n));
    }
  }

  lemma ItemsOfAppend<T(!new)>(s: seq<Row<T>>, r: Row<T>)
    ensures ItemsOf(s + [r]) == ItemsOf(s) + [ItemOf(r)]
  {}

  lemma {:induction false} InLine<T(!new)>(l: seq<Row<T>>, ids: seq<nat>, n: nat, r: Row<T>)
    requires n <= |ids| && forall i, j :: 0 <= i < j < |l| ==> l[i].id != l[j].id
    ensures r in Line(l, ids, n) <==> InPlace(l, ids, n, r)
  {
    if n > 0 {
      InLine(l, ids, n - 1, r);
      var id := ids[n - 1];
      if r in Line(l, ids, n) {
        if r in Line(l, ids, n - 1) {
        } else {
          var k := IndexOf(ItemsOf(l), id).value;
          assert l[k].id == ids[n - 1] && r == l[k].(pos := (n - 1) + 1);
        }
      }
      if InPlace(l, ids, n, r) {
        var k, m :| 0 <= k < n && 0 <= m < |l| && l[m].id == ids[k] && r == l[m].(pos := k + 1);
        if k == n - 1 {
          UniqueIndex(ItemsOf(l), m);
        } else {
          assert InPlace(l, ids, n - 1, r);
        }
      }
    }
  }

  lemma {:induction false} PickAllAppend<T(!new)>(items: seq<Item<T>>, ids: seq<nat>, id: nat)
    ensures PickAll(items, ids + [id]) == PickAll(items, ids) + Pick(items, id)
  {
    if ids == [] {
      assert [] + [id] == [id];
    } else {
      assert (ids + [id])[1..] == ids[1..] + [id];
      PickAllAppend(items, ids[1..], id);
      Assoc(Pick(items, ids[0]), PickAll(items, ids[1..]), Pick(items, id));
    }
  }

  lemma RenumberedIds<T(!new)>(rows: seq<Row<T>>, ids: seq<nat>)
    requires DistinctIds(rows) && Distinct(ids)
    ensures DistinctIds(Renumbered(rows, ids, |ids|))
  {
    RenumberedRows(rows, ids, |ids|);
  }

  // A row of the renumbered table that belongs to the scope stands in the line, and the reverse.
  lemma RenumberedIsLine<T(!new)>(rows: seq<Row<T>>, scope: nat, ids: seq<nat>, r: Row<T>)
    requires DistinctIds(rows) && Distinct(ids)
    requires forall x :: x in ids <==> HasId(Listing(rows, scope), x)
    ensures r in Renumbered(rows, ids, |ids|) && r.scope == scope <==> InPlace(Listing(rows, scope), ids, |ids|, r)
  {
    hide Listing, Renumbered, HasId, InPlace, RenumberedRow;
    var l := Listing(rows, scope);
    var out := Renumbered(rows, ids, |ids|);
    ListingSorted(rows, scope);
    RenumberedRows(rows, ids, |ids|);
    if r in out && r.scope == scope {
      var i :| 0 <= i < |out| && out[i] == r;
      ScopeKept(rows[i], r, ids);
      RowStandsInLine(l, ids, rows[i], r);
    }
    if InPlace(l, ids, |ids|, r) {
      LineComesFromRow(l, ids, rows, out, scope, r);
    }
  }

  lemma ScopeKept<T(!new)>(was: Row<T>, now: Row<T>, ids: seq<nat>)
    requires RenumberedRow(was, now, ids, |ids|)
    ensures now.scope == was.scope && now.id == was.id
  {}

  lemma RowStandsInLine<T(!new)>(l: seq<Row<T>>, ids: seq<nat>, was: Row<T>, r: Row<T>)
    requires was in l && RenumberedRow(was, r, ids, |ids|)
    requires forall x :: x in ids <==> HasId(l, x)
    ensures InPlace(l, ids, |ids|, r)
  {
    var m :| 0 <= m < |l| && l[m] == was;
    assert HasId(l, l[m].id);
    var k :| 0 <= k < |ids| && ids[k] == was.id;
    assert r == l[m].(pos := k + 1);
  }

  lemma LineComesFromRow<T(!new)>(
    l: seq<Row<T>>, ids: seq<nat>, rows: seq<Row<T>>, out: seq<Row<T>>, scope: nat, r: Row<T>)
    requires InPlace(l, ids, |ids|, r) && |out| == |rows|
    requires forall k :: 0 <= k < |l| ==> l[k] in rows && l[k].scope == scope
    requires forall i :: 0 <= i < |rows| ==> RenumberedRow(rows[i], out[i], ids, |ids|)
    ensures r in out && r.scope == scope
  {
    var k, m :| 0 <= k < |ids| && 0 <= m < |l| && l[m].id == ids[k] && r == l[m].(pos := k + 1);
    var i :| 0 <= i < |rows| && rows[i] == l[m];
    assert RenumberedRow(rows[i], out[i], ids, |ids|);
    assert out[i].pos == k + 1;
    assert out[i] == r;
  }

  /** Reordering lists exactly the scope's rows in the final order, and no other scope changes. */
  lemma ReorderedItems<T(!new)>(rows: seq<Row<T>>, nextId: nat, scope: nat, requested: seq<nat>, s: nat)
    requires Sound(rows, nextId)
    ensures Items(Reordered(rows, scope, requested), s) ==
              if s == scope then Rearranged(Items(rows, s), requested) else Items(rows, s)
  {
    hide Listing, Final, Renumbered, PickAll, HasId;
    var ids := Final(requested, IdsOf(Items(rows, scope)));
    FinalIds(rows, scope, requested);
    if s == scope {
      ReorderedHere(rows, nextId, scope, ids);
      assert ids[..|ids|] == ids;
    } else {
      SoundIds(rows, nextId);
      ReorderedElsewhere(rows, scope, ids, s);
    }
  }

  lemma FinalIds<T(!new)>(rows: seq<Row<T>>, scope: nat, requested: seq<nat>)
    ensures var ids := Final(requested, IdsOf(Items(rows, scope)));
      Distinct(ids) && forall x :: x in ids <==> HasId(Listing(rows, scope), x)
  {
    hide Listing, Final;
    var l := Listing(rows, scope);
    var current := IdsOf(Items(rows, scope));
    FinalPermutes(requested, current);
    forall x ensures x in current <==> HasId(l, x) {
      if HasId(l, x) {
        var k :| 0 <= k < |l| && l[k].id == x;
        assert current[k] == x;
      }
    }
  }

  lemma ReorderedHere<T(!new)>(rows: seq<Row<T>>, nextId: nat, scope: nat, ids: seq<nat>)
    requires Sound(rows, nextId) && Distinct(ids)
    requires forall x :: x in ids <==> HasId(Listing(rows, scope), x)
    ensures Items(Renumbered(rows, ids, |ids|), scope) == PickAll(Items(rows, scope), ids[..|ids|])
  {
    hide Listing, Renumbered, PickAll, HasId, InPlace, Line;
    var l := Listing(rows, scope);
    var out := Renumbered(rows, ids, |ids|);
    ListingPositions(rows, nextId, scope);
    RenumberedIds(rows, ids);
    LineLength(l, ids, |ids|);
    LineItems(l, ids, |ids|);
    var line := Line(l, ids, |ids|);
    forall r ensures r in line <==> r in out && r.scope == scope {
      RenumberedIsLine(rows, scope, ids, r);
      InLine(l, ids, |ids|, r);
    }
    ListingIs(out, scope, line);
  }

  lemma ReorderedElsewhere<T(!new)>(rows: seq<Row<T>>, scope: nat, ids: seq<nat>, s: nat)
    requires DistinctIds(rows) && Distinct(ids) && s != scope
    requires forall x :: x in ids <==> HasId(Listing(rows, scope), x)
    ensures Items(Renumbered(rows, ids, |ids|), s) == Items(rows, s)
  {
    hide Listing, Renumbered, HasId;
    var out := Renumbered(rows, ids, |ids|);
    RenumberedRows(rows, ids, |ids|);
    RenumberedIds(rows, ids);
    forall i | 0 <= i < |rows| && rows[i].scope == s ensures out[i] == rows[i] {
      ListedByScope(rows, scope, rows[i]);
      assert RenumberedRow(rows[i], out[i], ids, |ids|);
      assert forall k :: 0 <= k < |ids| ==> ids[k] in ids;
    }
    forall r: Row<T> | r.scope == s ensures r in rows <==> r in out {
      if r in rows {
        var i :| 0 <= i < |rows| && rows[i] == r;
        assert out[i] == r;
      }
      if r in out {
        var i :| 0 <= i < |out| && out[i] == r;
        assert rows[i] == r;
      }
    }
    SameScope(rows, out, s);
  }

  lemma ReorderedSound<T(!new)>(rows: seq<Row<T>>, nextId: nat, scope: nat, requested: seq<nat>)
    requires Sound(rows, nextId)
    ensures Sound(Reordered(rows, scope, requested), nextId)
  {
    hide Listing, Final, Renumbered, RenumberedRow, HasId;
    var ids := Final(requested, IdsOf(Items(rows, scope)));
    FinalIds(rows, scope, requested);
    RenumberedRows(rows, ids, |ids|);
    RenumberedIds(rows, ids);
    var out := Renumbered(rows, ids, |ids|);
    forall i | 0 <= i < |rows| ensures rows[i].id in ids <==> rows[i].scope == scope {
      ListedByScope(rows, scope, rows[i]);
    }
    RenumberedPositions(rows, out, ids, scope);
    forall r | r in out ensures r.id < nextId {
      var i :| 0 <= i < |out| && out[i] == r;
      ScopeKept(rows[i], r, ids);
      assert rows[i] in rows;
    }
  }

  lemma ListedByScope<T(!new)>(rows: seq<Row<T>>, scope: nat, r: Row<T>)
    requires DistinctIds(rows) && r in rows
    ensures HasId(Listing(rows, scope), r.id) <==> r.scope == scope
  {
    hide Listing;
    ListingSorted(rows, scope);
    var l := Listing(rows, scope);
    if HasId(l, r.id) {
      var k :| 0 <= k < |l| && l[k].id == r.id;
      ById(rows, l[k], r);
    }
    if r.scope == scope {
      var k :| 0 <= k < |l| && l[k] == r;
    }
  }

  lemma RenumberedPositions<T(!new)>(rows: seq<Row<T>>, out: seq<Row<T>>, ids: seq<nat>, scope: nat)
    requires DistinctIds(rows) && DistinctPositions(rows) && |out| == |rows|
    requires forall i :: 0 <= i < |rows| ==> RenumberedRow(rows[i], out[i], ids, |ids|)
    requires forall i :: 0 <= i < |rows| ==> (rows[i].id in ids <==> rows[i].scope == scope)
    ensures DistinctPositions(out)
  {
    forall i, j | 0 <= i < j < |out| && out[i].scope == out[j].scope ensures out[i].pos != out[j].pos {
      if out[i].scope == scope {
        var x :| 0 <= x < |ids| && ids[x] == rows[i].id;
        var y :| 0 <= y < |ids| && ids[y] == rows[j].id;
        assert x != y;
      }
    }
  }

  // ── Reassigning and deleting ──────────────────────────────────────────────

  function Reassigned<T>(rows: seq<Row<T>>, id: nat, target: nat): (s: seq<Row<T>>) {
    Placed(rows, id, Some(target), TailPosition(rows, target))
  }

  function Deleted<T>(rows: seq<Row<T>>, id: nat): (s: seq<Row<T>>) {
    if rows == [] then []
    else if rows[0].id == id then Deleted(rows[1..], id)
    else [rows[0]] + Deleted(rows[1..], id)
  }

  function Without<T>(items: seq<Item<T>>, id: nat): (t: seq<Item<T>>) {
    if items == [] then []
    else if items[0].id == id then Without(items[1..], id)
    else [items[0]] + Without(items[1..], id)
  }

  /** All items but those of that id, in order. */
  lemma {:induction false} WithoutExactly<T(!new)>(items: seq<Item<T>>, id: nat)
    ensures Selection.Filters(items, Without(items, id), (i: Item<T>) => i.id != id, (i: Item<T>, j: Item<T>) => i == j)
  {
    var keeps, same := (i: Item<T>) => i.id != id, (i: Item<T>, j: Item<T>) => i == j;
    hide Selection.Filters;
    if items == [] {
      Selection.FiltersNothing(keeps, same);
    } else {
      WithoutExactly(items[1..], id);
      var rest := Without(items[1..], id);
      Selection.FiltersCons(items[0], items[1..], if keeps(items[0]) then [items[0]] else [], rest, keeps, same);
      assert [items[0]] + items[1..] == items && [] + rest == rest;
    }
  }

  // A listing without one row.
  function Dropped<T>(l: seq<Row<T>>, id: nat): (t: seq<Row<T>>) {
    if l == [] then []
    else if l[0].id == id then Dropped(l[1..], id)
    else [l[0]] + Dropped(l[1..], id)
  }

  lemma {:induction false} DroppedSorted<T(!new)>(l: seq<Row<T>>, id: nat)
    requires Sorted(l)
    ensures Sorted(Dropped(l, id))
    ensures forall r :: r in Dropped(l, id) <==> r in l && r.id != id
  {
    if l != [] {
      DroppedSorted(l[1..], id);
      assert l == [l[0]] + l[1..];
      var rest := Dropped(l[1..], id);
      forall k | 0 <= k < |rest| ensures Before(l[0], rest[k]) {
        assert rest[k] in rest;
        var m :| 0 <= m < |l[1..]| && l[1..][m] == rest[k];
        assert l[m + 1] == rest[k];
      }
    }
  }

  lemma {:induction false} DroppedItems<T(!new)>(l: seq<Row<T>>, id: nat)
    ensures ItemsOf(Dropped(l, id)) == Without(ItemsOf(l), id)
  {
    if l != [] {
      DroppedItems(l[1..], id);
      assert ItemsOf(l)[1..] == ItemsOf(l[1..]);
      var rest := Dropped(l[1..], id);
      if l[0].id != id {
        assert ItemsOf([l[0]] + rest) == [ItemOf(l[0])] + ItemsOf(rest);
      }
    }
  }

  lemma {:induction false} DeletedContent<T(!new)>(rows: seq<Row<T>>, id: nat)
    ensures forall r :: r in Deleted(rows, id) <==> r in rows && r.id != id
  {
    if rows != [] {
      DeletedContent(rows[1..], id);
      assert rows == [rows[0]] + rows[1..];
    }
  }

  lemma {:induction false} DeletedSound<T(!new)>(rows: seq<Row<T>>, nextId: nat, id: nat)
    requires Sound(rows, nextId)
    ensures Sound(Deleted(rows, id), nextId)
  {
    DeletedContent(rows, id);
    if rows != [] {
      SoundTail(rows, nextId);
      DeletedSound(rows[1..], nextId, id);
      DeletedContent(rows[1..], id);
      if rows[0].id != id {
        SoundCons(rows[0], Deleted(rows[1..], id), nextId);
      }
    }
  }

  // A row against the rows that follow it.
  lemma SoundTail<T(!new)>(rows: seq<Row<T>>, nextId: nat)
    requires Sound(rows, nextId) && rows != []
    ensures Sound(rows[1..], nextId) && rows[0].id < nextId
    ensures forall r :: r in rows[1..] ==> r.id != rows[0].id && (r.scope == rows[0].scope ==> r.pos != rows[0].pos)
  {
    forall r | r in rows[1..] ensures r.id != rows[0].id && (r.scope == rows[0].scope ==> r.pos != rows[0].pos) {
      var m :| 0 <= m < |rows[1..]| && rows[1..][m] == r;
      assert rows[m + 1] == r;
    }
  }

  lemma SoundCons<T(!new)>(r: Row<T>, rest: seq<Row<T>>, nextId: nat)
    requires Sound(rest, nextId) && r.id < nextId
    requires forall x :: x in rest ==> x.id != r.id && (x.scope == r.scope ==> x.pos != r.pos)
    ensures Sound([r] + rest, nextId)
  {
    assert forall k :: 0 <= k < |rest| ==> rest[k] in rest;
  }

  /** Deleting removes the row from its listing and leaves the order of the rest. */
  lemma DeletedItems<T(!new)>(rows: seq<Row<T>>, nextId: nat, id: nat, s: nat)
    requires Sound(rows, nextId)
    ensures Items(Deleted(rows, id), s) == Without(Items(rows, s), id)
    ensures Sound(Deleted(rows, id), nextId)
  {
    hide Listing, Deleted, Dropped, Sorted;
    DeletedContent(rows, id);
    DeletedSound(rows, nextId, id);
    ListingSorted(rows, s);
    DroppedSorted(Listing(rows, s), id);
    DroppedItems(Listing(rows, s), id);
    ListingIs(Deleted(rows, id), s, Dropped(Listing(rows, s), id));
  }

  /** Reassigning takes the row out of the chain it was in and puts it last in the target, also when
      the two are the same chain. */
  lemma ReassignedItems<T(!new)>(rows: seq<Row<T>>, nextId: nat, id: nat, target: nat, s: nat)
    requires Sound(rows, nextId)
    ensures var r := Find(rows, id);
      Items(Reassigned(rows, id, target), s) ==
        Without(Items(rows, s), id) + (if s == target && r.Some? then [ItemOf(r.value)] else [])
    ensures Sound(Reassigned(rows, id, target), nextId)
  {
    hide Listing, Dropped, TailPosition;
    var out := Reassigned(rows, id, target);
    var pos := TailPosition(rows, target);
    var l := Listing(rows, s);
    ListingSorted(rows, s);
    DroppedSorted(l, id);
    DroppedItems(l, id);
    var rest := Dropped(l, id);
    match Find(rows, id)
    case None =>
      assert out == rows;
      SameByContent(l, rest);
      assert Without(Items(rows, s), id) + [] == Items(rows, s);
    case Some(r) =>
      var now := Put(r, Some(target), pos);
      PlacedContent(rows, r, Some(target), pos);
      forall x | x in rows && x.id == id ensures x == r {
        ById(rows, x, r);
      }
      ReassignedSound(rows, nextId, r, target);
      if s == target {
        assert forall k :: 0 <= k < |rest| ==> rest[k] in rest;
        SortedAppend(rest, [now]);
        ListingIs(out, s, rest + [now]);
      } else {
        ListingIs(out, s, rest);
        assert ItemsOf(rest) + [] == ItemsOf(rest);
      }
  }

  lemma SameByContent<T(!new)>(l: seq<Row<T>>, rest: seq<Row<T>>)
    requires Sorted(l) && Sorted(rest) && forall r :: r in l <==> r in rest
    ensures l == rest
  {
    SortedByContent(l, rest);
  }

  lemma ReassignedSound<T(!new)>(rows: seq<Row<T>>, nextId: nat, r: Row<T>, target: nat)
    requires Sound(rows, nextId) && r in rows
    ensures Sound(Reassigned(rows, r.id, target), nextId)
  {
    hide TailPosition;
    var out := Reassigned(rows, r.id, target);
    forall i, j | 0 <= i < j < |out| && out[i].scope == out[j].scope ensures out[i].pos != out[j].pos {
      assert rows[i] in rows && rows[j] in rows;
    }
    forall x | x in out ensures x.id < nextId {
      var i :| 0 <= i < |out| && out[i] == x;
      assert rows[i] in rows;
    }
  }

  // ── Whole runs ────────────────────────────────────────────────────────────

  datatype Op<T> =
    | CreateAtEnd(scope: nat, data: T)
    | CreateAtStart(scope: nat, data: T)
    | Move(id: nat, dir: int)
    | Reorder(scope: nat, requested: seq<nat>)
    | Reassign(id: nat, target: nat)
    | Delete(id: nat)

  datatype State<T> = State(rows: seq<Row<T>>, nextId: nat)

  function Step<T>(s: State<T>, op: Op<T>): (t: State<T>) {
    match op
    case CreateAtEnd(scope, data) => State(Created(s.rows, s.nextId, scope, data, false), s.nextId + 1)
    case CreateAtStart(scope, data) => State(Created(s.rows, s.nextId, scope, data, true), s.nextId + 1)
    case Move(id, dir) => s.(rows := Moved(s.rows, id, dir))
    case Reorder(scope, requested) => s.(rows := Reordered(s.rows, scope, requested))
    case Reassign(id, target) => s.(rows := Reassigned(s.rows, id, target))
    case Delete(id) => s.(rows := Deleted(s.rows, id))
  }

  function Run<T>(s: State<T>, ops: seq<Op<T>>): (t: State<T>)
    decreases |ops|
  {
    if ops == [] then s else Run(Step(s, ops[0]), ops[1..])
  }

  /** The same operations on plain sequences, one for each scope. */
  type View<!T> = nat -> seq<Item<T>>

  // The item with an id, wherever it is.
  ghost predicate Holds<T(!new)>(v: View<T>, i: Item<T>) {
    exists s: nat :: i in v(s)
  }

  /** What an operation does to the sequences. */
  ghost predicate SequenceStep<T(!new)>(v: View<T>, op: Op<T>, newId: nat, w: View<T>) {
    match op
    case CreateAtEnd(scope, data) =>
      forall s: nat :: w(s) == if s == scope then v(s) + [Item(newId, data)] else v(s)
    case CreateAtStart(scope, data) =>
      forall s: nat :: w(s) == if s == scope then [Item(newId, data)] + v(s) else v(s)
    case Move(id, dir) =>
      forall s: nat :: w(s) == Swapped(v(s), id, dir)
    case Reorder(scope, requested) =>
      forall s: nat :: w(s) == if s == scope then Rearranged(v(s), requested) else v(s)
    case Reassign(id, target) =>
      exists tail: seq<Item<T>> ::
        && (if tail == [] then forall i :: Holds(v, i) ==> i.id != id else |tail| == 1 && Holds(v, tail[0]) && tail[0].id == id)
        && forall s: nat :: w(s) == Without(v(s), id) + (if s == target then tail else [])
    case Delete(id) =>
      forall s: nat :: w(s) == Without(v(s), id)
  }

  function ViewOf<T>(rows: seq<Row<T>>): (v: View<T>) {
    (s: nat) => Items(rows, s)
  }

  lemma HoldsRow<T(!new)>(rows: seq<Row<T>>, i: Item<T>)
    requires DistinctIds(rows)
    ensures Holds(ViewOf(rows), i) <==> exists r :: r in rows && ItemOf(r) == i
  {
    hide Listing;
    var v := ViewOf(rows);
    if Holds(v, i) {
      var s: nat :| i in v(s);
      ListingSorted(rows, s);
      var k :| 0 <= k < |Items(rows, s)| && Items(rows, s)[k] == i;
      assert ItemOf(Listing(rows, s)[k]) == i;
    }
    if r :| r in rows && ItemOf(r) == i {
      ListingSorted(rows, r.scope);
      var k :| 0 <= k < |Listing(rows, r.scope)| && Listing(rows, r.scope)[k] == r;
      assert Items(rows, r.scope)[k] == i;
      assert i in v(r.scope);
    }
  }

  lemma StepSound<T(!new)>(s: State<T>, op: Op<T>)
    requires Sound(s.rows, s.nextId)
    ensures Sound(Step(s, op).rows, Step(s, op).nextId)
  {
    hide Created, Moved, Reordered, Reassigned, Deleted, Sound, Items;
    match op
    case CreateAtEnd(scope, data) => CreatedSound(s.rows, s.nextId, scope, data, false);
    case CreateAtStart(scope, data) => CreatedSound(s.rows, s.nextId, scope, data, true);
    case Move(id, dir) => MovedSound(s.rows, s.nextId, id, dir);
    case Reorder(scope, requested) => ReorderedSound(s.rows, s.nextId, scope, requested);
    case Reassign(id, target) => ReassignedItems(s.rows, s.nextId, id, target, 0);
    case Delete(id) => DeletedItems(s.rows, s.nextId, id, 0);
  }

  /** Every operation on positions is the operation on sequences. */
  lemma StepRefines<T(!new)>(s: State<T>, op: Op<T>)
    requires Sound(s.rows, s.nextId)
    ensures SequenceStep(ViewOf(s.rows), op, s.nextId, ViewOf(Step(s, op).rows))
  {
    hide Created, Moved, Reordered, Reassigned, Deleted, Sound, Items, Swapped, Rearranged, Without, Find, Holds;
    var v, w := ViewOf(s.rows), ViewOf(Step(s, op).rows);
    match op
    case CreateAtEnd(scope, data) =>
      forall z: nat { CreatedItems(s.rows, s.nextId, scope, data, false, z); }
    case CreateAtStart(scope, data) =>
      forall z: nat { CreatedItems(s.rows, s.nextId, scope, data, true, z); }
    case Move(id, dir) =>
      forall z: nat { MovedItems(s.rows, s.nextId, id, dir, z); }
    case Reorder(scope, requested) =>
      forall z: nat { ReorderedItems(s.rows, s.nextId, scope, requested, z); }
    case Reassign(id, target) =>
      ReassignRefines(s, id, target);
    case Delete(id) =>
      forall z: nat { DeletedItems(s.rows, s.nextId, id, z); }
  }

  lemma ReassignRefines<T(!new)>(s: State<T>, id: nat, target: nat)
    requires Sound(s.rows, s.nextId)
    ensures SequenceStep(ViewOf(s.rows), Reassign(id, target), s.nextId, ViewOf(Reassigned(s.rows, id, target)))
  {
    hide Reassigned, Sound, Items, Without, Holds;
    SoundIds(s.rows, s.nextId);
    var v, w := ViewOf(s.rows), ViewOf(Reassigned(s.rows, id, target));
    var found := Find(s.rows, id);
    var tail := if found.Some? then [ItemOf(found.value)] else [];
    forall z: nat ensures w(z) == Without(v(z), id) + (if z == target then tail else []) {
      ReassignedItems(s.rows, s.nextId, id, target, z);
    }
    forall i ensures Holds(v, i) <==> exists r :: r in s.rows && ItemOf(r) == i {
      HoldsRow(s.rows, i);
    }
  }

  /** Over every run: positions stay distinct within each scope, and each step does to the listings
      exactly what it says. */
  lemma {:induction false} RunRefines<T(!new)>(s: State<T>, ops: seq<Op<T>>, k: nat)
    requires Sound(s.rows, s.nextId) && k < |ops|
    ensures var before, after := Run(s, ops[..k]), Run(s, ops[..k + 1]);
      && Sound(before.rows, before.nextId) && Sound(after.rows, after.nextId)
      && SequenceStep(ViewOf(before.rows), ops[k], before.nextId, ViewOf(after.rows))
    decreases |ops|
  {
    hide Sound, SequenceStep, Step;
    StepSound(s, ops[0]);
    assert ops[..k + 1][1..] == ops[1..][..k];
    if k == 0 {
      StepRefines(s, ops[0]);
      assert ops[..0] == [] && ops[1..][..0] == [];
    } else {
      RunRefines(Step(s, ops[0]), ops[1..], k - 1);
      assert ops[..k][1..] == ops[1..][..k - 1];
    }
  }

  // ── The table itself ──────────────────────────────────────────────────────

  datatype StoreError = RowNotFound

  class PositionTable<T(!new)> {
    var rows: seq<Row<T>>
    var nextId: nat

    ghost predicate Valid()
      reads this
    {
      Sound(rows, nextId)
    }

    constructor ()
      ensures Valid() && rows == [] && nextId == 1
    {
      rows, nextId := [], 1;
    }

    method Create(scope: nat, data: T, atStart: bool) returns (id: nat)
      requires Valid()
      modifies this
      ensures Valid() && id == old(nextId) && nextId == old(nextId) + 1
      ensures rows == Created(old(rows), id, scope, data, atStart)
    {
      CreatedSound(rows, nextId, scope, data, atStart);
      id := nextId;
      var position := if atStart then HeadPosition(rows, scope) else TailPosition(rows, scope);
      rows := rows + [Row(id, scope, position, data)];
      nextId := nextId + 1;
    }

    method Move(id: nat, dir: int) returns (err: Option<StoreError>)
      requires Valid()
      modifies this`rows
      ensures Valid() && rows == Moved(old(rows), id, dir)
      ensures err.Some? <==> forall r :: r in old(rows) ==> r.id != id
    {
      MovedSound(rows, nextId, id, dir);
      var row := Find(rows, id);
      if row.None? {
        return Some(RowNotFound);
      }
      err := None;
      var pos, scope := row.value.pos, row.value.scope;
      var neighbour := Neighbour(rows, scope, pos, dir);
      if neighbour.None? {
        return; // no row on that side
      }
      rows := Placed(rows, id, None, neighbour.value.pos);
      rows := Placed(rows, neighbour.value.id, None, pos);
    }

    method Reorder(scope: nat, requested: seq<nat>)
      requires Valid()
      modifies this`rows
      ensures Valid() && rows == Reordered(old(rows), scope, requested)
    {
      ReorderedSound(rows, nextId, scope, requested);
      var current := IdsOf(Items(rows, scope));
      var final := FinalOrder(requested, current);
      var i := 0;
      while i < |final|
        invariant 0 <= i <= |final| && rows == Renumbered(old(rows), final, i)
      {
        rows := Placed(rows, final[i], None, i + 1);
        i := i + 1;
      }
    }

    method Reassign(id: nat, target: nat) returns (err: Option<StoreError>)
      requires Valid()
      modifies this`rows
      ensures Valid() && rows == Reassigned(old(rows), id, target)
      ensures err.Some? <==> forall r :: r in old(rows) ==> r.id != id
    {
      ReassignedItems(rows, nextId, id, target, 0);
      err := if Find(rows, id).Some? then None else Some(RowNotFound);
      rows := Placed(rows, id, Some(target), TailPosition(rows, target));
    }

    method Delete(id: nat) returns (err: Option<StoreError>)
      requires Valid()
      modifies this`rows
      ensures Valid() && rows == Deleted(old(rows), id)
      ensures err.Some? <==> forall r :: r in old(rows) ==> r.id != id
    {
      DeletedItems(rows, nextId, id, 0);
      err := if Find(rows, id).Some? then None else Some(RowNotFound);
      rows := Deleted(rows, id);
    }
  }

  method FinalOrder(requested: seq<nat>, current: seq<nat>) returns (final: seq<nat>)
    ensures final == Final(requested, current)
  {
    var member := Elements(current);
    var placed: set<nat> := {};
    final := [];
    assert requested[0..] == requested && current[0..] == current;
    ghost var listed := Listed(requested, member, {});
    for i := 0 to |requested|
      invariant final + Listed(requested[i..], member, placed) == listed
      invariant placed == Elements(final)
    {
      assert requested[i..][1..] == requested[i + 1..];
      if requested[i] in member && requested[i] !in placed {
        Assoc(final, [requested[i]], Listed(requested[i + 1..], member, placed + {requested[i]}));
        final := final + [requested[i]];
        placed := placed + {requested[i]};
      }
    }
    assert final == listed by {
      assert final + [] == final;
    }
    ghost var rest := Unlisted(current, placed);
    for i := 0 to |current|
      invariant final + Unlisted(current[i..], placed) == listed + rest
    {
      assert current[i..][1..] == current[i + 1..];
      if current[i] !in placed {
        Assoc(final, [current[i]], Unlisted(current[i + 1..], placed + {current[i]}));
        final := final + [current[i]];
        placed := placed + {current[i]};
      }
    }
    assert final + [] == final;
  }

  // ── Putting recipe rules on top ───────────────────────────────────────────

  function DataOf<T>(items: seq<Item<T>>): (d: seq<T>)
    ensures |d| == |items|
    ensures forall k :: 0 <= k < |items| ==> d[k] == items[k].data
  {
    seq(|items|, k requires 0 <= k < |items| => items[k].data)
  }

  // The rule, enabled; nothing else about it changes.
  function EnabledRule(r: Rule): (q: Rule)
    ensures q.enabled && q.comment == r.comment && q.raw == r.raw && q.tags == r.tags
    ensures q.matches == r.matches && q.statements == r.statements
  {
    r.(enabled := true)
  }

  function AllEnabled(rules: seq<Rule>): (s: seq<Rule>)
    ensures |s| == |rules|
    ensures forall k :: 0 <= k < |rules| ==> s[k] == EnabledRule(rules[k])
  {
    seq(|rules|, k requires 0 <= k < |rules| => EnabledRule(rules[k]))
  }

  lemma OnTop(first: Item<Rule>, items: seq<Item<Rule>>, rules: seq<Rule>, i: nat, base: seq<Rule>)
    requires i < |rules| && first.data == EnabledRule(rules[i])
    requires DataOf(items) == AllEnabled(rules)[i + 1..] + base
    ensures DataOf([first] + items) == AllEnabled(rules)[i..] + base
  {
    assert DataOf([first] + items) == [first.data] + DataOf(items);
    assert AllEnabled(rules)[i..] == [first.data] + AllEnabled(rules)[i + 1..];
  }

  /** Inserting a recipe's rules one by one at the start, last first, puts them in order above the
      rules that were there, and leaves every other chain alone. */
  method InsertBanRules(table: PositionTable<Rule>, chainId: nat, rules: seq<Rule>)
    requires table.Valid()
    modifies table
    ensures table.Valid()
    ensures DataOf(Items(table.rows, chainId)) == AllEnabled(rules) + old(DataOf(Items(table.rows, chainId)))
    ensures forall s: nat :: s != chainId ==> Items(table.rows, s) == old(Items(table.rows, s))
  {
    hide Items, Created, DataOf, AllEnabled;
    var i := |rules|;
    ghost var base := DataOf(Items(table.rows, chainId));
    assert AllEnabled(rules)[|rules|..] + base == base;
    while i > 0
      invariant 0 <= i <= |rules| && table.Valid()
      invariant DataOf(Items(table.rows, chainId)) == AllEnabled(rules)[i..] + base
      invariant forall s: nat :: s != chainId ==> Items(table.rows, s) == old(Items(table.rows, s))
    {
      i := i - 1;
      var rule := rules[i].(enabled := true);
      ghost var rows, nextId := table.rows, table.nextId;
      var _ := table.Create(chainId, rule, true);
      forall s: nat {
        CreatedItems(rows, nextId, chainId, rule, true, s);
      }
      OnTop(Item(nextId, rule), Items(rows, chainId), rules, i, base);
    }
    assert AllEnabled(rules)[0..] == AllEnabled(rules);
  }
}
