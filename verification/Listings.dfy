/** Rows of a table in the order of an SQL `ORDER BY sort_order, id`. */
module Listings {

  /** Row `a` comes before row `b`; `orders` gives each id its sort_order. */
  predicate Before(orders: map<int, int>, a: int, b: int)
    requires a in orders && b in orders
  {
    orders[a] < orders[b] || (orders[a] == orders[b] && a < b)
  }

  ghost predicate IsListing(orders: map<int, int>, ids: seq<int>) {
    && (forall id :: id in ids <==> id in orders.Keys)
    && (forall i, j :: 0 <= i < j < |ids| ==> Before(orders, ids[i], ids[j]))
  }

  ghost predicate IsFirst(orders: map<int, int>, id: int) {
    id in orders && forall other :: other in orders && other != id ==> Before(orders, id, other)
  }

  lemma {:induction false} FirstExists(orders: map<int, int>) returns (id: int)
    requires exists id :: id in orders
    ensures IsFirst(orders, id)
    decreases |orders|
  {
    var pick :| pick in orders.Keys;
    var rest := orders - {pick};
    assert orders.Keys == rest.Keys + {pick};
    if !exists other :: other in rest {
      return pick;
    }
    var first := FirstExists(rest);
    id := if Before(orders, pick, first) then pick else first;
  }

  ghost function First(orders: map<int, int>): (id: int)
    requires exists id :: id in orders
    ensures IsFirst(orders, id)
    ensures |orders - {id}| < |orders|
  {
    var first := FirstWitness(orders);
    assert orders.Keys == (orders - {first}).Keys + {first};
    first
  }

  ghost function FirstWitness(orders: map<int, int>): (id: int)
    requires exists id :: id in orders
    ensures IsFirst(orders, id)
  {
    assert exists id :: IsFirst(orders, id) by { var id := FirstExists(orders); }
    var first :| IsFirst(orders, first);
    first
  }

  /** The ids of a table, ordered; this is what an ordered query returns. */
  ghost function Listing(orders: map<int, int>): (ids: seq<int>)
    ensures IsListing(orders, ids)
    decreases |orders|
  {
    if !exists id :: id in orders then [] else
      var first := First(orders);
      ListingPrepend(orders, first, Listing(orders - {first}));
      [first] + Listing(orders - {first})
  }

  lemma ListingPrepend(orders: map<int, int>, first: int, rest: seq<int>)
    requires IsFirst(orders, first) && IsListing(orders - {first}, rest)
    ensures IsListing(orders, [first] + rest)
  {
    var ids := [first] + rest;
    forall i, j | 0 <= i < j < |ids| ensures ids[i] in orders && ids[j] in orders && Before(orders, ids[i], ids[j]) {
      assert ids[j] == rest[j - 1] && rest[j - 1] in rest;
      if i > 0 { assert Before(orders - {first}, rest[i - 1], rest[j - 1]); }
    }
  }

  lemma EmptyListing(orders: map<int, int>, ids: seq<int>)
    requires IsListing(orders, ids)
    ensures ids == [] <==> !exists id :: id in orders.Keys
  {
    assert ids != [] ==> var head := ids[0]; head in ids && head in orders.Keys;
  }

  lemma HeadIsFirst(orders: map<int, int>, ids: seq<int>)
    requires IsListing(orders, ids) && ids != []
    ensures IsFirst(orders, ids[0])
  {
    var head := ids[0];
    assert head in ids;
    forall other | other in orders && other != head ensures Before(orders, head, other) {
      assert other in orders.Keys;
      var k :| 0 <= k < |ids| && ids[k] == other;
      assert Before(orders, ids[0], ids[k]);
    }
  }

  /** There is only one way to order the rows. */
  lemma {:induction false} ListingUnique(orders: map<int, int>, a: seq<int>, b: seq<int>)
    requires IsListing(orders, a) && IsListing(orders, b)
    ensures a == b
    decreases |a|
  {
    if a == [] || b == [] {
      assert |a| == |b| by { EmptyListing(orders, a); EmptyListing(orders, b); }
    } else {
      HeadIsFirst(orders, a);
      HeadIsFirst(orders, b);
      ListingTail(orders, a);
      ListingTail(orders, b);
      ListingUnique(orders - {a[0]}, a[1..], b[1..]);
    }
  }

  lemma ListingTail(orders: map<int, int>, ids: seq<int>)
    requires IsListing(orders, ids) && ids != []
    ensures IsListing(orders - {ids[0]}, ids[1..])
  {
    var rest := orders - {ids[0]};
    forall id ensures id in ids[1..] <==> id in rest.Keys {
      if id in ids[1..] {
        var k :| 0 <= k < |ids[1..]| && ids[1..][k] == id;
        assert Before(orders, ids[0], ids[k + 1]);
      }
    }
  }

  lemma ListingDistinct(orders: map<int, int>, ids: seq<int>)
    requires IsListing(orders, ids)
    ensures forall i, j :: 0 <= i < j < |ids| ==> ids[i] != ids[j]
  {
    forall i, j | 0 <= i < j < |ids| ensures ids[i] != ids[j] {
      assert Before(orders, ids[i], ids[j]);
    }
  }

  /** A row inserted behind every other one is listed last. */
  lemma ListingAppend(orders: map<int, int>, ids: seq<int>, id: int, order: int)
    requires IsListing(orders, ids)
    requires id !in orders
    requires forall other :: other in orders ==> orders[other] < order
    ensures IsListing(orders[id := order], ids + [id])
  {
  }

  /** Renumbering rows 10, 20, 30, … lists them in exactly that order. */
  lemma ListingRenumber(orders: map<int, int>, ids: seq<int>)
    requires forall id :: id in ids <==> id in orders.Keys
    requires forall i :: 0 <= i < |ids| ==> ids[i] in orders && orders[ids[i]] == (i + 1) * 10
    ensures IsListing(orders, ids)
  {
  }

  /** Rows shifted behind a table are listed after it. */
  lemma ListingConcat(target: map<int, int>, a: seq<int>, source: map<int, int>, b: seq<int>, shift: int,
                      merged: map<int, int>)
    requires IsListing(target, a) && IsListing(source, b)
    requires target.Keys !! source.Keys && merged.Keys == target.Keys + source.Keys
    requires forall id :: id in target ==> merged[id] == target[id]
    requires forall id :: id in source ==> merged[id] == source[id] + shift
    requires forall id, other :: id in target && other in source ==> target[id] < source[other] + shift
    ensures IsListing(merged, a + b)
  {
    var ids := a + b;
    forall i, j | 0 <= i < j < |ids|
      ensures ids[i] in merged && ids[j] in merged && Before(merged, ids[i], ids[j])
    {
      if j < |a| {
        assert Before(target, a[i], a[j]);
      } else if i < |a| {
        assert a[i] in a && b[j - |a|] in b;
      } else {
        assert Before(source, b[i - |a|], b[j - |a|]);
      }
    }
    forall id ensures id in ids <==> id in merged.Keys {
      assert id in ids <==> id in a || id in b;
    }
  }

  /** Removing the row listed at `k` closes the gap and keeps every other row's place. */
  lemma ListingRemove(orders: map<int, int>, ids: seq<int>, k: nat)
    requires IsListing(orders, ids) && k < |ids|
    ensures IsListing(orders - {ids[k]}, ids[..k] + ids[k + 1..])
  {
    var rest := ids[..k] + ids[k + 1..];
    ListingDistinct(orders, ids);
    forall id ensures id in rest <==> id in (orders - {ids[k]}).Keys {
      if id in orders.Keys && id != ids[k] {
        var i :| 0 <= i < |ids| && ids[i] == id;
        assert rest[if i < k then i else i - 1] == id;
      }
      if id in rest {
        var i :| 0 <= i < |rest| && rest[i] == id;
        assert id == ids[if i < k then i else i + 1];
      }
    }
    forall i, j | 0 <= i < j < |rest|
      ensures rest[i] in orders && rest[j] in orders && Before(orders - {ids[k]}, rest[i], rest[j])
    {
      assert rest[i] in rest && rest[j] in rest;
      assert Before(orders, ids[if i < k then i else i + 1], ids[if j < k then j else j + 1]);
    }
  }
}
