// Price-time priority as one list: every arrival queues behind all orders of
// its side that are priced at least as well.
module Priority {
  import opened Common
  import opened Arrivals
  import opened SortedKeys

  function Place(l: seq<Order>, o: Order): seq<Order> {
    if l == [] then [o]
    else if Precedes(o.side, o.price, l[0].price) then [o] + l
    else [l[0]] + Place(l[1..], o)
  }

  function Queue(arr: seq<Order>, side: Side): seq<Order> {
    if arr == [] then []
    else
      var l := Queue(arr[..|arr| - 1], side);
      var o := arr[|arr| - 1];
      if o.side == side then Place(l, o) else l
  }

  ghost predicate Sorted(l: seq<Order>, side: Side) {
    && (forall o :: o in l ==> o.side == side)
    && (forall i, j :: 0 <= i < j < |l| ==> !Precedes(side, l[j].price, l[i].price))
  }

  lemma {:induction false} PlaceSorted(l: seq<Order>, o: Order)
    requires Sorted(l, o.side)
    ensures Sorted(Place(l, o), o.side)
    ensures forall x :: x in Place(l, o) <==> x in l || x == o
    ensures |Place(l, o)| == |l| + 1
  {
    if l != [] && !Precedes(o.side, o.price, l[0].price) {
      PlaceSorted(l[1..], o);
      var t := Place(l[1..], o);
      forall j | 0 <= j < |t| ensures !Precedes(o.side, t[j].price, l[0].price) {
        assert t[j] in t;
        if t[j] in l[1..] {
          var k :| 0 <= k < |l[1..]| && l[1..][k] == t[j];
          assert l[k + 1] == t[j];
        }
      }
    }
  }

  lemma {:induction false} QueueSorted(arr: seq<Order>, side: Side)
    ensures Sorted(Queue(arr, side), side)
    ensures forall x :: x in Queue(arr, side) <==> x in arr && x.side == side
  {
    if arr != [] {
      var init, o := arr[..|arr| - 1], arr[|arr| - 1];
      QueueSorted(init, side);
      assert arr == init + [o];
      if o.side == side {
        PlaceSorted(Queue(init, side), o);
      }
    }
  }

  lemma QueueSnoc(arr: seq<Order>, o: Order, side: Side)
    ensures Queue(arr + [o], side)
         == if o.side == side then Place(Queue(arr, side), o) else Queue(arr, side)
  {
    assert (arr + [o])[..|arr|] == arr;
  }

  // ── The queue commutes with every change a fill makes ─────────────────

  lemma {:induction false} PlaceKeep(l: seq<Order>, o: Order, sel: Selector)
    requires Sorted(l, o.side)
    ensures Keep(Place(l, o), sel)
         == if sel.Holds(o) then Place(Keep(l, sel), o) else Keep(l, sel)
  {
    if l == [] {
      assert [o][1..] == [];
    } else if Precedes(o.side, o.price, l[0].price) {
      assert ([o] + l)[1..] == l;
      KeepIn(l, sel);
      if Keep(l, sel) != [] {
        var h := Keep(l, sel)[0];
        assert h in Keep(l, sel);
        var k :| 0 <= k < |l| && l[k] == h;
        assert !Precedes(o.side, l[k].price, l[0].price) || k == 0;
      }
    } else {
      PlaceKeep(l[1..], o, sel);
      assert ([l[0]] + Place(l[1..], o))[1..] == Place(l[1..], o);
      var t := Keep(l[1..], sel);
      assert ([l[0]] + t)[1..] == t;
    }
  }

  lemma {:induction false} QueueKeep(arr: seq<Order>, side: Side, sel: Selector)
    ensures Queue(Keep(arr, sel), side) == Keep(Queue(arr, side), sel)
  {
    if arr != [] {
      var init, o := arr[..|arr| - 1], arr[|arr| - 1];
      assert arr == init + [o];
      QueueKeep(init, side, sel);
      KeepSnoc(init, o, sel);
      QueueSnoc(Keep(init, sel), o, side);
      QueueSorted(init, side);
      if o.side == side {
        PlaceKeep(Queue(init, side), o, sel);
      }
      assert Keep(init, sel) + [] == Keep(init, sel);
    }
  }

  lemma {:induction false} PlaceSetQty(l: seq<Order>, o: Order, id: OrderId, q: int)
    ensures SetQty(Place(l, o), id, q) == Place(SetQty(l, id, q), Resized(o, id, q))
  {
    if l == [] {
      assert [o][1..] == [] && SetQty([], id, q) == [];
    } else {
      var l' := SetQty(l, id, q);
      assert l'[0] == Resized(l[0], id, q) && l'[1..] == SetQty(l[1..], id, q);
      if Precedes(o.side, o.price, l[0].price) {
        assert ([o] + l)[1..] == l;
      } else {
        PlaceSetQty(l[1..], o, id, q);
        assert ([l[0]] + Place(l[1..], o))[1..] == Place(l[1..], o);
      }
    }
  }

  lemma {:induction false} SetQtySnoc(arr: seq<Order>, o: Order, id: OrderId, q: int)
    ensures SetQty(arr + [o], id, q) == SetQty(arr, id, q) + [Resized(o, id, q)]
  {
    if arr == [] {
      assert [] + [o] == [o] && [o][1..] == [];
    } else {
      assert (arr + [o])[1..] == arr[1..] + [o];
      SetQtySnoc(arr[1..], o, id, q);
    }
  }

  lemma {:induction false} QueueSetQty(arr: seq<Order>, side: Side, id: OrderId, q: int)
    ensures Queue(SetQty(arr, id, q), side) == SetQty(Queue(arr, side), id, q)
  {
    if arr != [] {
      var init, o := arr[..|arr| - 1], arr[|arr| - 1];
      assert arr == init + [o];
      QueueSetQty(init, side, id, q);
      SetQtySnoc(init, o, id, q);
      QueueSnoc(SetQty(init, id, q), Resized(o, id, q), side);
      PlaceSetQty(Queue(init, side), o, id, q);
    }
  }

  lemma QueueDistinct(arr: seq<Order>, side: Side)
    requires Distinct(arr)
    ensures Distinct(Queue(arr, side))
  {
    if arr != [] {
      var init, o := arr[..|arr| - 1], arr[|arr| - 1];
      QueueDistinct(init, side);
      QueueSorted(init, side);
      if o.side == side {
        forall x | x in Queue(init, side) ensures x.orderId != o.orderId {
          var i :| 0 <= i < |init| && init[i] == x;
          assert arr[i] == x;
        }
        PlaceDistinct(Queue(init, side), o);
      }
    }
  }

  lemma {:induction false} PlaceDistinct(l: seq<Order>, o: Order)
    requires Distinct(l) && Sorted(l, o.side) && forall x :: x in l ==> x.orderId != o.orderId
    ensures Distinct(Place(l, o))
  {
    if l != [] && !Precedes(o.side, o.price, l[0].price) {
      PlaceDistinct(l[1..], o);
      PlaceSorted(l[1..], o);
      var t := Place(l[1..], o);
      forall j | 0 <= j < |t| ensures t[j].orderId != l[0].orderId {
        assert t[j] in t;
        if t[j] in l[1..] {
          var k :| 0 <= k < |l[1..]| && l[1..][k] == t[j];
          assert l[k + 1] == t[j];
        }
      }
    }
  }

  // A fill on a queued maker changes the queue and the list alike.
  lemma QueueConsume(arr: seq<Order>, side: Side, o: Order, qty: int)
    requires Distinct(arr) && o in arr && o.side == side
    ensures Queue(Consume(arr, o.orderId, qty), side) == Consume(Queue(arr, side), o.orderId, qty)
  {
    hide Distinct, Queue;
    LookupUnique(arr, o);
    QueueDistinct(arr, side);
    QueueSorted(arr, side);
    LookupUnique(Queue(arr, side), o);
    QueueKeep(arr, side, NotId(o.orderId));
    QueueSetQty(arr, side, o.orderId, o.remaining - qty);
  }

  // ── The queue is the sorted levels laid end to end ────────────────────

  function ByPrice(arr: seq<Order>, side: Side, prices: seq<int>): seq<Order> {
    if prices == [] then []
    else Keep(arr, AtLevel(side, prices[0])) + ByPrice(arr, side, prices[1..])
  }

  lemma {:induction false} QueueAtLevel(arr: seq<Order>, side: Side, p: int)
    ensures Keep(Queue(arr, side), AtLevel(side, p)) == Keep(arr, AtLevel(side, p))
  {
    if arr != [] {
      var init, o := arr[..|arr| - 1], arr[|arr| - 1];
      assert arr == init + [o];
      QueueAtLevel(init, side, p);
      KeepSnoc(init, o, AtLevel(side, p));
      QueueSorted(init, side);
      var l := Keep(init, AtLevel(side, p));
      assert l + [] == l;
      if o.side == side {
        PlaceKeep(Queue(init, side), o, AtLevel(side, p));
        KeepIn(init, AtLevel(side, p));
        if o.price == p { PlaceLast(l, o); }
      }
    }
  }

  lemma {:induction false} PlaceLast(l: seq<Order>, o: Order)
    requires forall x :: x in l ==> x.price == o.price
    ensures Place(l, o) == l + [o]
  {
    if l != [] {
      PlaceLast(l[1..], o);
      assert l == [l[0]] + l[1..];
    }
  }

  // A sorted list whose head is not at the first price has nothing there.
  lemma HeadLevelEmpty(l: seq<Order>, side: Side, prices: seq<int>)
    requires Sorted(l, side) && prices != []
    requires Ranked(prices, side)
    requires forall o :: o in l ==> o.price in prices
    requires l == [] || l[0].price != prices[0]
    ensures Keep(l, AtLevel(side, prices[0])) == []
    ensures forall o :: o in l ==> o.price in prices[1..]
  {
    forall o | o in l ensures o.price in prices[1..] && o.price != prices[0] {
      var k :| 0 <= k < |l| && l[k] == o;
      assert l[0] in l;
      var m :| 0 <= m < |prices| && prices[m] == l[0].price;
      assert Precedes(side, prices[0], prices[m]);
      var n :| 0 <= n < |prices| && prices[n] == o.price;
      assert n != 0;
      assert prices[1..][n - 1] == o.price;
    }
    KeepNone(l, AtLevel(side, prices[0]));
  }

  lemma SortedTail(l: seq<Order>, side: Side)
    requires Sorted(l, side) && l != []
    ensures Sorted(l[1..], side) && l[0].side == side
    ensures forall o :: o in l[1..] ==> o in l
  {
    assert l[0] in l;
  }

  lemma HeadOnce(prices: seq<int>, side: Side)
    requires prices != []
    requires Ranked(prices, side)
    ensures prices[0] !in prices[1..]
  {
    forall n | 0 <= n < |prices[1..]| ensures prices[1..][n] != prices[0] {
      assert Precedes(side, prices[0], prices[n + 1]);
    }
  }

  lemma NoMembers(l: seq<Order>)
    requires forall o :: o !in l
    ensures l == []
  {
    KeepAll(l, NotId(0));
    KeepNone(l, NotId(0));
  }

  lemma {:induction false} SortedByPrice(l: seq<Order>, side: Side, prices: seq<int>)
    requires Sorted(l, side)
    requires Ranked(prices, side)
    requires forall o :: o in l ==> o.price in prices
    ensures l == ByPrice(l, side, prices)
    decreases |prices|, |l|
  {
    if prices == [] {
      NoMembers(l);
    } else if l == [] || l[0].price != prices[0] {
      HeadLevelEmpty(l, side, prices);
      SortedByPrice(l, side, prices[1..]);
    } else {
      var tail := l[1..];
      SortedTail(l, side);
      hide Sorted;
      SortedByPrice(tail, side, prices);
      HeadOnce(prices, side);
      SkipLevels(l, side, prices[1..]);
      HeadJoins(l, side, prices);
    }
  }

  lemma HeadJoins(l: seq<Order>, side: Side, prices: seq<int>)
    requires l != [] && prices != [] && AtLevel(side, prices[0]).Holds(l[0])
    requires l[1..] == ByPrice(l[1..], side, prices)
    requires ByPrice(l, side, prices[1..]) == ByPrice(l[1..], side, prices[1..])
    ensures l == ByPrice(l, side, prices)
  {
    var k, r := Keep(l[1..], AtLevel(side, prices[0])), ByPrice(l[1..], side, prices[1..]);
    assert ([l[0]] + k) + r == [l[0]] + (k + r);
    assert l == [l[0]] + l[1..];
  }

  lemma {:induction false} SkipLevels(l: seq<Order>, side: Side, prices: seq<int>)
    requires l != [] && l[0].price !in prices
    ensures ByPrice(l, side, prices) == ByPrice(l[1..], side, prices)
  {
    if prices != [] {
      SkipLevels(l, side, prices[1..]);
    }
  }

  lemma {:induction false} ByPriceSame(a: seq<Order>, b: seq<Order>, side: Side, prices: seq<int>)
    requires forall i :: 0 <= i < |prices| ==>
      Keep(a, AtLevel(side, prices[i])) == Keep(b, AtLevel(side, prices[i]))
    ensures ByPrice(a, side, prices) == ByPrice(b, side, prices)
  {
    if prices != [] {
      forall i | 0 <= i < |prices[1..]|
        ensures Keep(a, AtLevel(side, prices[1..][i])) == Keep(b, AtLevel(side, prices[1..][i]))
      {
        assert prices[1..][i] == prices[i + 1];
      }
      ByPriceSame(a, b, side, prices[1..]);
    }
  }

  lemma QueueByPrice(arr: seq<Order>, side: Side, prices: seq<int>)
    requires Ranked(prices, side)
    requires forall o :: o in arr && o.side == side ==> o.price in prices
    ensures Queue(arr, side) == ByPrice(arr, side, prices)
  {
    QueueSorted(arr, side);
    SortedByPrice(Queue(arr, side), side, prices);
    forall i | 0 <= i < |prices|
      ensures Keep(Queue(arr, side), AtLevel(side, prices[i])) == Keep(arr, AtLevel(side, prices[i]))
    {
      QueueAtLevel(arr, side, prices[i]);
    }
    ByPriceSame(Queue(arr, side), arr, side, prices);
  }
}
