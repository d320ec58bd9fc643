// Matching: the two-level loop over sorted levels and FIFO lists, and the
// one-line rule it implements, a walk down the priority queue.
module Matcher {
  import opened Common
  import opened Arrivals
  import opened SortedKeys
  import opened Priority
  import opened OrderBooks

  // A single fill, always at the maker's price.
  datatype Fill = Fill(makerId: OrderId, takerId: OrderId, makerUser: UserId, takerUser: UserId,
                       price: int, qty: int, takerSide: Side)

  // The price bound a taker trades within; market-like orders have none.
  function LimitOf(t: Order): Option<int> {
    if t.orderType.IsLimit() then Some(t.price) else None
  }

  function FillOf(maker: Order, t: Order): Fill {
    Fill(maker.orderId, t.orderId, maker.userId, t.userId, maker.price,
         Min(t.remaining, maker.remaining), t.side)
  }

  function FillSum(fills: seq<Fill>): int {
    if fills == [] then 0 else FillSum(fills[..|fills| - 1]) + fills[|fills| - 1].qty
  }

  function Less(t: Order, qty: int): Order {
    t.(remaining := t.remaining - qty)
  }

  predicate Stops(makers: seq<Order>, t: Order) {
    makers == [] || t.remaining == 0 || !Crosses(t.side, LimitOf(t), makers[0].price)
  }

  // The rule: trade with the head of the queue until the taker is done or the
  // head no longer crosses.
  function Walk(makers: seq<Order>, t: Order): seq<Fill>
    decreases |makers|
  {
    if Stops(makers, t) then []
    else
      var f := FillOf(makers[0], t);
      [f] + Walk(makers[1..], Less(t, f.qty))
  }

  // What the walk leaves of the queue.
  function Rest(makers: seq<Order>, t: Order): seq<Order>
    decreases |makers|
  {
    if Stops(makers, t) then makers
    else
      var q := FillOf(makers[0], t).qty;
      if q == makers[0].remaining then Rest(makers[1..], Less(t, q))
      else [Less(makers[0], q)] + makers[1..]
  }

  function ApplyFills(arr: seq<Order>, fills: seq<Fill>): seq<Order> {
    if fills == [] then arr
    else
      var f := fills[|fills| - 1];
      Consume(ApplyFills(arr, fills[..|fills| - 1]), f.makerId, f.qty)
  }

  datatype Outcome = Outcome(arr: seq<Order>, taker: Order, fills: seq<Fill>, rejected: bool)

  function Match(arr: seq<Order>, t: Order): Outcome {
    var makers := Queue(arr, t.side.Opposite());
    if t.tif.PostOnly? then
      Outcome(arr, t, [], makers != [] && Crosses(t.side, Some(t.price), makers[0].price))
    else if t.tif.Fok? && Reachable(makers, t.side, LimitOf(t)) < t.remaining then
      Outcome(arr, t, [], true)
    else
      var fills := Walk(makers, t);
      Outcome(ApplyFills(arr, fills), Less(t, FillSum(fills)), fills, false)
  }

  // ── One consumed maker, seen from elsewhere in the list ───────────────

  lemma ConsumeIsLocal(arr: seq<Order>, o: Order, qty: int)
    requires Distinct(arr) && o in arr
    ensures Distinct(Consume(arr, o.orderId, qty))
    ensures forall x :: x in arr && x.orderId != o.orderId ==> x in Consume(arr, o.orderId, qty)
    ensures forall x :: x in Consume(arr, o.orderId, qty) ==>
      (x in arr && x.orderId != o.orderId) || (x == Less(o, qty) && o.remaining != qty)
    ensures o.remaining != qty ==> Less(o, qty) in Consume(arr, o.orderId, qty)
  {
    hide Distinct, SetQty, Keep;
    LookupUnique(arr, o);
    if o.remaining == qty {
      KeepDistinct(arr, NotId(o.orderId));
      KeepIn(arr, NotId(o.orderId));
    } else {
      SetQtyDistinct(arr, o.orderId, o.remaining - qty);
      SetQtyIn(arr, o, o.remaining - qty);
    }
  }

  lemma SetQtyIn(arr: seq<Order>, o: Order, q: int)
    requires Distinct(arr) && o in arr
    ensures forall x :: x in SetQty(arr, o.orderId, q) <==>
      (x in arr && x.orderId != o.orderId) || x == o.(remaining := q)
  {
    hide Distinct, SetQty;
    var arr' := SetQty(arr, o.orderId, q);
    SetQtyAt(arr, o.orderId, q);
    forall x | x in arr && (x.orderId != o.orderId || x == o)
      ensures Resized(x, o.orderId, q) in arr'
    {
      var i :| 0 <= i < |arr| && arr[i] == x;
      assert arr'[i] == Resized(x, o.orderId, q);
    }
    assert Resized(o, o.orderId, q) == o.(remaining := q);
    forall x | x in arr'
      ensures (x in arr && x.orderId != o.orderId) || x == o.(remaining := q)
    {
      var i :| 0 <= i < |arr| && arr'[i] == x;
      if arr[i].orderId == o.orderId { SameIdSameOrder(arr, arr[i], o); }
    }
  }

  lemma ConsumeElsewhere(arr: seq<Order>, o: Order, qty: int, sel: Selector)
    requires Distinct(arr) && o in arr && !sel.Holds(o)
    ensures Keep(Consume(arr, o.orderId, qty), sel) == Keep(arr, sel)
  {
    hide Distinct;
    LookupUnique(arr, o);
    KeepIn(arr, sel);
    forall x | x in Keep(arr, sel) ensures x.orderId != o.orderId {
      if x.orderId == o.orderId { SameIdSameOrder(arr, x, o); }
    }
    assert !HasId(Keep(arr, sel), o.orderId);
    AbsentUnchanged(Keep(arr, sel), o.orderId, o.remaining - qty);
    KeepCommutes(arr, NotId(o.orderId), sel);
    KeepSetQty(arr, o.orderId, o.remaining - qty, sel);
  }

  // ── The matching loops ────────────────────────────────────────────────

  // The makers the loops have still to visit are as they were at the start.
  ghost predicate Untouched(now: seq<Order>, start: seq<Order>, side: Side, prices: seq<int>) {
    forall j :: 0 <= j < |prices| ==>
      Keep(now, AtLevel(side, prices[j])) == Keep(start, AtLevel(side, prices[j]))
  }

  lemma UntouchedAfter(now: seq<Order>, start: seq<Order>, o: Order, qty: int, prices: seq<int>)
    requires Distinct(now) && o in now && o.price !in prices
    requires Untouched(now, start, o.side, prices)
    ensures Untouched(Consume(now, o.orderId, qty), start, o.side, prices)
  {
    forall j | 0 <= j < |prices|
      ensures Keep(Consume(now, o.orderId, qty), AtLevel(o.side, prices[j]))
           == Keep(start, AtLevel(o.side, prices[j]))
    {
      assert prices[j] in prices;
      ConsumeElsewhere(now, o, qty, AtLevel(o.side, prices[j]));
    }
  }

  lemma WalkStep(makers: seq<Order>, t: Order, before: seq<Fill>, all: seq<Fill>)
    requires all == before + Walk(makers, t) && !Stops(makers, t)
    ensures var f := FillOf(makers[0], t);
      all == (before + [f]) + Walk(makers[1..], Less(t, f.qty))
  {
    var f := FillOf(makers[0], t);
    assert before + ([f] + Walk(makers[1..], Less(t, f.qty)))
        == (before + [f]) + Walk(makers[1..], Less(t, f.qty));
  }

  lemma NextMaker(lvl: seq<Order>, k: nat, later: seq<Order>)
    requires k < |lvl|
    ensures (lvl[k..] + later)[0] == lvl[k] && (lvl[k..] + later)[1..] == lvl[k + 1..] + later
  {
  }

  lemma FillsSnoc(arr: seq<Order>, fills: seq<Fill>, f: Fill)
    ensures ApplyFills(arr, fills + [f]) == Consume(ApplyFills(arr, fills), f.makerId, f.qty)
    ensures FillSum(fills + [f]) == FillSum(fills) + f.qty
  {
    assert (fills + [f])[..|fills|] == fills;
  }

  // Match a taker against one price level, in FIFO order.
  method MatchLevel(book: OrderBook, taker: Order, ghost start: seq<Order>, ghost lvl: seq<Order>,
                    ids: seq<OrderId>, ghost later: seq<int>, filled: seq<Fill>, ghost all: seq<Fill>)
    returns (fills: seq<Fill>, left: Order)
    requires book.Valid() && ids == Ids(lvl)
    requires forall o :: o in lvl ==> o.side == taker.side.Opposite() && o in book.arrivals
    requires forall o :: o in lvl ==> Crosses(taker.side, LimitOf(taker), o.price) && o.price !in later
    requires Distinct(lvl) && Untouched(book.arrivals, start, taker.side.Opposite(), later)
    requires book.arrivals == ApplyFills(start, filled)
    requires all == filled + Walk(lvl + ByPrice(start, taker.side.Opposite(), later), taker)
    modifies book
    ensures book.Valid() && Untouched(book.arrivals, start, taker.side.Opposite(), later)
    ensures book.arrivals == ApplyFills(start, fills)
    ensures left == Less(taker, FillSum(fills) - FillSum(filled))
    ensures all == fills + Walk(ByPrice(start, taker.side.Opposite(), later), left)
  {
    hide OrderBook.Valid, Distinct, Untouched, ByPrice, Walk, FillSum, ApplyFills, Consume;
    fills, left := filled, taker;
    ghost var opp, tail := taker.side.Opposite(), ByPrice(start, taker.side.Opposite(), later);
    assert lvl[0..] == lvl;
    var k := 0;
    while k < |ids| && left.remaining != 0
      invariant 0 <= k <= |ids|
      invariant book.Valid() && Untouched(book.arrivals, start, opp, later)
      invariant book.arrivals == ApplyFills(start, fills)
      invariant left == Less(taker, FillSum(fills) - FillSum(filled))
      invariant forall j :: k <= j < |lvl| ==> lvl[j] in book.arrivals
      invariant all == fills + Walk(lvl[k..] + tail, left)
    {
      NextMaker(lvl, k, tail);
      assert lvl[k] in lvl;
      book.Parts(opp);
      LookupUnique(book.arrivals, lvl[k]);
      var maker := book.GetOrder(ids[k]);
      if maker.Some? {
        ghost var was := book.arrivals;
        var f := FillOf(maker.value, left);
        WalkStep(lvl[k..] + tail, left, fills, all);
        FillsSnoc(start, fills, f);
        ConsumeIsLocal(was, lvl[k], f.qty);
        UntouchedAfter(was, start, lvl[k], f.qty, later);
        LevelTailKept(lvl, k);
        fills := fills + [f];
        left := Less(left, f.qty);
        var newMakerRemaining := maker.value.remaining - f.qty;
        ConsumeCases(was, lvl[k], f.qty);
        if newMakerRemaining == 0 {
          var _ := book.RemoveOrder(ids[k]);
        } else {
          book.UpdateQty(ids[k], newMakerRemaining);
        }
      }
      k := k + 1;
    }
    if k == |ids| {
      assert lvl[k..] + tail == tail;
    } else {
      WalkDone(lvl[k..] + tail, left);
      WalkDone(tail, left);
    }
  }

  lemma WalkDone(makers: seq<Order>, t: Order)
    requires Stops(makers, t)
    ensures Walk(makers, t) == []
  {
  }

  lemma LevelTailKept(lvl: seq<Order>, k: nat)
    requires Distinct(lvl) && k < |lvl|
    ensures forall j :: k < j < |lvl| ==> lvl[j].orderId != lvl[k].orderId
  {
  }

  lemma ConsumeCases(arr: seq<Order>, o: Order, qty: int)
    requires Distinct(arr) && o in arr
    ensures Consume(arr, o.orderId, qty)
         == if o.remaining - qty == 0 then Keep(arr, NotId(o.orderId))
            else SetQty(arr, o.orderId, o.remaining - qty)
  {
    LookupUnique(arr, o);
  }

  // Match an incoming order against the opposite side, best level first.
  method MatchAgainst(book: OrderBook, taker: Order) returns (fills: seq<Fill>, left: Order)
    requires book.Valid()
    modifies book
    ensures book.Valid()
    ensures fills == Walk(Queue(old(book.arrivals), taker.side.Opposite()), taker)
    ensures left == Less(taker, FillSum(fills))
    ensures book.arrivals == ApplyFills(old(book.arrivals), fills)
  {
    hide OrderBook.Valid, Distinct, Untouched, Walk, ApplyFills, LevelsIndexed, Keep, FillSum, ByPrice, Ids,
         Ranked, Queue, InOrder;
    var opp := taker.side.Opposite();
    var prices := InOrder(book.LevelsOf(opp).Keys, opp);
    ghost var start := book.arrivals;
    StartOfWalk(book, opp, prices);
    ghost var all := Walk(Queue(start, opp), taker);
    fills, left := [], taker;
    assert [] + all == all;
    var i := 0;
    while i < |prices| && left.remaining != 0 && Crosses(taker.side, LimitOf(taker), prices[i])
      invariant 0 <= i <= |prices|
      invariant book.Valid() && Untouched(book.arrivals, start, opp, prices[i..])
      invariant book.arrivals == ApplyFills(start, fills)
      invariant left == Less(taker, FillSum(fills))
      invariant all == fills + Walk(ByPrice(start, opp, prices[i..]), left)
    {
      LevelHead(book.arrivals, start, opp, prices, i);
      var levels := book.LevelsOf(opp);
      ghost var lvl := Keep(book.arrivals, AtLevel(opp, prices[i]));
      LevelReady(book, opp, prices[i]);
      var ids := if prices[i] in levels then levels[prices[i]].ids else [];
      fills, left := MatchLevel(book, left, start, lvl, ids, prices[i + 1..], fills, all);
      i := i + 1;
    }
    RemainingStops(start, opp, prices, i, left);
    assert fills + [] == fills;
  }

  lemma StartOfWalk(book: OrderBook, side: Side, prices: seq<int>)
    requires book.Valid() && prices == InOrder(book.LevelsOf(side).Keys, side)
    ensures Queue(book.arrivals, side) == ByPrice(book.arrivals, side, prices[0..])
    ensures Untouched(book.arrivals, book.arrivals, side, prices[0..])
    ensures ApplyFills(book.arrivals, []) == book.arrivals && FillSum([]) == 0
    ensures forall i :: 0 <= i < |prices| ==> Keep(book.arrivals, AtLevel(side, prices[i])) != []
  {
    LevelPrices(book.arrivals, side, book.LevelsOf(side));
    QueueByPrice(book.arrivals, side, prices);
    assert prices[0..] == prices;
    forall i | 0 <= i < |prices| ensures Keep(book.arrivals, AtLevel(side, prices[i])) != [] {
      assert prices[i] in prices;
      assert LevelIndexed(book.arrivals, side, book.LevelsOf(side), prices[i]);
    }
  }

  lemma LevelHead(now: seq<Order>, start: seq<Order>, side: Side, prices: seq<int>, i: nat)
    requires i < |prices| && Untouched(now, start, side, prices[i..])
    requires Ranked(prices, side)
    ensures Untouched(now, start, side, prices[i + 1..])
    ensures ByPrice(start, side, prices[i..])
         == Keep(now, AtLevel(side, prices[i])) + ByPrice(start, side, prices[i + 1..])
    ensures prices[i] !in prices[i + 1..]
  {
    assert prices[i..][0] == prices[i] && prices[i..][1..] == prices[i + 1..];
    var rest := prices[i + 1..];
    forall j | 0 <= j < |rest|
      ensures Keep(now, AtLevel(side, rest[j])) == Keep(start, AtLevel(side, rest[j]))
      ensures rest[j] != prices[i]
    {
      assert prices[i..][j + 1] == rest[j] == prices[i + 1 + j];
      assert Precedes(side, prices[i], prices[i + 1 + j]);
    }
  }

  lemma LevelReady(book: OrderBook, side: Side, p: int)
    requires book.Valid()
    ensures Ids(Keep(book.arrivals, AtLevel(side, p)))
         == if p in book.LevelsOf(side) then book.LevelsOf(side)[p].ids else []
    ensures Distinct(Keep(book.arrivals, AtLevel(side, p)))
    ensures forall o :: o in Keep(book.arrivals, AtLevel(side, p)) ==>
      o.side == side && o.price == p && o in book.arrivals
  {
    KeepIn(book.arrivals, AtLevel(side, p));
    KeepDistinct(book.arrivals, AtLevel(side, p));
    assert LevelIndexed(book.arrivals, side, book.LevelsOf(side), p);
    assert Ids([]) == [];
  }

  lemma RemainingStops(start: seq<Order>, side: Side, prices: seq<int>, i: nat, left: Order)
    requires i <= |prices| && left.side.Opposite() == side
    requires i == |prices| || left.remaining == 0 || !Crosses(left.side, LimitOf(left), prices[i])
    requires i < |prices| ==> Keep(start, AtLevel(side, prices[i])) != []
    ensures Walk(ByPrice(start, side, prices[i..]), left) == []
  {
    if i < |prices| {
      var at := Keep(start, AtLevel(side, prices[i]));
      KeepIn(start, AtLevel(side, prices[i]));
      assert at[0] in at;
      assert prices[i..][0] == prices[i];
    }
  }

  // Post-only and fill-or-kill first, then the loops.
  method MatchOrder(book: OrderBook, order: Order)
    returns (fills: seq<Fill>, left: Order, rejected: bool)
    requires book.Valid()
    modifies book
    ensures book.Valid()
    ensures Outcome(book.arrivals, left, fills, rejected) == Match(old(book.arrivals), order)
  {
    hide OrderBook.Valid, Walk, Reachable;
    ghost var makers := Queue(book.arrivals, order.side.Opposite());
    if order.tif.PostOnly? {
      var best := book.BestPrice(order.side.Opposite());
      QueueHead(book.arrivals, order.side.Opposite(), best);
      return [], order, best.Some? && Crosses(order.side, Some(order.price), best.value);
    }
    if order.tif.Fok? {
      var available;
      if order.orderType.IsLimit() {
        available := book.AvailableQtyAtPrice(order.side, order.price);
      } else {
        available := book.TotalOppositeQty(order.side);
      }
      ReachableInQueue(book.arrivals, order.side.Opposite(), LimitOf(order));
      if available < order.remaining {
        return [], order, true;
      }
    }
    fills, left := MatchAgainst(book, order);
    rejected := false;
  }

  lemma QueueHead(arr: seq<Order>, side: Side, best: Option<int>)
    requires best.None? <==> Keep(arr, OnSide(side)) == []
    requires best.Some? ==> exists o :: o in arr && o.side == side && o.price == best.value
    requires best.Some? ==> forall o :: o in arr && o.side == side && o.price != best.value
                                    ==> Precedes(side, best.value, o.price)
    ensures best.None? <==> Queue(arr, side) == []
    ensures best.Some? ==> Queue(arr, side)[0].price == best.value
  {
    var l := Queue(arr, side);
    QueueSorted(arr, side);
    KeepIn(arr, OnSide(side));
    if best.None? {
      NoMembers(l);
    } else {
      var o :| o in arr && o.side == side && o.price == best.value;
      var k :| 0 <= k < |l| && l[k] == o;
      assert l[0] in l;
      assert k == 0 || !Precedes(side, l[k].price, l[0].price);
    }
  }

  // ── Depth and the queue ───────────────────────────────────────────────

  lemma {:induction false} ReachablePlace(l: seq<Order>, o: Order, side: Side, limit: Option<int>)
    ensures Reachable(Place(l, o), side, limit)
         == Reachable(l, side, limit) + (if Crosses(side, limit, o.price) then o.remaining else 0)
  {
    if l == [] {
      assert [o][1..] == [];
    } else if Precedes(o.side, o.price, l[0].price) {
      assert ([o] + l)[1..] == l;
    } else {
      ReachablePlace(l[1..], o, side, limit);
      assert ([l[0]] + Place(l[1..], o))[1..] == Place(l[1..], o);
    }
  }

  lemma {:induction false} ReachableConcat(a: seq<Order>, b: seq<Order>, side: Side, limit: Option<int>)
    ensures Reachable(a + b, side, limit) == Reachable(a, side, limit) + Reachable(b, side, limit)
  {
    if a == [] {
      assert a + b == b;
    } else {
      assert (a + b)[1..] == a[1..] + b;
      ReachableConcat(a[1..], b, side, limit);
    }
  }

  lemma {:induction false} ReachableInQueue(arr: seq<Order>, opp: Side, limit: Option<int>)
    ensures Reachable(Queue(arr, opp), opp.Opposite(), limit)
         == Reachable(Keep(arr, OnSide(opp)), opp.Opposite(), limit)
  {
    if arr != [] {
      var init, o := arr[..|arr| - 1], arr[|arr| - 1];
      assert arr == init + [o];
      ReachableInQueue(init, opp, limit);
      KeepSnoc(init, o, OnSide(opp));
      if o.side == opp {
        ReachablePlace(Queue(init, opp), o, opp.Opposite(), limit);
        ReachableConcat(Keep(init, OnSide(opp)), [o], opp.Opposite(), limit);
        assert [o][1..] == [];
      } else {
        assert Keep(init, OnSide(opp)) + [] == Keep(init, OnSide(opp));
      }
    }
  }

  // ── Matching admits no new ids ────────────────────────────────────────

  lemma ConsumeIds(arr: seq<Order>, id: OrderId, qty: int, x: OrderId)
    requires !HasId(arr, x)
    ensures !HasId(Consume(arr, id, qty), x)
  {
    KeepIn(arr, NotId(id));
    var arr' := Consume(arr, id, qty);
    if arr' != arr {
      var o := Lookup(arr, id).value;
      SetQtyAt(arr, id, o.remaining - qty);
      forall i | 0 <= i < |arr'| ensures arr'[i].orderId != x {
        assert arr'[i] in arr';
      }
    }
  }

  lemma {:induction false} ApplyFillsIds(arr: seq<Order>, fills: seq<Fill>, x: OrderId)
    requires !HasId(arr, x)
    ensures !HasId(ApplyFills(arr, fills), x)
  {
    if fills != [] {
      var f := fills[|fills| - 1];
      ApplyFillsIds(arr, fills[..|fills| - 1], x);
      ConsumeIds(ApplyFills(arr, fills[..|fills| - 1]), f.makerId, f.qty, x);
    }
  }

  lemma MatchIds(arr: seq<Order>, t: Order, x: OrderId)
    requires !HasId(arr, x)
    ensures !HasId(Match(arr, t).arr, x)
  {
    ApplyFillsIds(arr, Walk(Queue(arr, t.side.Opposite()), t), x);
  }
}
