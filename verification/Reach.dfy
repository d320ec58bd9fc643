// Read off the book before a match: whether an order will trade, how much it
// will take, and whose orders it will take from.
module Reach {
  import opened Common
  import opened Arrivals
  import opened SortedKeys
  import opened Priority
  import opened OrderBooks
  import opened Matcher
  import opened MatchTheorems

  // The opposite quantity within an order's limit.
  function ReachOf(arr: seq<Order>, t: Order): int {
    Reachable(Keep(arr, OnSide(t.side.Opposite())), t.side, LimitOf(t))
  }

  // An order that may take, and, if it must be filled whole, can be.
  predicate MayTake(arr: seq<Order>, t: Order) {
    !t.tif.PostOnly? && (t.tif.Fok? ==> ReachOf(arr, t) >= t.remaining)
  }

  predicate Trades(arr: seq<Order>, t: Order) {
    MayTake(arr, t) && ReachOf(arr, t) > 0
  }

  // The walk gets to a maker if that crosses and those before it do not already
  // fill the taker.
  predicate GetsTo(makers: seq<Order>, t: Order, k: nat)
    requires k < |makers|
  {
    Crosses(t.side, LimitOf(t), makers[k].price) && Sum(makers[..k]) < t.remaining
  }

  // The maker with this id that an order will take from.
  predicate TakesFrom(arr: seq<Order>, t: Order, id: OrderId) {
    MayTake(arr, t)
    && var makers := Queue(arr, t.side.Opposite());
       exists k :: 0 <= k < |makers| && makers[k].orderId == id && GetsTo(makers, t, k)
  }

  // ── How much a match fills ────────────────────────────────────────────

  lemma MayTakeIff(arr: seq<Order>, t: Order)
    ensures MayTake(arr, t) <==> !t.tif.PostOnly? && !Match(arr, t).rejected
  {
    hide Queue, Reachable, Keep, Walk, ApplyFills;
    ReachableInQueue(arr, t.side.Opposite(), LimitOf(t));
  }

  lemma FilledByReach(arr: seq<Order>, t: Order)
    requires AllPositive(arr) && t.remaining >= 0 && MayTake(arr, t)
    ensures Match(arr, t).taker.remaining == t.remaining - Min(t.remaining, ReachOf(arr, t))
    ensures FillSum(Match(arr, t).fills) == Min(t.remaining, ReachOf(arr, t)) && ReachOf(arr, t) >= 0
  {
    var opp := t.side.Opposite();
    MayTakeIff(arr, t);
    MatchWalks(arr, t);
    ReachableInQueue(arr, opp, LimitOf(t));
    QueuePositive(arr, opp);
    hide Match, Queue, Sorted, Walk, Reachable, FillSum, AllPositive, Keep, MayTake;
    WalkFillsReachable(Queue(arr, opp), t, opp);
  }

  lemma {:induction false} SumOfPositive(fills: seq<Fill>)
    requires forall k :: 0 <= k < |fills| ==> fills[k].qty > 0
    ensures fills != [] ==> FillSum(fills) > 0
  {
    if fills != [] {
      SumOfPositive(fills[..|fills| - 1]);
      assert fills[..|fills| - 1] == [] ==> FillSum(fills[..|fills| - 1]) == 0;
    }
  }

  // A match fills something exactly when the order trades by the book before it.
  lemma TradesIff(arr: seq<Order>, t: Order)
    requires Distinct(arr) && AllPositive(arr) && t.remaining > 0
    ensures Match(arr, t).fills != [] <==> Trades(arr, t)
  {
    MayTakeIff(arr, t);
    NotTaken(arr, t);
    if MayTake(arr, t) {
      FilledByReach(arr, t);
      hide Match, Distinct, AllPositive, MayTake, FillSum, ReachOf;
      MatchKeeps(arr, t);
      SumOfPositive(Match(arr, t).fills);
      NoSum();
    }
  }

  lemma NoSum()
    ensures FillSum([]) == 0
  {
  }

  lemma NotTaken(arr: seq<Order>, t: Order)
    ensures t.tif.PostOnly? || Match(arr, t).rejected ==> Match(arr, t).fills == []
  {
  }

  // ── Whose orders it takes from ────────────────────────────────────────

  lemma {:induction false} SumNotNegative(arr: seq<Order>, k: nat)
    requires AllPositive(arr) && k <= |arr|
    ensures Sum(arr[..k]) >= 0
    decreases k
  {
    if k > 0 {
      assert arr[0] in arr && arr[..k][1..] == arr[1..][..k - 1];
      assert forall o :: o in arr[1..] ==> o in arr;
      SumNotNegative(arr[1..], k - 1);
    }
  }

  lemma StopsReachNone(makers: seq<Order>, t: Order, side: Side, k: nat)
    requires Sorted(makers, side) && t.side.Opposite() == side && AllPositive(makers) && t.remaining >= 0
    requires Stops(makers, t) && k < |makers|
    ensures !GetsTo(makers, t, k)
  {
    SumNotNegative(makers, k);
    assert k == 0 || !Precedes(side, makers[k].price, makers[0].price);
  }

  lemma GetsToNext(makers: seq<Order>, t: Order, k: nat)
    requires !Stops(makers, t) && AllPositive(makers) && t.remaining > 0 && k < |makers|
    ensures var f := FillOf(makers[0], t);
      GetsTo(makers, t, k) <==> k == 0 || (f.qty == makers[0].remaining && GetsTo(makers[1..], Less(t, f.qty), k - 1))
    ensures var f := FillOf(makers[0], t);
      f.qty != makers[0].remaining ==> Walk(makers[1..], Less(t, f.qty)) == []
  {
    assert makers[..0] == [];
    if k > 0 {
      assert makers[0] in makers && makers[..k][1..] == makers[1..][..k - 1];
      assert forall o :: o in makers[1..] ==> o in makers;
      SumNotNegative(makers[1..], k - 1);
    }
  }

  // The walk takes from exactly the makers it gets to.
  lemma {:induction false} WalkTakesFrom(makers: seq<Order>, t: Order, side: Side, id: OrderId)
    requires Sorted(makers, side) && t.side.Opposite() == side && AllPositive(makers) && t.remaining >= 0
    ensures Mentions(Walk(makers, t), id) <==>
      exists k :: 0 <= k < |makers| && makers[k].orderId == id && GetsTo(makers, t, k)
    decreases |makers|
  {
    hide GetsTo, Sorted;
    if Stops(makers, t) {
      forall k | 0 <= k < |makers| ensures !GetsTo(makers, t, k) { StopsReachNone(makers, t, side, k); }
    } else {
      var f := FillOf(makers[0], t);
      var tail, left := makers[1..], Less(t, f.qty);
      SortedTail(makers, side);
      assert forall o :: o in tail ==> o in makers;
      WalkTakesFrom(tail, left, side, id);
      forall k | 0 <= k < |makers|
        ensures GetsTo(makers, t, k) <==> k == 0 || (f.qty == makers[0].remaining && GetsTo(tail, left, k - 1))
      {
        GetsToNext(makers, t, k);
      }
      GetsToNext(makers, t, 0);
      MentionsCons(f, Walk(tail, left), id);
      TakesFromCons(makers, t, id);
    }
  }

  lemma MentionsCons(f: Fill, fills: seq<Fill>, id: OrderId)
    ensures Mentions([f] + fills, id) <==> f.makerId == id || Mentions(fills, id)
  {
    if Mentions(fills, id) {
      var k :| 0 <= k < |fills| && fills[k].makerId == id;
      assert ([f] + fills)[k + 1].makerId == id;
    }
    assert ([f] + fills)[0] == f;
  }

  lemma TakesFromCons(makers: seq<Order>, t: Order, id: OrderId)
    requires !Stops(makers, t)
    requires var f := FillOf(makers[0], t);
      forall k :: 0 <= k < |makers| ==>
        (GetsTo(makers, t, k) <==>
           k == 0 || (f.qty == makers[0].remaining && GetsTo(makers[1..], Less(t, f.qty), k - 1)))
    ensures var f := FillOf(makers[0], t);
      var tail, left := makers[1..], Less(t, f.qty);
      (exists k :: 0 <= k < |makers| && makers[k].orderId == id && GetsTo(makers, t, k)) <==>
        makers[0].orderId == id
        || (f.qty == makers[0].remaining
            && exists k :: 0 <= k < |tail| && tail[k].orderId == id && GetsTo(tail, left, k))
  {
    hide GetsTo;
    var f := FillOf(makers[0], t);
    var tail, left := makers[1..], Less(t, f.qty);
    if k :| 0 <= k < |makers| && makers[k].orderId == id && GetsTo(makers, t, k) {
      if k > 0 { assert tail[k - 1] == makers[k] && GetsTo(tail, left, k - 1); }
    }
    if makers[0].orderId == id { assert GetsTo(makers, t, 0); }
    if f.qty == makers[0].remaining {
      if k :| 0 <= k < |tail| && tail[k].orderId == id && GetsTo(tail, left, k) {
        assert makers[k + 1] == tail[k] && GetsTo(makers, t, k + 1);
      }
    }
  }

  // A match takes from exactly the orders that the book before it says.
  lemma MatchTakesFrom(arr: seq<Order>, t: Order, id: OrderId)
    requires AllPositive(arr) && t.remaining >= 0
    ensures Mentions(Match(arr, t).fills, id) <==> TakesFrom(arr, t, id)
  {
    var opp := t.side.Opposite();
    MayTakeIff(arr, t);
    NotTaken(arr, t);
    QueuePositive(arr, opp);
    if MayTake(arr, t) {
      MatchWalks(arr, t);
      hide Match, Queue, Sorted, Walk, AllPositive, MayTake, Mentions;
      WalkTakesFrom(Queue(arr, opp), t, opp, id);
    }
  }
}
