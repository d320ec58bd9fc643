// What matching promises: price-time priority, exact quantities, and the
// all-or-nothing rules of fill-or-kill and post-only orders.
module MatchTheorems {
  import opened Common
  import opened Arrivals
  import opened SortedKeys
  import opened Priority
  import opened OrderBooks
  import opened Matcher

  ghost predicate HasMaker(arr: seq<Order>, f: Fill) {
    exists o :: o in arr && o.orderId == f.makerId && 0 < f.qty <= o.remaining
  }

  predicate Mentions(fills: seq<Fill>, id: OrderId) {
    exists k :: 0 <= k < |fills| && fills[k].makerId == id
  }

  // Fills that each reduce a different order of the list, by no more than it has.
  ghost predicate Fillable(arr: seq<Order>, fills: seq<Fill>) {
    && Distinct(arr)
    && (forall k :: 0 <= k < |fills| ==> HasMaker(arr, fills[k]))
    && (forall j, k :: 0 <= j < k < |fills| ==> fills[j].makerId != fills[k].makerId)
  }

  predicate SameButQty(a: Order, b: Order) {
    a.(remaining := 0) == b.(remaining := 0)
  }

  // An order of the list, possibly reduced.
  ghost predicate ComesFrom(x: Order, arr: seq<Order>) {
    exists o :: o in arr && SameButQty(x, o)
  }

  lemma ComesFromSelf(arr: seq<Order>)
    ensures forall x :: x in arr ==> ComesFrom(x, arr)
  {
    forall x | x in arr ensures ComesFrom(x, arr) { assert SameButQty(x, x); }
  }

  // A fill of taker t against one maker, at the maker's price and within both.
  predicate Fits(f: Fill, maker: Order, t: Order) {
    && f.makerId == maker.orderId && f.makerUser == maker.userId
    && f.takerId == t.orderId && f.takerUser == t.userId && f.takerSide == t.side
    && f.price == maker.price && Crosses(t.side, LimitOf(t), f.price)
    && 0 < f.qty <= maker.remaining
  }

  predicate Drains(fills: seq<Fill>, makers: seq<Order>, n: nat)
    requires n <= |fills| && n <= |makers|
  {
    forall i :: 0 <= i < n ==> fills[i].qty == makers[i].remaining
  }

  lemma FillSumCons(f: Fill, fills: seq<Fill>)
    ensures FillSum([f] + fills) == f.qty + FillSum(fills)
  {
    if fills == [] {
      assert [f] + fills == [f] && [f][..0] == [];
    } else {
      var n := |fills|;
      assert ([f] + fills)[..n] == [f] + fills[..n - 1];
      FillSumCons(f, fills[..n - 1]);
    }
  }

  lemma ApplyFillsCons(arr: seq<Order>, f: Fill, fills: seq<Fill>)
    ensures ApplyFills(arr, [f] + fills) == ApplyFills(Consume(arr, f.makerId, f.qty), fills)
  {
    if fills == [] {
      assert [f] + fills == [f] && [f][..0] == [];
    } else {
      var n := |fills|;
      assert ([f] + fills)[..n] == [f] + fills[..n - 1];
      ApplyFillsCons(arr, f, fills[..n - 1]);
    }
  }

  // The shape of the walk: it takes a prefix of the queue, at the makers' own
  // prices, drains every maker but the last, and stops only when the taker is
  // done or the next maker does not cross.
  lemma {:induction false} WalkShape(makers: seq<Order>, t: Order)
    requires AllPositive(makers) && t.remaining >= 0
    ensures var fs := Walk(makers, t);
      && |fs| <= |makers|
      && (forall i :: 0 <= i < |fs| ==> Fits(fs[i], makers[i], t))
      && Drains(fs, makers, if fs == [] then 0 else |fs| - 1)
      && 0 <= FillSum(fs) <= t.remaining
      && (FillSum(fs) < t.remaining ==> Drains(fs, makers, |fs|) && Stops(makers[|fs|..], t))
    decreases |makers|
  {
    if !Stops(makers, t) {
      var f := FillOf(makers[0], t);
      var t', tail := Less(t, f.qty), makers[1..];
      assert makers[0] in makers;
      assert forall o :: o in tail ==> o in makers;
      WalkShape(tail, t');
      WalkShapeCons(makers, t, Walk(tail, t'));
    }
  }

  lemma WalkShapeCons(makers: seq<Order>, t: Order, rest: seq<Fill>)
    requires !Stops(makers, t) && t.remaining > 0 && makers[0].remaining > 0
    requires var f := FillOf(makers[0], t); var t', tail := Less(t, f.qty), makers[1..];
      && |rest| <= |tail| && (t'.remaining == 0 ==> rest == [])
      && (forall i :: 0 <= i < |rest| ==> Fits(rest[i], tail[i], t'))
      && Drains(rest, tail, if rest == [] then 0 else |rest| - 1)
      && 0 <= FillSum(rest) <= t'.remaining
      && (FillSum(rest) < t'.remaining ==> Drains(rest, tail, |rest|) && Stops(tail[|rest|..], t'))
    ensures var fs := [FillOf(makers[0], t)] + rest;
      && (forall i :: 0 <= i < |fs| ==> Fits(fs[i], makers[i], t))
      && Drains(fs, makers, |fs| - 1)
      && 0 <= FillSum(fs) <= t.remaining
      && (FillSum(fs) < t.remaining ==> Drains(fs, makers, |fs|) && Stops(makers[|fs|..], t))
  {
    var f := FillOf(makers[0], t);
    var fs := [f] + rest;
    FillSumCons(f, rest);
    FitsCons(makers, t, rest);
    hide Fits;
    if rest != [] { DrainsCons(f, rest, makers, |rest| - 1); }
    if FillSum(fs) < t.remaining {
      DrainsCons(f, rest, makers, |rest|);
      assert makers[1..][|rest|..] == makers[|fs|..];
    }
  }

  lemma FitsCons(makers: seq<Order>, t: Order, rest: seq<Fill>)
    requires !Stops(makers, t) && t.remaining > 0 && makers[0].remaining > 0
    requires |rest| < |makers|
    requires forall i :: 0 <= i < |rest| ==> Fits(rest[i], makers[1..][i], Less(t, FillOf(makers[0], t).qty))
    ensures var fs := [FillOf(makers[0], t)] + rest;
      forall i :: 0 <= i < |fs| ==> Fits(fs[i], makers[i], t)
  {
    var fs := [FillOf(makers[0], t)] + rest;
    forall i | 0 <= i < |fs| ensures Fits(fs[i], makers[i], t) {
      if i > 0 { assert Fits(rest[i - 1], makers[1..][i - 1], Less(t, FillOf(makers[0], t).qty)); }
    }
  }

  lemma DrainsCons(f: Fill, rest: seq<Fill>, makers: seq<Order>, n: nat)
    requires n <= |rest| < |makers| && Drains(rest, makers[1..], n)
    requires f.qty == makers[0].remaining
    ensures Drains([f] + rest, makers, n + 1)
  {
    forall i | 0 <= i < n + 1 ensures ([f] + rest)[i].qty == makers[i].remaining {
      if i > 0 { assert rest[i - 1].qty == makers[1..][i - 1].remaining; }
    }
  }

  lemma WalkFillable(arr: seq<Order>, t: Order)
    requires Distinct(arr) && AllPositive(arr) && t.remaining >= 0
    ensures Fillable(arr, Walk(Queue(arr, t.side.Opposite()), t))
  {
    var makers := Queue(arr, t.side.Opposite());
    QueueSorted(arr, t.side.Opposite());
    QueueDistinct(arr, t.side.Opposite());
    WalkShape(makers, t);
    var fs := Walk(makers, t);
    forall k | 0 <= k < |fs|
      ensures HasMaker(arr, fs[k])
    {
      assert Fits(fs[k], makers[k], t) && makers[k] in makers;
    }
    forall j, k | 0 <= j < k < |fs| ensures fs[j].makerId != fs[k].makerId {
      assert Fits(fs[j], makers[j], t) && Fits(fs[k], makers[k], t);
    }
  }

  // What fills leave of a list: untouched orders, and makers reduced by their fill.
  lemma {:induction false} FillsAreLocal(arr: seq<Order>, fills: seq<Fill>)
    requires Fillable(arr, fills)
    ensures Distinct(ApplyFills(arr, fills))
    ensures forall x :: x in arr && !Mentions(fills, x.orderId) ==> x in ApplyFills(arr, fills)
    ensures forall x :: x in ApplyFills(arr, fills) ==> ComesFrom(x, arr)
    ensures AllPositive(arr) ==> AllPositive(ApplyFills(arr, fills))
    ensures Sum(ApplyFills(arr, fills)) == Sum(arr) - FillSum(fills)
  {
    hide Distinct, Fillable, HasMaker, ComesFrom, Consume;
    if fills == [] {
      FillableDistinct(arr, fills);
      ComesFromSelf(arr);
    } else {
      var init, f := fills[..|fills| - 1], fills[|fills| - 1];
      var mid := ApplyFills(arr, init);
      FillableInit(arr, fills);
      FillsAreLocal(arr, init);
      var o := LastMaker(arr, fills);
      ConsumeStep(arr, mid, o, f.qty);
      forall x | x in arr && !Mentions(fills, x.orderId)
        ensures x in Consume(mid, o.orderId, f.qty)
      {
        NotMentioned(fills, x.orderId);
      }
    }
  }

  lemma FillableDistinct(arr: seq<Order>, fills: seq<Fill>)
    requires Fillable(arr, fills)
    ensures Distinct(arr)
  {
  }

  lemma NotMentioned(fills: seq<Fill>, id: OrderId)
    requires fills != [] && !Mentions(fills, id)
    ensures !Mentions(fills[..|fills| - 1], id) && fills[|fills| - 1].makerId != id
  {
  }

  lemma FillableInit(arr: seq<Order>, fills: seq<Fill>)
    requires Fillable(arr, fills) && fills != []
    ensures Fillable(arr, fills[..|fills| - 1])
    ensures !Mentions(fills[..|fills| - 1], fills[|fills| - 1].makerId)
    ensures HasMaker(arr, fills[|fills| - 1])
  {
  }

  // The maker of the last fill is still as it was when its turn comes.
  lemma LastMaker(arr: seq<Order>, fills: seq<Fill>) returns (o: Order)
    requires Fillable(arr, fills) && fills != []
    requires forall x :: x in arr && !Mentions(fills[..|fills| - 1], x.orderId)
                     ==> x in ApplyFills(arr, fills[..|fills| - 1])
    ensures o in arr && o in ApplyFills(arr, fills[..|fills| - 1])
    ensures o.orderId == fills[|fills| - 1].makerId && 0 < fills[|fills| - 1].qty <= o.remaining
  {
    FillableInit(arr, fills);
    var f := fills[|fills| - 1];
    hide Fillable;
    o :| o in arr && o.orderId == f.makerId && 0 < f.qty <= o.remaining;
  }

  lemma ConsumeStep(arr: seq<Order>, mid: seq<Order>, o: Order, qty: int)
    requires Distinct(mid) && o in mid && 0 < qty <= o.remaining
    requires forall x :: x in mid ==> ComesFrom(x, arr)
    ensures Distinct(Consume(mid, o.orderId, qty))
    ensures forall x :: x in mid && x.orderId != o.orderId ==> x in Consume(mid, o.orderId, qty)
    ensures forall x :: x in Consume(mid, o.orderId, qty) ==> ComesFrom(x, arr)
    ensures AllPositive(mid) ==> AllPositive(Consume(mid, o.orderId, qty))
    ensures Sum(Consume(mid, o.orderId, qty)) == Sum(mid) - qty
  {
    hide Distinct, Consume;
    ConsumeIsLocal(mid, o, qty);
    ConsumeSum(mid, o, qty);
    forall x | x in Consume(mid, o.orderId, qty)
      ensures ComesFrom(x, arr)
    {
      var z := if x in mid && x.orderId != o.orderId then x else o;
      assert ComesFrom(z, arr);
      var y :| y in arr && SameButQty(z, y);
      assert SameButQty(x, y);
    }
  }

  lemma ConsumeSum(arr: seq<Order>, o: Order, qty: int)
    requires Distinct(arr) && o in arr
    ensures Sum(Consume(arr, o.orderId, qty)) == Sum(arr) - qty
  {
    hide Distinct;
    LookupUnique(arr, o);
    SumWithout(arr, o.orderId);
    SumSetQty(arr, o.orderId, o.remaining - qty);
  }

  ghost predicate MakersOn(arr: seq<Order>, fills: seq<Fill>, side: Side) {
    forall k, o :: 0 <= k < |fills| && o in arr && o.orderId == fills[k].makerId ==> o.side == side
  }

  // Applying fills and queueing commute.
  lemma {:induction false} QueueFills(arr: seq<Order>, fills: seq<Fill>, side: Side)
    requires Fillable(arr, fills)
    requires MakersOn(arr, fills, side)
    ensures Queue(ApplyFills(arr, fills), side) == ApplyFills(Queue(arr, side), fills)
  {
    hide Distinct, Fillable, Consume, Queue, HasMaker, ComesFrom, Mentions;
    if fills != [] {
      var init, f := fills[..|fills| - 1], fills[|fills| - 1];
      FillableInit(arr, fills);
      assert forall k :: 0 <= k < |init| ==> init[k] == fills[k];
      QueueFills(arr, init, side);
      FillsAreLocal(arr, init);
      var o := LastMaker(arr, fills);
      assert o.side == side;
      QueueConsume(ApplyFills(arr, init), side, o, f.qty);
    }
  }

  // A queue walked by a taker is what the walk leaves of it.
  lemma {:induction false} WalkedQueue(makers: seq<Order>, t: Order)
    requires Distinct(makers) && AllPositive(makers) && t.remaining >= 0
    ensures ApplyFills(makers, Walk(makers, t)) == Rest(makers, t)
    decreases |makers|
  {
    if !Stops(makers, t) {
      var f := FillOf(makers[0], t);
      var rest := Walk(makers[1..], Less(t, f.qty));
      ApplyFillsCons(makers, f, rest);
      HeadConsumed(makers, f.qty);
      assert makers[0] in makers && forall o :: o in makers[1..] ==> o in makers;
      if f.qty == makers[0].remaining {
        WalkedQueue(makers[1..], Less(t, f.qty));
      } else {
        assert rest == [];
      }
    }
  }

  lemma HeadConsumed(makers: seq<Order>, qty: int)
    requires Distinct(makers) && makers != []
    ensures Consume(makers, makers[0].orderId, qty)
         == if qty == makers[0].remaining then makers[1..] else [Less(makers[0], qty)] + makers[1..]
  {
    var o := makers[0];
    assert o in makers;
    LookupUnique(makers, o);
    assert !HasId(makers[1..], o.orderId);
    AbsentUnchanged(makers[1..], o.orderId, o.remaining - qty);
  }

  lemma {:induction false} RestStops(makers: seq<Order>, t: Order, side: Side)
    requires Sorted(makers, side) && t.side.Opposite() == side && AllPositive(makers) && t.remaining >= 0
    requires FillSum(Walk(makers, t)) < t.remaining
    ensures forall o :: o in Rest(makers, t) ==> !Crosses(t.side, LimitOf(t), o.price)
    decreases |makers|
  {
    if Stops(makers, t) {
      forall o | o in makers ensures !Crosses(t.side, LimitOf(t), o.price) {
        var k :| 0 <= k < |makers| && makers[k] == o;
        assert k == 0 || !Precedes(side, o.price, makers[0].price);
      }
    } else {
      var f := FillOf(makers[0], t);
      FillSumCons(f, Walk(makers[1..], Less(t, f.qty)));
      SortedTail(makers, side);
      WalkShape(makers, t);
      RestStops(makers[1..], Less(t, f.qty), side);
    }
  }

  // The walk fills exactly as much as is reachable, up to the taker's size.
  lemma {:induction false} WalkFillsReachable(makers: seq<Order>, t: Order, side: Side)
    requires Sorted(makers, side) && t.side.Opposite() == side && AllPositive(makers) && t.remaining >= 0
    ensures FillSum(Walk(makers, t)) == Min(t.remaining, Reachable(makers, t.side, LimitOf(t)))
    ensures Reachable(makers, t.side, LimitOf(t)) >= 0
    decreases |makers|
  {
    if makers != [] {
      SortedTail(makers, side);
      assert makers[0] in makers;
      var f := FillOf(makers[0], t);
      WalkFillsReachable(makers[1..], Less(t, f.qty), side);
      FillSumCons(f, Walk(makers[1..], Less(t, f.qty)));
      if !Crosses(t.side, LimitOf(t), makers[0].price) {
        NothingReachable(makers, t, side);
      }
    }
  }

  lemma {:induction false} NothingReachable(makers: seq<Order>, t: Order, side: Side)
    requires Sorted(makers, side) && t.side.Opposite() == side
    requires makers != [] ==> !Crosses(t.side, LimitOf(t), makers[0].price)
    ensures Reachable(makers, t.side, LimitOf(t)) == 0
  {
    if makers != [] {
      SortedTail(makers, side);
      assert makers[1..] != [] ==> !Precedes(side, makers[1].price, makers[0].price);
      NothingReachable(makers[1..], t, side);
    }
  }

  lemma QueuePositive(arr: seq<Order>, side: Side)
    requires AllPositive(arr)
    ensures AllPositive(Queue(arr, side)) && Sorted(Queue(arr, side), side)
  {
    QueueSorted(arr, side);
  }

  // ── Main results ──────────────────────────────────────────────────────

  lemma MatchWalks(arr: seq<Order>, t: Order)
    requires !t.tif.PostOnly? && !Match(arr, t).rejected
    ensures var fs := Walk(Queue(arr, t.side.Opposite()), t);
      Match(arr, t) == Outcome(ApplyFills(arr, fs), Less(t, FillSum(fs)), fs, false)
  {
  }

  lemma WalkedBook(arr: seq<Order>, t: Order)
    requires Distinct(arr) && AllPositive(arr) && t.remaining >= 0
    ensures var makers := Queue(arr, t.side.Opposite());
      var fs := Walk(makers, t);
      && Queue(ApplyFills(arr, fs), t.side.Opposite()) == Rest(makers, t)
      && Sum(ApplyFills(arr, fs)) == Sum(arr) - FillSum(fs)
      && 0 <= FillSum(fs) <= t.remaining
  {
    hide Distinct, Sorted, Walk, Rest, ApplyFills, Queue, ComesFrom, Fillable, Mentions, Fits, Drains,
         Stops, AllPositive, FillSum, Sum, MakersOn;
    var makers := Queue(arr, t.side.Opposite());
    QueuePositive(arr, t.side.Opposite());
    QueueDistinct(arr, t.side.Opposite());
    WalkShape(makers, t);
    WalkFillable(arr, t);
    FillsAreLocal(arr, Walk(makers, t));
    MakersOnSide(arr, t);
    QueueFills(arr, Walk(makers, t), t.side.Opposite());
    WalkedQueue(makers, t);
  }

  lemma NothingLeftToCross(arr: seq<Order>, t: Order, arr': seq<Order>)
    requires Distinct(arr) && AllPositive(arr) && t.remaining >= 0
    requires Queue(arr', t.side.Opposite()) == Rest(Queue(arr, t.side.Opposite()), t)
    requires FillSum(Walk(Queue(arr, t.side.Opposite()), t)) < t.remaining
    ensures forall o :: o in arr' && o.side != t.side ==> !Crosses(t.side, LimitOf(t), o.price)
  {
    hide Distinct, Sorted, Walk, Rest, Queue, AllPositive, FillSum, Crosses;
    var opp := t.side.Opposite();
    QueuePositive(arr, opp);
    RestStops(Queue(arr, opp), t, opp);
    QueueSorted(arr', opp);
    forall o | o in arr' && o.side != t.side ensures !Crosses(t.side, LimitOf(t), o.price) {
      assert o.side == opp;
      assert o in Queue(arr', opp);
    }
  }

  // Matching refines the queue walk: the opposite queue loses exactly what the
  // fills took, quantity is conserved between taker and makers, and unless the
  // taker is done nothing that crosses is left.
  lemma MatchRefinesQueue(arr: seq<Order>, t: Order)
    requires Distinct(arr) && AllPositive(arr) && t.remaining >= 0
    requires !t.tif.PostOnly? && !Match(arr, t).rejected
    ensures var out, makers := Match(arr, t), Queue(arr, t.side.Opposite());
      && out.fills == Walk(makers, t)
      && Queue(out.arr, t.side.Opposite()) == Rest(makers, t)
      && out.taker == t.(remaining := t.remaining - FillSum(out.fills))
      && Sum(arr) - Sum(out.arr) == t.remaining - out.taker.remaining
      && 0 <= out.taker.remaining
      && (out.taker.remaining > 0 ==>
            forall o :: o in out.arr && o.side != t.side ==> !Crosses(t.side, LimitOf(t), o.price))
  {
    MatchWalks(arr, t);
    WalkedBook(arr, t);
    hide Match, Distinct, Walk, Rest, ApplyFills, Queue, AllPositive, FillSum, Sum, Crosses;
    if Match(arr, t).taker.remaining > 0 {
      NothingLeftToCross(arr, t, Match(arr, t).arr);
    }
  }

  lemma MakersOnSide(arr: seq<Order>, t: Order)
    requires Distinct(arr) && AllPositive(arr) && t.remaining >= 0
    ensures MakersOn(arr, Walk(Queue(arr, t.side.Opposite()), t), t.side.Opposite())
  {
    var opp := t.side.Opposite();
    var makers := Queue(arr, opp);
    var fs := Walk(makers, t);
    QueueSorted(arr, opp);
    WalkShape(makers, t);
    forall k, o | 0 <= k < |fs| && o in arr && o.orderId == fs[k].makerId
      ensures o.side == opp
    {
      assert Fits(fs[k], makers[k], t) && makers[k] in makers;
      SameIdSameOrder(arr, o, makers[k]);
    }
  }

  // Fill-or-kill: rejected with nothing changed exactly when single orders
  // within reach fall short; otherwise filled to the last unit.
  lemma FokAllOrNothing(arr: seq<Order>, t: Order)
    requires Distinct(arr) && AllPositive(arr) && t.remaining >= 0 && t.tif.Fok?
    ensures var out := Match(arr, t);
      && (out.rejected <==>
            Reachable(Keep(arr, OnSide(t.side.Opposite())), t.side, LimitOf(t)) < t.remaining)
      && (out.rejected ==> out == Outcome(arr, t, [], true))
      && (!out.rejected ==> out.taker.remaining == 0)
  {
    var opp := t.side.Opposite();
    hide Sorted, Queue, Walk, Reachable, Distinct, ApplyFills;
    ReachableInQueue(arr, opp, LimitOf(t));
    QueuePositive(arr, opp);
    WalkFillsReachable(Queue(arr, opp), t, opp);
  }

  // Post-only: never trades, and is rejected iff some opposite order is at or
  // through its price.
  lemma PostOnlyNeverTakes(arr: seq<Order>, t: Order)
    requires t.tif.PostOnly?
    ensures var out := Match(arr, t);
      && out.fills == [] && out.arr == arr && out.taker == t
      && (out.rejected <==>
            exists o :: o in arr && o.side != t.side &&
              (if t.side.Buy? then o.price <= t.price else o.price >= t.price))
  {
    var opp := t.side.Opposite();
    var makers := Queue(arr, opp);
    QueueSorted(arr, opp);
    if makers != [] {
      assert makers[0] in makers;
      forall o | o in arr && o.side == opp
        ensures !Precedes(opp, o.price, makers[0].price)
      {
        var k :| 0 <= k < |makers| && makers[k] == o;
        assert k == 0 || !Precedes(opp, makers[k].price, makers[0].price);
      }
    }
  }

  // What every match keeps, whatever the order's type.
  lemma MatchKeeps(arr: seq<Order>, t: Order)
    requires Distinct(arr) && AllPositive(arr) && t.remaining >= 0
    ensures var out := Match(arr, t);
      && Distinct(out.arr) && AllPositive(out.arr)
      && (forall x :: x in out.arr ==> ComesFrom(x, arr))
      && SameButQty(out.taker, t) && 0 <= out.taker.remaining <= t.remaining
      && (forall k :: 0 <= k < |out.fills| ==> out.fills[k].qty > 0)
  {
    var makers := Queue(arr, t.side.Opposite());
    hide Distinct, Sorted, Queue, Walk, ApplyFills, Fillable, ComesFrom, Mentions, Reachable, Drains;
    ComesFromSelf(arr);
    QueuePositive(arr, t.side.Opposite());
    WalkShape(makers, t);
    WalkFillable(arr, t);
    FillsAreLocal(arr, Walk(makers, t));
    forall k | 0 <= k < |Walk(makers, t)| ensures Walk(makers, t)[k].qty > 0 {
      assert Fits(Walk(makers, t)[k], makers[k], t);
    }
  }

  lemma TakerKept(arr: seq<Order>, o: Order)
    ensures SameButQty(Match(arr, o).taker, o)
  {
  }
}
