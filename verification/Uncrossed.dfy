// The book is never crossed or locked: the best bid stays below the best ask
// through every command but an iceberg's arrival.
module Uncrossed {
  import opened Common
  import opened SortedKeys
  import opened Arrivals
  import opened Priority
  import opened OrderBooks
  import opened Matcher
  import opened MatchTheorems
  import opened EngineSpec
  import opened Triggers
  import opened EngineInvariants

  ghost predicate NotCrossed(arr: seq<Order>) {
    forall b, a :: b in arr && a in arr && b.side.Buy? && a.side.Sell? ==> b.price < a.price
  }

  predicate NoIceberg(c: Command) {
    !(c.NewOrder? && c.orderType.Iceberg?)
  }

  // A list whose orders all come from an uncrossed one, possibly resized.
  lemma FromUncrossed(arr: seq<Order>, arr': seq<Order>)
    requires NotCrossed(arr) && forall x :: x in arr' ==> ComesFrom(x, arr)
    ensures NotCrossed(arr')
  {
    forall b, a | b in arr' && a in arr' && b.side.Buy? && a.side.Sell?
      ensures b.price < a.price
    {
      assert ComesFrom(a, arr) && ComesFrom(b, arr);
      var a0 :| a0 in arr && SameButQty(a, a0);
      var b0 :| b0 in arr && SameButQty(b, b0);
    }
  }

  lemma MatchUncrossed(arr: seq<Order>, t: Order)
    requires Distinct(arr) && AllPositive(arr) && NotCrossed(arr) && t.remaining >= 0
    ensures NotCrossed(Match(arr, t).arr)
  {
    hide Match, Distinct, AllPositive, NotCrossed, ComesFrom;
    MatchKeeps(arr, t);
    FromUncrossed(arr, Match(arr, t).arr);
  }

  // What rests after matching does not cross what is left.
  lemma RestUncrossed(arr: seq<Order>, t: Order, x: Order)
    requires Distinct(arr) && AllPositive(arr) && NotCrossed(arr) && t.remaining >= 0
    requires t.orderType.IsLimit() && !Match(arr, t).rejected && Match(arr, t).taker.remaining > 0
    requires x.side == t.side && x.price == t.price
    ensures NotCrossed(Match(arr, t).arr + [x])
  {
    var m := Match(arr, t);
    MatchUncrossed(arr, t);
    if t.tif.PostOnly? {
      PostOnlyNeverTakes(arr, t);
    } else {
      MatchRefinesQueue(arr, t);
    }
    hide Match, Distinct, AllPositive;
    forall o | o in m.arr && o.side != t.side
      ensures if t.side.Buy? then t.price < o.price else o.price < t.price
    {
      assert t.tif.PostOnly? || !Crosses(t.side, LimitOf(t), o.price);
    }
    SnocUncrossed(m.arr, x);
  }

  lemma SnocUncrossed(arr: seq<Order>, x: Order)
    requires NotCrossed(arr)
    requires forall o :: o in arr && o.side != x.side ==> if x.side.Buy? then x.price < o.price else o.price < x.price
    ensures NotCrossed(arr + [x])
  {
  }

  lemma PartUncrossed(arr: seq<Order>, sel: Selector)
    requires NotCrossed(arr)
    ensures NotCrossed(Keep(arr, sel))
  {
    KeepIn(arr, sel);
  }

  lemma PlaceUncrossed(st: EngineState, o: Order)
    requires Sound(st) && NotCrossed(st.arr) && o.remaining > 0 && !o.orderType.Iceberg?
    ensures NotCrossed(PlaceStep(st, o).0.arr)
  {
    hide Match, Distinct, HasId, AllPositive, AllLimit, Apart, NotCrossed;
    SoundMatch(st.arr, o);
    MatchUncrossed(st.arr, o);
    var m := Match(st.arr, o);
    var left := Refill(m.taker, o.timestamp);
    if !m.rejected && Rests(left) {
      RestUncrossed(st.arr, o, left);
    }
  }

  lemma CancelUncrossed(st: EngineState, id: OrderId, user: UserId, ts: Micros)
    requires NotCrossed(st.arr)
    ensures NotCrossed(CancelStep(st, id, user, ts).0.arr)
  {
    PartUncrossed(st.arr, NotId(id));
    KeepIn(st.arr, NotId(id));
  }

  lemma AmendUncrossed(st: EngineState, c: Command)
    requires Sound(st) && NotCrossed(st.arr) && c.AmendOrder?
    ensures NotCrossed(AmendStep(st, c).0.arr)
  {
    hide Distinct, AllLimit, AllPositive, Apart, Reprice, NotCrossed;
    var found := Lookup(st.arr, c.orderId);
    if found.Some? && found.value.userId == c.userId {
      var o := found.value;
      var priceChanged := c.newPrice.Some? && c.newPrice.value != o.price;
      if priceChanged || (c.newQuantity.Some? && c.newQuantity.value > o.remaining) {
        OnBook(st, o);
        RepriceUncrossed(st, c, o);
      } else if c.newQuantity.Some? && 0 < c.newQuantity.value < o.remaining {
        ResizeUncrossed(st.arr, o, c.newQuantity.value);
      }
    }
  }

  lemma ResizeUncrossed(arr: seq<Order>, o: Order, q: int)
    requires Distinct(arr) && o in arr && NotCrossed(arr)
    ensures NotCrossed(SetQty(arr, o.orderId, q))
  {
    hide Distinct, NotCrossed, SetQty;
    SetQtyIn(arr, o, q);
    forall x | x in SetQty(arr, o.orderId, q) ensures ComesFrom(x, arr) {
      assert SameButQty(x, if x in arr && x.orderId != o.orderId then x else o);
    }
    FromUncrossed(arr, SetQty(arr, o.orderId, q));
  }

  lemma RepriceUncrossed(st: EngineState, c: Command, o: Order)
    requires Sound(st) && NotCrossed(st.arr) && c.AmendOrder? && o.orderType.IsLimit()
    ensures NotCrossed(Reprice(st, c, o).0.arr)
  {
    hide Match, Distinct, Apart, AllLimit, AllPositive, HasId, NotCrossed;
    var arr := Keep(st.arr, NotId(c.orderId));
    SoundPart(st.arr, NotId(c.orderId));
    PartUncrossed(st.arr, NotId(c.orderId));
    var price := if c.newPrice.Some? then c.newPrice.value else o.price;
    var qty := if c.newQuantity.Some? then c.newQuantity.value else o.remaining;
    if qty > 0 && price > 0 {
      var amended := o.(price := price, remaining := qty, original := qty, timestamp := c.timestamp);
      SoundMatch(arr, amended);
      MatchUncrossed(arr, amended);
      var m := Match(arr, amended);
      if !m.rejected && m.taker.remaining != 0 {
        RestUncrossed(arr, amended, m.taker);
      } else {
        assert m.arr + [] == m.arr;
      }
    }
  }

  lemma TriggerOneUncrossed(arr: seq<Order>, o: Order, ts: Micros)
    requires Distinct(arr) && AllPositive(arr) && AllLimit(arr) && NotCrossed(arr) && o.remaining > 0
    ensures NotCrossed(TriggerOne(arr, o, ts).0)
  {
    hide Match, Distinct, AllPositive, AllLimit, NotCrossed;
    var t := Promote(o);
    SoundMatch(arr, t);
    MatchUncrossed(arr, t);
    var m := Match(arr, t);
    if !m.rejected && m.taker.remaining != 0 && m.taker.orderType.IsLimit() {
      RestUncrossed(arr, t, m.taker);
    } else {
      assert m.arr + [] == m.arr;
    }
  }

  lemma {:induction false} TriggerUncrossed(arr: seq<Order>, taken: seq<Order>, ts: Micros)
    requires Distinct(arr) && AllPositive(arr) && AllLimit(arr) && NotCrossed(arr)
    requires Apart(taken, arr) && AllPositive(taken)
    ensures NotCrossed(TriggerAll(arr, taken, ts).0)
  {
    if taken != [] {
      var init, o := taken[..|taken| - 1], taken[|taken| - 1];
      InitApart(taken, arr);
      assert o in taken;
      TriggerUncrossed(arr, init, ts);
      TriggerSound(arr, init, [], ts);
      hide Distinct, AllPositive, AllLimit, NotCrossed, Apart;
      TriggerOneUncrossed(TriggerAll(arr, init, ts).0, o, ts);
    }
  }

  lemma MarkUncrossed(st: EngineState, symbol: SymbolId, mark: int, index: int, ts: Micros)
    requires Sound(st) && NotCrossed(st.arr)
    ensures NotCrossed(MarkStep(st, symbol, mark, index, ts).0.arr)
  {
    PeaksSound(st, mark);
    var stops := PeakedAll(st.stops, mark);
    SweepSound(stops, st.arr, FiredBy(mark));
    hide Distinct, AllLimit, Sweep, TriggerAll, Apart, NotCrossed;
    TriggerUncrossed(st.arr, Sweep(stops, 0, FiredBy(mark)).1, ts);
  }

  lemma StepUncrossed(cfg: EngineConfig, st: EngineState, c: Command)
    requires Sound(st) && NotCrossed(st.arr) && NoIceberg(c)
    ensures NotCrossed(Step(cfg, st, c).0.arr)
  {
    hide NotCrossed, CancelStep, AmendStep, MarkStep, PlaceStep;
    match c
    case NewOrder(_, _, _, _, _, _, _, _, _, _, _, _, _, _) =>
      var price := EffectivePrice(c.orderType, c.side, c.price);
      if c.quantity > 0 && price.Some? {
        PlaceUncrossed(st, BuildOrder(c, price.value, st.mark));
      }
    case CancelOrder(id, user, _, ts) => CancelUncrossed(st, id, user, ts);
    case AmendOrder(_, _, _, _, _, _) => AmendUncrossed(st, c);
    case CancelAllOrders(user, symbol, ts) => PartUncrossed(st.arr, NotUser(user));
    case UpdateMarkPrice(symbol, mark, index, ts) => MarkUncrossed(st, symbol, mark, index, ts);
    case ComputeFunding(symbol, ts) =>
    case AdminCredit(_, _, _, _) =>
  }

  // No run crosses the book.
  lemma {:induction false} RunUncrossed(cfg: EngineConfig, st: EngineState, cmds: seq<Command>)
    requires Sound(st) && NotCrossed(st.arr) && FreshRun(cfg, st, cmds) && cfg.lotSize > 0
    requires forall c :: c in cmds ==> NoIceberg(c)
    ensures NotCrossed(Run(cfg, st, cmds).0.arr)
    decreases |cmds|
  {
    hide Sound, Step, FreshId, NotCrossed, NoIceberg;
    if cmds != [] {
      assert cmds[0] in cmds && forall c :: c in cmds[1..] ==> c in cmds;
      StepSound(cfg, st, cmds[0]);
      StepUncrossed(cfg, st, cmds[0]);
      RunUncrossed(cfg, Step(cfg, st, cmds[0]).0, cmds[1..]);
    }
  }

  // Read off the book: whenever both sides are quoted, best bid < best ask.
  lemma BestBidBelowBestAsk(book: OrderBook)
    requires book.Valid() && NotCrossed(book.arrivals)
    ensures book.BestPrice(Buy).Some? && book.BestPrice(Sell).Some? ==>
      book.BestPrice(Buy).value < book.BestPrice(Sell).value
  {
  }

  // ── Exactly which arrivals cross the book ─────────────────────────────

  // What a taker leaves within its reach is what it did not take of it.
  lemma {:induction false} RestReachable(makers: seq<Order>, t: Order)
    ensures Reachable(Rest(makers, t), t.side, LimitOf(t))
         == Reachable(makers, t.side, LimitOf(t)) - FillSum(Walk(makers, t))
    decreases |makers|
  {
    if !Stops(makers, t) {
      var f := FillOf(makers[0], t);
      var tail, left := makers[1..], Less(t, f.qty);
      FillSumCons(f, Walk(tail, left));
      if f.qty == makers[0].remaining {
        RestReachable(tail, left);
      } else {
        assert Walk(tail, left) == [];
        assert ([Less(makers[0], f.qty)] + tail)[1..] == tail;
      }
    }
  }

  lemma {:induction false} ReachableIff(makers: seq<Order>, side: Side, limit: Option<int>)
    requires AllPositive(makers)
    ensures Reachable(makers, side, limit) >= 0
    ensures Reachable(makers, side, limit) > 0 <==> exists x :: x in makers && Crosses(side, limit, x.price)
  {
    if makers != [] {
      assert makers[0] in makers && forall x :: x in makers[1..] ==> x in makers;
      ReachableIff(makers[1..], side, limit);
      forall x | x in makers ensures x == makers[0] || x in makers[1..] {}
    }
  }

  ghost predicate StillCrosses(arr: seq<Order>, o: Order) {
    exists x :: x in arr && x.side != o.side && Crosses(o.side, Some(o.price), x.price)
  }

  // After matching an order, one it could trade with is left exactly when its
  // limit reached further than its size.
  lemma LeftInReach(arr: seq<Order>, o: Order)
    requires Distinct(arr) && AllPositive(arr) && o.remaining > 0 && o.orderType.IsLimit() && (o.tif.Gtc? || o.tif.Gtd?)
    ensures var reach := Reachable(Keep(arr, OnSide(o.side.Opposite())), o.side, Some(o.price));
      var m := Match(arr, o);
      && m.taker.remaining == o.remaining - Min(o.remaining, reach)
      && (StillCrosses(m.arr, o) <==> reach > o.remaining)
  {
    var opp := o.side.Opposite();
    var makers := Queue(arr, opp);
    ReachableInQueue(arr, opp, LimitOf(o));
    hide Match, Distinct, Queue, Sorted, Walk, Rest, Reachable, FillSum, AllPositive, StillCrosses, Crosses, Keep;
    MatchLeaves(arr, o);
    QueuePositive(arr, opp);
    WalkFillsReachable(makers, o, opp);
    RestReachable(makers, o);
    StillInReach(Match(arr, o).arr, o);
  }

  lemma MatchLeaves(arr: seq<Order>, o: Order)
    requires Distinct(arr) && AllPositive(arr) && o.remaining > 0 && (o.tif.Gtc? || o.tif.Gtd?)
    ensures var m, makers := Match(arr, o), Queue(arr, o.side.Opposite());
      && AllPositive(m.arr) && Queue(m.arr, o.side.Opposite()) == Rest(makers, o)
      && m.taker.remaining == o.remaining - FillSum(Walk(makers, o))
  {
    Accepted(arr, o);
    hide Match, Distinct, Queue, Walk, Rest, FillSum, AllPositive, Crosses;
    MatchRefinesQueue(arr, o);
    MatchKeeps(arr, o);
  }

  lemma StillInReach(arr: seq<Order>, o: Order)
    requires AllPositive(arr) && o.orderType.IsLimit()
    ensures var opp := o.side.Opposite();
      StillCrosses(arr, o) <==> Reachable(Queue(arr, opp), o.side, LimitOf(o)) > 0
  {
    var opp := o.side.Opposite();
    var queue := Queue(arr, opp);
    QueuePositive(arr, opp);
    QueueSorted(arr, opp);
    hide Queue, Sorted, Reachable, AllPositive, Crosses;
    ReachableIff(queue, o.side, LimitOf(o));
    assert forall x :: x in queue <==> x in arr && x.side == opp;
  }

  // The orders whose hidden part can come to rest against the other side.
  predicate LocksBook(arr: seq<Order>, o: Order) {
    && o.orderType.Iceberg? && o.hiddenQty > 0 && (o.tif.Gtc? || o.tif.Gtd?)
    && Reachable(Keep(arr, OnSide(o.side.Opposite())), o.side, Some(o.price)) > o.remaining
  }

  ghost predicate SliceOk(o: Order) {
    o.remaining > 0 && o.hiddenQty >= 0 && (o.orderType.Iceberg? ==> o.visibleQty.Some? && o.visibleQty.value > 0)
  }

  lemma LeftIsTaker(arr: seq<Order>, o: Order)
    requires SliceOk(o) && !(o.orderType.Iceberg? && o.hiddenQty > 0 && (o.tif.Gtc? || o.tif.Gtd?))
    ensures var left := Refill(Match(arr, o).taker, o.timestamp);
      Rests(left) ==> left == Match(arr, o).taker
  {
    TakerKept(arr, o);
    if o.tif.PostOnly? {
      assert Match(arr, o).taker == o;
    }
    hide Match;
  }

  // An arrival crosses the book exactly when it is a resting iceberg whose
  // limit reaches more than its visible slice: the slice trades away, and the
  // refill rests although more could be traded.
  lemma ArrivalCrossesIff(st: EngineState, o: Order)
    requires Sound(st) && NotCrossed(st.arr) && SliceOk(o)
    ensures NotCrossed(PlaceStep(st, o).0.arr) <==> !LocksBook(st.arr, o)
  {
    var m := Match(st.arr, o);
    var left := Refill(m.taker, o.timestamp);
    hide Match, Distinct, HasId, AllPositive, AllLimit, Apart, Reachable, NotCrossed;
    SoundMatch(st.arr, o);
    MatchUncrossed(st.arr, o);
    if o.orderType.Iceberg? && o.hiddenQty > 0 && (o.tif.Gtc? || o.tif.Gtd?) {
      assert !m.rejected by { Accepted(st.arr, o); }
      LeftInReach(st.arr, o);
      if left == m.taker && Rests(left) {
        RestUncrossed(st.arr, o, left);
      } else if Rests(left) {
        RefillCrosses(m.arr, o, left);
      }
    } else {
      LeftIsTaker(st.arr, o);
      if !m.rejected && Rests(left) {
        RestUncrossed(st.arr, o, left);
      }
    }
  }

  lemma Accepted(arr: seq<Order>, o: Order)
    requires o.tif.Gtc? || o.tif.Gtd?
    ensures !Match(arr, o).rejected
  {
  }

  lemma RefillCrosses(arr: seq<Order>, o: Order, left: Order)
    requires NotCrossed(arr) && left.side == o.side && left.price == o.price
    ensures NotCrossed(arr + [left]) <==> !StillCrosses(arr, o)
  {
    if StillCrosses(arr, o) {
      var x :| x in arr && x.side != o.side && Crosses(o.side, Some(o.price), x.price);
      assert x in arr + [left] && left in arr + [left];
    } else {
      SnocUncrossed(arr, left);
    }
  }

  // The order a new-order command places, if it passes the checks.
  function Placed(cfg: EngineConfig, st: EngineState, c: Command): Option<Order>
    requires c.NewOrder?
  {
    var price := EffectivePrice(c.orderType, c.side, c.price);
    if c.quantity > 0 && !HasId(st.arr, c.orderId) && price.Some? && !c.orderType.IsConditional()
       && IcebergOk(cfg, c.orderType, c.visibleQuantity)
    then Some(BuildOrder(c, price.value, st.mark)) else None
  }

  // Every command, judged by the state before it.
  lemma StepCrossesIff(cfg: EngineConfig, st: EngineState, c: Command)
    requires Sound(st) && NotCrossed(st.arr) && cfg.lotSize > 0
    ensures NotCrossed(Step(cfg, st, c).0.arr) <==>
      !(c.NewOrder? && Placed(cfg, st, c).Some? && LocksBook(st.arr, Placed(cfg, st, c).value))
  {
    hide NotCrossed, PlaceStep, Match, Reachable, Sound, HasId, CancelStep, AmendStep, MarkStep, CancelAllStep;
    if c.NewOrder? {
      if Placed(cfg, st, c).Some? {
        VisibleIsPositive(cfg, c, Placed(cfg, st, c).value);
        ArrivalCrossesIff(st, Placed(cfg, st, c).value);
      }
    } else {
      StepUncrossed(cfg, st, c);
    }
  }

  // Such a run exists: an iceberg buy of 20 showing 10 after an ask of 15 at
  // the same price. Its slice trades away and its refill locks the book.
  function RestingAsk(): Order {
    Order(1, 1, 1, Side.Sell, 100, 15, 15, Limit, Gtc, false, 0, None, 0, None, None, None, None, None)
  }

  function SellFifteen(): Command {
    NewOrder(1, 1, 1, Side.Sell, Limit, Gtc, Some(100), 15, None, None, None, false, None, 0)
  }

  function IcebergBuy(): Command {
    NewOrder(2, 2, 1, Buy, Iceberg, Gtc, Some(100), 20, None, None, Some(10), false, None, 0)
  }

  lemma FirstRests(cfg: EngineConfig)
    ensures Step(cfg, EMPTY_ENGINE, SellFifteen()).0 == EMPTY_ENGINE.(arr := [RestingAsk()])
  {
    assert Queue([], Buy) == [];
    assert [] + [RestingAsk()] == [RestingAsk()];
  }

  lemma IcebergLocks()
    ensures var cfg := EngineConfig(1, 1, 0);
      var st := EMPTY_ENGINE.(arr := [RestingAsk()]);
      var placed := Placed(cfg, st, IcebergBuy());
      && placed.Some? && LocksBook(st.arr, placed.value)
  {
    assert 1 * (10 * SCALE) / SCALE == 10;
    assert [RestingAsk()][1..] == [];
    assert Keep([RestingAsk()], OnSide(Side.Sell)) == [RestingAsk()] + Keep([], OnSide(Side.Sell));
    assert Reachable([RestingAsk()], Buy, Some(100)) == 15 + Reachable([], Buy, Some(100));
  }

  lemma IcebergCrosses()
    ensures var cfg := EngineConfig(1, 1, 0);
      && FreshRun(cfg, EMPTY_ENGINE, [SellFifteen(), IcebergBuy()])
      && !NotCrossed(Run(cfg, EMPTY_ENGINE, [SellFifteen(), IcebergBuy()]).0.arr)
  {
    var cfg, cmds := EngineConfig(1, 1, 0), [SellFifteen(), IcebergBuy()];
    var st := EMPTY_ENGINE.(arr := [RestingAsk()]);
    assert cmds[1..] == [IcebergBuy()] && cmds[1..][1..] == [];
    FirstRests(cfg);
    SecondLocks(cfg, st);
    hide Step, NotCrossed, FreshId;
    assert FreshRun(cfg, Step(cfg, st, IcebergBuy()).0, []);
    assert Run(cfg, Step(cfg, st, IcebergBuy()).0, []).0 == Step(cfg, st, IcebergBuy()).0;
    assert Run(cfg, st, cmds[1..]).0 == Step(cfg, st, IcebergBuy()).0;
  }

  lemma SecondLocks(cfg: EngineConfig, st: EngineState)
    requires cfg == EngineConfig(1, 1, 0) && st == EMPTY_ENGINE.(arr := [RestingAsk()])
    ensures !NotCrossed(Step(cfg, st, IcebergBuy()).0.arr)
    ensures FreshId(EMPTY_ENGINE, SellFifteen()) && FreshId(st, IcebergBuy())
  {
    assert Sound(st) && NotCrossed(st.arr);
    IcebergLocks();
    hide Step, Placed, LocksBook, NotCrossed, Sound;
    StepCrossesIff(cfg, st, IcebergBuy());
  }
}
