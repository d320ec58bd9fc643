// Whose fill it is: every leg of every trade is booked to the owner of its
// order, on the order's own side, at the maker's price.
module FillLegs {
  import opened Common
  import opened Arrivals
  import opened Priority
  import opened OrderBooks
  import opened Matcher
  import opened MatchTheorems
  import opened EngineSpec
  import opened Triggers
  import opened EngineInvariants
  import opened FillFlows
  import opened Positions
  import opened PostTradeSpec

  // ── What the legs of a command must say ───────────────────────────────

  // An order as it was before the command, on the book or among the stops.
  function HeldOrder(st: EngineState, id: OrderId): Option<Order> {
    if HasId(st.arr, id) then Lookup(st.arr, id) else Lookup(st.stops, id)
  }

  // Whose an order is and which side it is on, be it held or the command's own.
  function OwnerOf(st: EngineState, c: Command, id: OrderId): Option<(UserId, Side)> {
    if c.NewOrder? && c.orderId == id then Some((c.userId, c.side))
    else
      match HeldOrder(st, id)
      case None => None
      case Some(o) => Some((o.userId, o.side))
  }

  // The worst price an order may trade at as taker, if it has one.
  function LimitFor(st: EngineState, c: Command, id: OrderId): Option<int> {
    match c
    case NewOrder(_, _, _, _, ot, _, price, _, _, _, _, _, _, _) => if ot.Limit? || ot.Iceberg? then price else None
    case AmendOrder(_, _, _, price, _, _) =>
      if price.Some? then price else if HasId(st.arr, id) then Some(Lookup(st.arr, id).value.price) else None
    case _ =>
      match HeldOrder(st, id)
      case None => None
      case Some(o) => if o.orderType.StopLimit? || o.orderType.TakeProfitLimit? then Some(o.price) else None
  }

  predicate WithinLimit(limit: Option<int>, side: Side, price: int) {
    limit.Some? ==> if side.Buy? then price <= limit.value else price >= limit.value
  }

  // A leg is booked to its order's owner, on its side; a maker's at the price
  // the order rests at, a taker's within its limit.
  predicate LegTold(st: EngineState, c: Command, e: Event) {
    e.OrderFilled? ==>
      && OwnerOf(st, c, e.orderId) == Some((e.userId, e.side)) && e.fillQty > 0
      && (if e.isMaker then HeldOrder(st, e.orderId).Some? && e.fillPrice == HeldOrder(st, e.orderId).value.price
          else WithinLimit(LimitFor(st, c, e.orderId), e.side, e.fillPrice))
  }

  // Three events that are one trade: maker's leg, taker's leg, and the trade
  // between the buyer and the seller of the two.
  predicate IsTrade(mk: Event, tk: Event, tr: Event) {
    && mk.OrderFilled? && mk.isMaker && tk.OrderFilled? && !tk.isMaker && tr.TradeExecuted?
    && mk.fillPrice == tk.fillPrice == tr.price && mk.fillQty == tk.fillQty == tr.qty
    && mk.symbol == tk.symbol == tr.symbol && mk.side != tk.side
    && (var (buyer, seller) := if mk.side.Buy? then (mk, tk) else (tk, mk);
        && tr.buyerOrderId == buyer.orderId && tr.buyerUserId == buyer.userId
        && tr.sellerOrderId == seller.orderId && tr.sellerUserId == seller.userId)
  }

  predicate TradeAt(es: seq<Event>, i: int) {
    0 <= i && i + 2 < |es| && IsTrade(es[i], es[i + 1], es[i + 2])
  }

  // Every leg and every trade is part of one.
  predicate InTrades(es: seq<Event>) {
    forall i :: 0 <= i < |es| ==>
      && (es[i].OrderFilled? && es[i].isMaker ==> TradeAt(es, i))
      && (es[i].OrderFilled? && !es[i].isMaker ==> TradeAt(es, i - 1))
      && (es[i].TradeExecuted? ==> TradeAt(es, i - 2))
  }

  lemma TradesConcat(a: seq<Event>, b: seq<Event>)
    requires InTrades(a) && InTrades(b)
    ensures InTrades(a + b)
  {
    hide IsTrade;
    var es := a + b;
    forall i | TradeAt(a, i) ensures TradeAt(es, i) {}
    forall i | TradeAt(b, i) ensures TradeAt(es, |a| + i) {}
    forall i | 0 <= i < |es|
      ensures es[i].OrderFilled? && es[i].isMaker ==> TradeAt(es, i)
      ensures es[i].OrderFilled? && !es[i].isMaker ==> TradeAt(es, i - 1)
      ensures es[i].TradeExecuted? ==> TradeAt(es, i - 2)
    {
      if i < |a| {
        assert es[i] == a[i];
      } else {
        assert es[i] == b[i - |a|];
        assert TradeAt(b, i - |a|) ==> TradeAt(es, |a| + (i - |a|));
        assert TradeAt(b, i - |a| - 1) ==> TradeAt(es, |a| + (i - |a| - 1));
        assert TradeAt(b, i - |a| - 2) ==> TradeAt(es, |a| + (i - |a| - 2));
      }
    }
  }

  lemma NoTrades(es: seq<Event>)
    requires forall e :: e in es ==> !e.OrderFilled? && !e.TradeExecuted?
    ensures InTrades(es)
  {
    forall i | 0 <= i < |es| ensures es[i] in es {}
  }

  // ── The fills of one taker ────────────────────────────────────────────

  // A fill between a taker and an order of the list, at that order's price.
  predicate FillTold(arr: seq<Order>, t: Order, f: Fill) {
    && HasId(arr, f.makerId) && f.qty > 0
    && var x := Lookup(arr, f.makerId).value;
    && f.makerUser == x.userId && x.side == t.side.Opposite() && f.price == x.price
    && f.takerId == t.orderId && f.takerUser == t.userId && f.takerSide == t.side
    && WithinLimit(LimitOf(t), t.side, f.price)
  }

  predicate AllTold(arr: seq<Order>, t: Order, fills: seq<Fill>) {
    forall k :: 0 <= k < |fills| ==> FillTold(arr, t, fills[k])
  }

  lemma MatchTold(arr: seq<Order>, t: Order)
    requires Distinct(arr) && AllPositive(arr) && t.remaining >= 0
    ensures AllTold(arr, t, Match(arr, t).fills)
  {
    var opp := t.side.Opposite();
    var makers := Queue(arr, opp);
    QueueSorted(arr, opp);
    QueuePositive(arr, opp);
    WalkShape(makers, t);
    hide Distinct, AllPositive, Queue, Sorted, Walk, ApplyFills, Drains, Stops, Reachable, FillSum;
    forall k | 0 <= k < |Walk(makers, t)| ensures FillTold(arr, t, Walk(makers, t)[k]) {
      assert Fits(Walk(makers, t)[k], makers[k], t) && makers[k] in makers;
      LookupUnique(arr, makers[k]);
    }
  }

  // A leg of a taker's fill against the list.
  predicate LegOf(arr: seq<Order>, t: Order, e: Event) {
    e.OrderFilled? ==>
      && e.fillQty > 0
      && (if e.isMaker then
            HasId(arr, e.orderId)
            && var x := Lookup(arr, e.orderId).value;
            e.userId == x.userId && e.side == x.side && e.fillPrice == x.price
          else
            && e.orderId == t.orderId && e.userId == t.userId && e.side == t.side
            && WithinLimit(LimitOf(t), t.side, e.fillPrice))
  }

  lemma TradeTold(arr: seq<Order>, t: Order, f: Fill, symbol: SymbolId, ts: Micros, makerLeft: int, left: int)
    requires FillTold(arr, t, f)
    ensures var es := TradeEvents(f, symbol, ts, makerLeft, left);
      InTrades(es) && forall e :: e in es ==> LegOf(arr, t, e)
  {
    var es := TradeEvents(f, symbol, ts, makerLeft, left);
    assert IsTrade(es[0], es[1], es[2]);
    assert TradeAt(es, 0);
  }

  lemma {:induction false} FillsTold(arr: seq<Order>, t: Order, after: seq<Order>, fills: seq<Fill>, symbol: SymbolId,
                                     ts: Micros, left: int)
    requires AllTold(arr, t, fills)
    ensures var es := FillEvents(after, fills, symbol, ts, left);
      InTrades(es) && forall e :: e in es ==> LegOf(arr, t, e)
  {
    if fills == [] {
      NoTrades([]);
    } else {
      var n := |fills| - 1;
      var init, f := fills[..n], fills[n];
      assert forall k :: 0 <= k < n ==> init[k] == fills[k];
      FillsTold(arr, t, after, init, symbol, ts, left);
      TradeTold(arr, t, f, symbol, ts, Left(Lookup(after, f.makerId)), left);
      hide InTrades, LegOf, TradeEvents, FillTold;
      TradesConcat(FillEvents(after, init, symbol, ts, left),
                   TradeEvents(f, symbol, ts, Left(Lookup(after, f.makerId)), left));
    }
  }

  lemma MatchLegs(arr: seq<Order>, t: Order, symbol: SymbolId, ts: Micros)
    requires Distinct(arr) && AllPositive(arr) && t.remaining >= 0
    ensures var m := Match(arr, t);
      var es := FillEvents(m.arr, m.fills, symbol, ts, m.taker.remaining);
      InTrades(es) && forall e :: e in es ==> LegOf(arr, t, e)
  {
    hide Match, Distinct, AllPositive, AllTold, InTrades, LegOf;
    MatchTold(arr, t);
    var m := Match(arr, t);
    FillsTold(arr, t, m.arr, m.fills, symbol, ts, m.taker.remaining);
  }

  // ── One command ───────────────────────────────────────────────────────

  ghost predicate AllLegsTold(st: EngineState, c: Command, es: seq<Event>) {
    InTrades(es) && forall e :: e in es ==> LegTold(st, c, e)
  }

  lemma LegsConcat(st: EngineState, c: Command, a: seq<Event>, b: seq<Event>)
    requires AllLegsTold(st, c, a) && AllLegsTold(st, c, b)
    ensures AllLegsTold(st, c, a + b)
  {
    hide InTrades, LegTold;
    TradesConcat(a, b);
  }

  lemma NoLegs(st: EngineState, c: Command, es: seq<Event>)
    requires forall e :: e in es ==> !e.OrderFilled? && !e.TradeExecuted?
    ensures AllLegsTold(st, c, es)
  {
    hide InTrades;
    NoTrades(es);
  }

  lemma PlaceLegs(cfg: EngineConfig, st: EngineState, c: Command, o: Order)
    requires Sound(st) && c.NewOrder? && !HasId(st.arr, c.orderId) && o.remaining > 0
    requires c.orderType.Iceberg? ==> c.visibleQuantity.Some?
    requires EffectivePrice(c.orderType, c.side, c.price).Some? && !c.orderType.IsConditional()
    requires o == BuildOrder(c, EffectivePrice(c.orderType, c.side, c.price).value, st.mark)
    ensures AllLegsTold(st, c, PlaceStep(st, o).1)
  {
    var m := Match(st.arr, o);
    var fills := FillEvents(m.arr, m.fills, o.symbol, o.timestamp, m.taker.remaining);
    MatchLegs(st.arr, o, o.symbol, o.timestamp);
    hide Match, FillEvents, InTrades, Distinct, AllPositive, AllLimit, Apart, HasId;
    forall e | e in fills ensures LegTold(st, c, e) {
      assert LegOf(st.arr, o, e);
    }
    if m.rejected {
      NoLegs(st, c, PlaceStep(st, o).1);
    } else {
      var left := Refill(m.taker, o.timestamp);
      var head, tail := [AcceptedEvent(o, o.symbol, o.timestamp)],
                        [CanceledEvent(left, o.userId, o.symbol, o.timestamp)];
      NoLegs(st, c, head);
      NoLegs(st, c, tail);
      hide LegTold, AllLegsTold;
      assert AllLegsTold(st, c, fills) by { LegsAre(st, c, fills); }
      LegsConcat(st, c, head, fills);
      LegsConcat(st, c, head + fills, tail);
    }
  }

  lemma LegsAre(st: EngineState, c: Command, es: seq<Event>)
    requires InTrades(es) && forall e :: e in es ==> LegTold(st, c, e)
    ensures AllLegsTold(st, c, es)
  {
  }

  lemma AmendLegs(st: EngineState, c: Command)
    requires Sound(st) && c.AmendOrder?
    ensures AllLegsTold(st, c, AmendStep(st, c).1)
  {
    hide Match, AllLegsTold, Distinct, AllPositive, AllLimit, Apart, FillEvents, Reprice, HasId;
    var found := Lookup(st.arr, c.orderId);
    if found.Some? && found.value.userId == c.userId &&
       ((c.newPrice.Some? && c.newPrice.value != found.value.price)
        || (c.newQuantity.Some? && c.newQuantity.value > found.value.remaining)) {
      RepriceLegs(st, c, found.value);
    } else {
      NoLegs(st, c, AmendStep(st, c).1);
    }
  }

  lemma RepriceLegs(st: EngineState, c: Command, o: Order)
    requires Sound(st) && c.AmendOrder? && Lookup(st.arr, c.orderId) == Some(o) && o.userId == c.userId
    ensures AllLegsTold(st, c, Reprice(st, c, o).1)
  {
    SoundPart(st.arr, NotId(c.orderId));
    OnBook(st, o);
    var arr := Keep(st.arr, NotId(c.orderId));
    var price := if c.newPrice.Some? then c.newPrice.value else o.price;
    var qty := if c.newQuantity.Some? then c.newQuantity.value else o.remaining;
    var amended := o.(price := price, remaining := qty, original := qty, timestamp := c.timestamp);
    if qty <= 0 || price <= 0 || Match(arr, amended).rejected {
      NoLegs(st, c, Reprice(st, c, o).1);
    } else {
      var m := Match(arr, amended);
      var fills := FillEvents(m.arr, m.fills, c.symbol, c.timestamp, m.taker.remaining);
      MatchLegs(arr, amended, c.symbol, c.timestamp);
      hide Match, AllLegsTold, Distinct, AllPositive, AllLimit, Apart, FillEvents, InTrades, LegTold, LegOf;
      forall e | e in fills ensures LegTold(st, c, e) {
        assert LegOf(arr, amended, e);
        AmendedLeg(st, c, o, amended, e);
      }
      LegsAre(st, c, fills);
      var head := [CanceledEvent(o, c.userId, c.symbol, c.timestamp), AcceptedEvent(m.taker, c.symbol, c.timestamp)];
      NoLegs(st, c, head);
      LegsConcat(st, c, head, fills);
    }
  }

  lemma AmendedLeg(st: EngineState, c: Command, o: Order, amended: Order, e: Event)
    requires Distinct(st.arr) && c.AmendOrder? && Lookup(st.arr, c.orderId) == Some(o) && o.orderType.IsLimit()
    requires amended.orderId == o.orderId && amended.userId == o.userId && amended.side == o.side
    requires amended.orderType == o.orderType
    requires amended.price == if c.newPrice.Some? then c.newPrice.value else o.price
    requires LegOf(Keep(st.arr, NotId(c.orderId)), amended, e)
    ensures LegTold(st, c, e)
  {
    hide Distinct, HasId;
    if e.OrderFilled? && e.isMaker {
      var x := Lookup(Keep(st.arr, NotId(c.orderId)), e.orderId).value;
      KeepIn(st.arr, NotId(c.orderId));
      LookupUnique(st.arr, x);
    }
  }

  // ── Marks ─────────────────────────────────────────────────────────────

  // An order of the book during the triggers of a mark: one held before it.
  predicate Known(st: EngineState, x: Order) {
    && HeldOrder(st, x.orderId).Some?
    && var y := HeldOrder(st, x.orderId).value;
    y.userId == x.userId && y.side == x.side && y.price == x.price
  }

  ghost predicate AllKnown(st: EngineState, arr: seq<Order>) {
    forall x :: x in arr ==> Known(st, x)
  }

  // A fired stop: one held before, of the same type.
  predicate KnownStop(st: EngineState, o: Order) {
    Known(st, o) && HeldOrder(st, o.orderId).value.orderType == o.orderType && o.orderType.IsConditional()
  }

  lemma BookKnown(st: EngineState)
    requires Sound(st)
    ensures AllKnown(st, st.arr)
  {
    forall x | x in st.arr ensures Known(st, x) { LookupUnique(st.arr, x); }
  }

  lemma StopsKnown(st: EngineState, mark: int)
    requires Sound(st)
    ensures forall o :: o in PeakedAll(st.stops, mark) ==> KnownStop(st, o)
  {
    var p := PeakedAll(st.stops, mark);
    forall o | o in p ensures KnownStop(st, o) {
      var k :| 0 <= k < |p| && p[k] == o;
      assert st.stops[k] in st.stops;
      LookupUnique(st.stops, st.stops[k]);
    }
  }

  lemma TriggeredLegs(st: EngineState, c: Command, arr: seq<Order>, o: Order, ts: Micros)
    requires c.UpdateMarkPrice? && AllKnown(st, arr) && KnownStop(st, o)
    requires Distinct(arr) && AllPositive(arr) && o.remaining > 0
    ensures AllLegsTold(st, c, TriggerOne(arr, o, ts).1) && AllKnown(st, TriggerOne(arr, o, ts).0)
  {
    hide Match, FillEvents, InTrades, Distinct, AllPositive, HasId, LegTold, LegOf, AllKnown, KnownStop;
    var t := Promote(o);
    var m := Match(arr, t);
    TriggeredKnown(st, arr, o, ts);
    MatchLegs(arr, t, m.taker.symbol, ts);
    var fills := FillEvents(m.arr, m.fills, m.taker.symbol, ts, m.taker.remaining);
    forall e | e in fills ensures LegTold(st, c, e) {
      assert LegOf(arr, t, e);
      TriggeredLeg(st, c, arr, o, e);
    }
    LegsAre(st, c, fills);
    NoLegs(st, c, []);
  }

  lemma TriggeredLeg(st: EngineState, c: Command, arr: seq<Order>, o: Order, e: Event)
    requires c.UpdateMarkPrice? && AllKnown(st, arr) && KnownStop(st, o) && LegOf(arr, Promote(o), e)
    ensures LegTold(st, c, e)
  {
    hide HasId;
    if e.OrderFilled? && e.isMaker { assert Known(st, Lookup(arr, e.orderId).value); }
  }

  lemma TriggeredKnown(st: EngineState, arr: seq<Order>, o: Order, ts: Micros)
    requires AllKnown(st, arr) && KnownStop(st, o) && Distinct(arr) && AllPositive(arr) && o.remaining > 0
    ensures AllKnown(st, TriggerOne(arr, o, ts).0)
  {
    hide Match, FillEvents, Distinct, AllPositive, HasId;
    var t := Promote(o);
    var m := Match(arr, t);
    MatchKeeps(arr, t);
    forall x | x in TriggerOne(arr, o, ts).0 ensures Known(st, x) {
      if x in m.arr {
        assert ComesFrom(x, arr);
        var y :| y in arr && SameButQty(x, y);
        assert Known(st, y);
      }
    }
  }

  lemma {:induction false} TriggersLegs(st: EngineState, c: Command, taken: seq<Order>, ts: Micros)
    requires Sound(st) && c.UpdateMarkPrice?
    requires Apart(taken, st.arr) && AllPositive(taken) && forall o :: o in taken ==> KnownStop(st, o)
    ensures AllLegsTold(st, c, TriggerAll(st.arr, taken, ts).1) && AllKnown(st, TriggerAll(st.arr, taken, ts).0)
  {
    if taken == [] {
      NoLegs(st, c, []);
      BookKnown(st);
    } else {
      var init, o := taken[..|taken| - 1], taken[|taken| - 1];
      InitApart(taken, st.arr);
      assert o in taken;
      assert Apart([], st.arr);
      TriggersLegs(st, c, init, ts);
      TriggerSound(st.arr, init, [], ts);
      hide Distinct, AllPositive, AllLimit, Apart, TriggerOne, AllLegsTold, AllKnown, KnownStop, Sound;
      var mid := TriggerAll(st.arr, init, ts).0;
      TriggeredLegs(st, c, mid, o, ts);
      LegsConcat(st, c, TriggerAll(st.arr, init, ts).1, TriggerOne(mid, o, ts).1);
    }
  }

  lemma MarkLegs(st: EngineState, c: Command)
    requires Sound(st) && c.UpdateMarkPrice?
    ensures AllLegsTold(st, c, MarkStep(st, c.symbol, c.markPrice, c.indexPrice, c.timestamp).1)
  {
    var stops := PeakedAll(st.stops, c.markPrice);
    PeaksSound(st, c.markPrice);
    StopsKnown(st, c.markPrice);
    SweepSound(stops, st.arr, FiredBy(c.markPrice));
    hide Distinct, AllLimit, Sweep, TriggerAll, Apart, AllLegsTold, KnownStop;
    var taken := Sweep(stops, 0, FiredBy(c.markPrice)).1;
    TriggersLegs(st, c, taken, c.timestamp);
    var head := [MarkPriceUpdate(c.symbol, c.markPrice, c.indexPrice, c.timestamp)];
    NoLegs(st, c, head);
    LegsConcat(st, c, head, TriggerAll(st.arr, taken, c.timestamp).1);
  }

  // Every command: each leg names an order that was held, or the command's own,
  // with its owner and side; a maker trades at the price it rests at and a taker
  // within its limit; and the legs come in trades between their two parties.
  lemma StepLegs(cfg: EngineConfig, st: EngineState, c: Command)
    requires Sound(st) && FreshId(st, c) && cfg.lotSize > 0
    ensures var es := Step(cfg, st, c).1;
      InTrades(es) && forall e :: e in es ==> LegTold(st, c, e)
  {
    hide PlaceStep, AmendStep, MarkStep, InTrades, LegTold;
    match c
    case NewOrder(_, _, _, _, _, _, _, _, _, _, _, _, _, _) =>
      var price := EffectivePrice(c.orderType, c.side, c.price);
      if c.quantity > 0 && !HasId(st.arr, c.orderId) && price.Some?
         && IcebergOk(cfg, c.orderType, c.visibleQuantity) && !c.orderType.IsConditional() {
        var o := BuildOrder(c, price.value, st.mark);
        VisibleIsPositive(cfg, c, o);
        PlaceLegs(cfg, st, c, o);
      } else {
        NoLegs(st, c, Step(cfg, st, c).1);
      }
    case AmendOrder(_, _, _, _, _, _) => AmendLegs(st, c);
    case UpdateMarkPrice(_, _, _, _) => MarkLegs(st, c);
    case CancelOrder(_, _, _, _) => NoLegs(st, c, Step(cfg, st, c).1);
    case CancelAllOrders(_, _, _) => NoLegs(st, c, Step(cfg, st, c).1);
    case ComputeFunding(_, _) => NoLegs(st, c, Step(cfg, st, c).1);
    case AdminCredit(_, _, _, _) => NoLegs(st, c, Step(cfg, st, c).1);
  }

  // ── Positions ─────────────────────────────────────────────────────────

  // What the fills of a user's own orders come to, signed by the orders' sides.
  function OwnFills(st: EngineState, c: Command, es: seq<Event>, k: PositionKey): int {
    if es == [] then 0
    else
      var e := es[|es| - 1];
      OwnFills(st, c, es[..|es| - 1], k)
      + (if !e.OrderFilled? || e.symbol != k.symbol then 0
         else
           match OwnerOf(st, c, e.orderId)
           case Some((user, side)) => if user == k.user then SignedQty(side, e.fillQty) else 0
           case None => 0)
  }

  lemma {:induction false} FillsMovePosition(st: EngineState, c: Command, ps: PositionMap, es: seq<Event>,
                                             k: PositionKey)
    requires Open(ps) && forall e :: e in es ==> LegTold(st, c, e)
    ensures Open(Projected(ps, es))
    ensures SignedAt(Projected(ps, es), k) == SignedAt(ps, k) + OwnFills(st, c, es, k)
  {
    hide FillPosition, Open, SignedAt;
    if es != [] {
      var n := |es| - 1;
      var e := es[n];
      assert e in es;
      FillsMovePosition(st, c, ps, es[..n], k);
      if e.OrderFilled? {
        assert LegTold(st, c, e);
        FillMovesSignedSize(Projected(ps, es[..n]), PositionKey(e.userId, e.symbol), e.side, e.fillQty, e.fillPrice, k);
      }
    }
  }

  // So every position moves by the fills of its user's own orders.
  lemma StepMovesPositions(cfg: EngineConfig, st: EngineState, c: Command, ps: PositionMap, k: PositionKey)
    requires Sound(st) && FreshId(st, c) && cfg.lotSize > 0 && Open(ps)
    ensures var es := Step(cfg, st, c).1;
      SignedAt(Projected(ps, es), k) == SignedAt(ps, k) + OwnFills(st, c, es, k)
  {
    hide Step, Sound, Open, LegTold, InTrades, SignedAt, OwnFills, Projected, FreshId;
    StepLegs(cfg, st, c);
    FillsMovePosition(st, c, ps, Step(cfg, st, c).1, k);
  }
}
