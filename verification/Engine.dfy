// The matching engine of one symbol: command handlers that drive the indexed
// book in place, and the matcher-free replay of logged events.
module Engine {
  import opened Common
  import opened Arrivals
  import opened OrderBooks
  import opened Matcher
  import opened MatchTheorems
  import opened FundingRate
  import opened EngineSpec
  import opened Triggers

  class MatchingEngine {
    const config: EngineConfig
    const orderbook: OrderBook
    var markPrice: int
    var indexPrice: int
    var stopOrders: seq<Order>
    var expiryHeap: multiset<(Micros, OrderId)>
    var sequence: nat
    var lastFundingRate: int
    var replaySeenOrderIds: set<OrderId>

    ghost predicate Valid()
      reads this, orderbook
    {
      orderbook.Valid()
    }

    ghost function View(): EngineState
      reads this, orderbook
    {
      EngineState(orderbook.arrivals, stopOrders, markPrice, indexPrice, lastFundingRate, expiryHeap,
                  replaySeenOrderIds)
    }

    constructor (config: EngineConfig)
      ensures Valid() && fresh(orderbook) && this.config == config
      ensures View() == EngineState([], [], 0, 0, 0, multiset{}, {})
    {
      this.config := config;
      orderbook := new OrderBook(config.symbol);
      markPrice, indexPrice, stopOrders, sequence, lastFundingRate := 0, 0, [], 0, 0;
      expiryHeap, replaySeenOrderIds := multiset{}, {};
    }

    // Dispatch a command to its handler; what it emits is what is logged.
    method ProcessCommand(cmd: Command) returns (events: seq<Event>)
      requires Valid()
      requires cmd.UpdateMarkPrice? ==> Apart(stopOrders, orderbook.arrivals)
      modifies this, orderbook
      ensures Valid() && sequence == old(sequence) + 1
      ensures (View(), events) == Step(config, old(View()), cmd)
    {
      hide OrderBook.Valid;
      sequence := sequence + 1;
      match cmd {
        case NewOrder(_, _, _, _, _, _, _, _, _, _, _, _, _, _) => events := HandleNewOrder(cmd);
        case CancelOrder(id, user, _, ts) => events := HandleCancelOrder(id, user, ts);
        case AmendOrder(_, _, _, _, _, _) => events := HandleAmendOrder(cmd);
        case CancelAllOrders(user, symbol, ts) => events := HandleCancelAll(user, symbol, ts);
        case UpdateMarkPrice(symbol, mark, index, ts) => events := UpdateMarkPriceCmd(symbol, mark, index, ts);
        case ComputeFunding(symbol, ts) => events := ComputeFundingCmd(symbol, ts);
        case AdminCredit(_, _, _, _) => events := [];
      }
    }

    method HandleNewOrder(c: Command) returns (events: seq<Event>)
      requires Valid() && c.NewOrder?
      modifies this`stopOrders, this`expiryHeap, orderbook
      ensures Valid() && (View(), events) == NewOrderStep(config, old(View()), c)
    {
      hide OrderBook.Valid, Match;
      if c.quantity <= 0 {
        return [OrderRejected(c.orderId, c.userId, InvalidOrder, c.timestamp)];
      }
      var existing := orderbook.GetOrder(c.orderId);
      if existing.Some? {
        return [OrderRejected(c.orderId, c.userId, DuplicateOrder, c.timestamp)];
      }
      var price := EffectivePrice(c.orderType, c.side, c.price);
      if price.None? || !IcebergOk(config, c.orderType, c.visibleQuantity) {
        return [OrderRejected(c.orderId, c.userId, InvalidOrder, c.timestamp)];
      }
      var order := BuildOrder(c, price.value, markPrice);
      if c.orderType.IsConditional() {
        stopOrders := stopOrders + [order];
        return [AcceptedEvent(order, c.symbol, c.timestamp)];
      }
      events := PlaceOrder(order);
    }

    // Match an accepted order, then rest, cancel or drop what is left.
    method PlaceOrder(order: Order) returns (events: seq<Event>)
      requires Valid() && !HasId(orderbook.arrivals, order.orderId)
      modifies this`expiryHeap, orderbook
      ensures Valid() && (View(), events) == PlaceStep(old(View()), order)
    {
      hide OrderBook.Valid, Match, HasId;
      MatchIds(orderbook.arrivals, order, order.orderId);
      TakerKept(orderbook.arrivals, order);
      var fills, taker, rejected := MatchOrder(orderbook, order);
      if rejected {
        return [OrderRejected(order.orderId, order.userId, RejectionOf(order.tif), order.timestamp)];
      }
      var fillEvents := EmitFillEvents(fills, order.symbol, order.timestamp, taker.remaining);
      events := [AcceptedEvent(order, order.symbol, order.timestamp)] + fillEvents;
      var left := Refill(taker, order.timestamp);
      if Rests(left) {
        if left.expireTime.Some? {
          expiryHeap := expiryHeap + multiset{(left.expireTime.value, order.orderId)};
        }
        orderbook.InsertOrder(left);
      } else if left.remaining != 0 {
        events := events + [CanceledEvent(left, order.userId, order.symbol, order.timestamp)];
      }
    }

    // The fill and trade events of one match, in order.
    method EmitFillEvents(fills: seq<Fill>, symbol: SymbolId, timestamp: Micros, takerLeft: int)
      returns (events: seq<Event>)
      requires Valid()
      ensures events == FillEvents(orderbook.arrivals, fills, symbol, timestamp, takerLeft)
    {
      events := [];
      assert fills[..0] == [];
      for i := 0 to |fills|
        invariant events == FillEvents(orderbook.arrivals, fills[..i], symbol, timestamp, takerLeft)
      {
        assert fills[..i + 1][..i] == fills[..i] && fills[..i + 1][i] == fills[i];
        var maker := orderbook.GetOrder(fills[i].makerId);
        events := events + TradeEvents(fills[i], symbol, timestamp, Left(maker), takerLeft);
      }
      assert fills[..|fills|] == fills;
    }

    // Process CancelOrder: the book first, then the stop orders.
    method HandleCancelOrder(id: OrderId, user: UserId, timestamp: Micros) returns (events: seq<Event>)
      requires Valid()
      modifies this`stopOrders, orderbook
      ensures Valid() && (View(), events) == CancelStep(old(View()), id, user, timestamp)
    {
      hide OrderBook.Valid;
      AbsentUnchangedUnless(orderbook.arrivals, id);
      var removed := orderbook.RemoveOrder(id);
      GoneId(old(orderbook.arrivals), id);
      if removed.Some? {
        var order := removed.value;
        if order.userId != user {
          orderbook.InsertOrder(order);
          return [OrderRejected(id, user, OrderNotFound, timestamp)];
        }
        return [CanceledEvent(order, user, order.symbol, timestamp)];
      }
      var pos := IndexOf(stopOrders, id);
      if pos < |stopOrders| {
        var order := stopOrders[pos];
        stopOrders := stopOrders[..pos] + stopOrders[pos + 1..];
        if order.userId != user {
          stopOrders := stopOrders + [order];
          return [OrderRejected(id, user, OrderNotFound, timestamp)];
        }
        return [CanceledEvent(order, user, order.symbol, timestamp)];
      }
      return [OrderRejected(id, user, OrderNotFound, timestamp)];
    }

    // Process AmendOrder: in place when only the size shrinks, otherwise
    // cancel and match again.
    method HandleAmendOrder(c: Command) returns (events: seq<Event>)
      requires Valid() && c.AmendOrder?
      modifies orderbook
      ensures Valid() && (View(), events) == AmendStep(old(View()), c)
    {
      hide OrderBook.Valid, Match, Reprice;
      var existing := orderbook.GetOrder(c.orderId);
      if existing.None? || existing.value.userId != c.userId {
        return [OrderRejected(c.orderId, c.userId, OrderNotFound, c.timestamp)];
      }
      var resting := existing.value;
      var priceChanged := c.newPrice.Some? && c.newPrice.value != resting.price;
      var qtyDown := c.newQuantity.Some? && c.newQuantity.value < resting.remaining;
      var qtyUp := c.newQuantity.Some? && c.newQuantity.value > resting.remaining;
      if priceChanged || qtyUp {
        events := CancelAndReplace(c, resting);
      } else if qtyDown {
        if c.newQuantity.value <= 0 {
          return [OrderRejected(c.orderId, c.userId, InvalidOrder, c.timestamp)];
        }
        orderbook.UpdateQty(c.orderId, c.newQuantity.value);
        events := [AcceptedEvent(resting, c.symbol, c.timestamp)];
      } else {
        events := [AcceptedEvent(resting, c.symbol, c.timestamp)];
      }
    }

    method CancelAndReplace(c: Command, resting: Order) returns (events: seq<Event>)
      requires Valid() && c.AmendOrder? && Lookup(orderbook.arrivals, c.orderId) == Some(resting)
      modifies orderbook
      ensures Valid() && (View(), events) == Reprice(old(View()), c, resting)
    {
      hide OrderBook.Valid, Match;
      var removed := orderbook.RemoveOrder(c.orderId);
      GoneId(old(orderbook.arrivals), c.orderId);
      var canceled := CanceledEvent(resting, c.userId, c.symbol, c.timestamp);
      var price := if c.newPrice.Some? then c.newPrice.value else resting.price;
      var qty := if c.newQuantity.Some? then c.newQuantity.value else resting.remaining;
      if qty <= 0 || price <= 0 {
        return [canceled, OrderRejected(c.orderId, c.userId, InvalidOrder, c.timestamp)];
      }
      var amended := resting.(price := price, remaining := qty, original := qty, timestamp := c.timestamp);
      MatchIds(orderbook.arrivals, amended, c.orderId);
      TakerKept(orderbook.arrivals, amended);
      var fills, taker, rejected := MatchOrder(orderbook, amended);
      if rejected {
        return [canceled, OrderRejected(c.orderId, c.userId, RejectionOf(amended.tif), c.timestamp)];
      }
      var fillEvents := EmitFillEvents(fills, c.symbol, c.timestamp, taker.remaining);
      events := [canceled, AcceptedEvent(taker, c.symbol, c.timestamp)] + fillEvents;
      if taker.remaining != 0 && taker.orderType.IsLimit() {
        orderbook.InsertOrder(taker);
      } else {
        assert orderbook.arrivals + [] == orderbook.arrivals;
      }
    }

    // Process CancelAllOrders: the user's book orders, then the stop orders.
    method HandleCancelAll(user: UserId, symbol: SymbolId, timestamp: Micros) returns (events: seq<Event>)
      requires Valid()
      modifies this`stopOrders, orderbook
      ensures Valid() && (View(), events) == CancelAllStep(old(View()), user, symbol, timestamp)
    {
      hide OrderBook.Valid, Sweep;
      var canceled := orderbook.CancelAllUserOrders(user);
      var taken := SweepStops(OwnedBy(user, symbol));
      var orders := canceled + taken;
      events := CanceledEvents(orders, user, symbol, timestamp);
    }

    // The loop shared by cancel-all and the trigger check: swap-remove every
    // stop order the test picks, and look again at the same index.
    method SweepStops(test: StopTest) returns (taken: seq<Order>)
      modifies this`stopOrders
      ensures (stopOrders, taken) == Sweep(old(stopOrders), 0, test)
    {
      taken := [];
      var i := 0;
      assert [] + Sweep(stopOrders, 0, test).1 == Sweep(stopOrders, 0, test).1;
      while i < |stopOrders|
        invariant 0 <= i <= |stopOrders|
        invariant var (kept, more) := Sweep(stopOrders, i, test);
          Sweep(old(stopOrders), 0, test) == (kept, taken + more)
        decreases |stopOrders| - i
      {
        if test.Picks(stopOrders[i]) {
          ghost var more := Sweep(SwapRemove(stopOrders, i), i, test).1;
          assert taken + ([stopOrders[i]] + more) == (taken + [stopOrders[i]]) + more;
          taken := taken + [stopOrders[i]];
          stopOrders := SwapRemove(stopOrders, i);
        } else {
          i := i + 1;
        }
      }
      assert taken + [] == taken;
    }

    // Passive: set mark and index price and move trailing peaks. Shared by
    // the live path and replay; triggers nothing.
    method ApplyMarkIndexPassive(mark: int, index: int)
      modifies this`markPrice, this`indexPrice, this`stopOrders
      ensures View() == MarkPassive(old(View()), mark, index)
    {
      markPrice, indexPrice := mark, index;
      UpdateTrailingPeaks();
    }

    method UpdateTrailingPeaks()
      modifies this`stopOrders
      ensures stopOrders == PeakedAll(old(stopOrders), markPrice)
    {
      var i := 0;
      while i < |stopOrders|
        invariant 0 <= i <= |stopOrders| == |old(stopOrders)|
        invariant forall j :: 0 <= j < i ==> stopOrders[j] == Peaked(old(stopOrders)[j], markPrice)
        invariant forall j :: i <= j < |stopOrders| ==> stopOrders[j] == old(stopOrders)[j]
      {
        var order := stopOrders[i];
        if order.orderType.TrailingStop? && order.trailingPeak.Some? {
          var peak := order.trailingPeak.value;
          match order.side {
            case Sell => if markPrice > peak { peak := markPrice; }
            case Buy => if markPrice < peak { peak := markPrice; }
          }
          stopOrders := stopOrders[i := order.(trailingPeak := Some(peak))];
        }
        i := i + 1;
      }
    }

    // Live: set the mark, then run every triggered stop through the matcher.
    method UpdateMarkPriceCmd(symbol: SymbolId, mark: int, index: int, timestamp: Micros)
      returns (events: seq<Event>)
      requires Valid() && Apart(stopOrders, orderbook.arrivals)
      modifies this`markPrice, this`indexPrice, this`stopOrders, orderbook
      ensures Valid() && (View(), events) == MarkStep(old(View()), symbol, mark, index, timestamp)
    {
      hide OrderBook.Valid, Sweep, TriggerAll, Distinct;
      PeakedApart(stopOrders, mark, orderbook.arrivals);
      ApplyMarkIndexPassive(mark, index);
      var triggered := TriggerAndMatchStops(timestamp);
      events := [MarkPriceUpdate(symbol, mark, index, timestamp)] + triggered;
    }

    method TriggerAndMatchStops(timestamp: Micros) returns (events: seq<Event>)
      requires Valid() && Apart(stopOrders, orderbook.arrivals)
      modifies this`stopOrders, orderbook
      ensures Valid()
      ensures var (kept, taken) := Sweep(old(stopOrders), 0, FiredBy(markPrice));
        stopOrders == kept && (orderbook.arrivals, events) == TriggerAll(old(orderbook.arrivals), taken, timestamp)
    {
      hide OrderBook.Valid, Sweep, Match;
      SweepDistinct(stopOrders, 0, FiredBy(markPrice));
      var triggered := SweepStops(FiredBy(markPrice));
      events := [];
      assert triggered[..0] == [];
      for i := 0 to |triggered|
        invariant Valid() && stopOrders == Sweep(old(stopOrders), 0, FiredBy(markPrice)).0
        invariant (orderbook.arrivals, events) == TriggerAll(old(orderbook.arrivals), triggered[..i], timestamp)
        invariant forall j :: i <= j < |triggered| ==> !HasId(orderbook.arrivals, triggered[j].orderId)
      {
        assert triggered[..i + 1][..i] == triggered[..i] && triggered[..i + 1][i] == triggered[i];
        forall j | i < j < |triggered|
          ensures !HasId(TriggerOne(orderbook.arrivals, triggered[i], timestamp).0, triggered[j].orderId)
        {
          TriggerOneIds(orderbook.arrivals, triggered[i], timestamp, triggered[j].orderId);
        }
        var more := TriggerStop(triggered[i], timestamp);
        events := events + more;
      }
      assert triggered[..|triggered|] == triggered;
    }

    method TriggerStop(order: Order, timestamp: Micros) returns (events: seq<Event>)
      requires Valid() && !HasId(orderbook.arrivals, order.orderId)
      modifies orderbook
      ensures Valid()
      ensures (orderbook.arrivals, events) == TriggerOne(old(orderbook.arrivals), order, timestamp)
    {
      hide OrderBook.Valid, Match, HasId;
      MatchIds(orderbook.arrivals, Promote(order), order.orderId);
      TakerKept(orderbook.arrivals, Promote(order));
      var fills, taker, rejected := MatchOrder(orderbook, Promote(order));
      events := [];
      if !rejected {
        events := EmitFillEvents(fills, taker.symbol, timestamp, taker.remaining);
        if taker.remaining != 0 && taker.orderType.IsLimit() {
          orderbook.InsertOrder(taker);
        } else {
          assert orderbook.arrivals + [] == orderbook.arrivals;
        }
      }
    }

    // The funding rate from the instantaneous premium, zero without an index.
    method ComputeFundingCmd(symbol: SymbolId, timestamp: Micros) returns (events: seq<Event>)
      modifies this`lastFundingRate
      ensures (View(), events) == FundingStep(config, old(View()), symbol, timestamp)
      ensures Nearest(lastFundingRate, Premium(markPrice, indexPrice) + config.interestRate)
    {
      var premium := if indexPrice == 0 then 0 else Div(markPrice - indexPrice, indexPrice);
      var rate := CalcFundingRate(premium, config.interestRate);
      RateIsClamped(premium, config.interestRate);
      lastFundingRate := rate;
      return [FundingRateUpdate(symbol, rate, timestamp)];
    }

    // Apply a historical event during replay. No matching, no triggering; on
    // an error the boot aborts.
    method ApplyEvent(event: Event) returns (error: Option<ApplyError>)
      requires Valid()
      modifies this`markPrice, this`indexPrice, this`stopOrders, this`expiryHeap, this`lastFundingRate,
               this`replaySeenOrderIds, orderbook
      ensures Valid()
      ensures error.None? ==> EngineSpec.ApplyEvent(old(View()), event) == Ok(View())
      ensures error.Some? ==> EngineSpec.ApplyEvent(old(View()), event) == Err(error.value)
    {
      hide OrderBook.Valid;
      error := None;
      match event {
        case OrderAccepted(_, _, _, _, _, _, _, _, _, _, _, _, _, _, _) => error := ReplayAccepted(event);
        case OrderCanceled(id, _, _, _, _) => error := ReplayCanceled(id);
        case OrderFilled(id, _, _, _, _, qty, _, left, _) => error := ReplayFilled(id, qty, left);
        case MarkPriceUpdate(_, mark, index, _) => ApplyMarkIndexPassive(mark, index);
        case FundingRateUpdate(_, rate, _) => lastFundingRate := rate;
        case LiquidationOrder(_, _, _, _, _) => error := Some(UnexpectedVariant);
        case _ =>
      }
    }

    method ReplayAccepted(e: Event) returns (error: Option<ApplyError>)
      requires Valid() && e.OrderAccepted?
      modifies this`stopOrders, this`expiryHeap, this`replaySeenOrderIds, orderbook
      ensures Valid()
      ensures error.None? ==> ApplyAccepted(old(View()), e) == Ok(View())
      ensures error.Some? ==> ApplyAccepted(old(View()), e) == Err(error.value)
    {
      hide OrderBook.Valid;
      var existing := orderbook.GetOrder(e.orderId);
      if existing.Some? {
        return Some(DuplicateOnReplay(e.orderId));
      }
      var order := ReplayedOrder(e);
      replaySeenOrderIds := replaySeenOrderIds + {e.orderId};
      if e.orderType.IsConditional() {
        stopOrders := stopOrders + [order];
      } else {
        orderbook.InsertOrder(order);
      }
      if e.tif.Gtd? {
        expiryHeap := expiryHeap + multiset{(e.timestamp + DAY, e.orderId)};
      }
      return None;
    }

    method ReplayCanceled(id: OrderId) returns (error: Option<ApplyError>)
      requires Valid()
      modifies this`stopOrders, orderbook
      ensures Valid()
      ensures error.None? ==> ApplyCanceled(old(View()), id) == Ok(View())
      ensures error.Some? ==> ApplyCanceled(old(View()), id) == Err(error.value)
    {
      hide OrderBook.Valid;
      AbsentUnchangedUnless(orderbook.arrivals, id);
      var removed := orderbook.RemoveOrder(id);
      if removed.None? {
        var pos := IndexOf(stopOrders, id);
        if pos == |stopOrders| {
          return Some(UnknownOrder(id));
        }
        stopOrders := stopOrders[..pos] + stopOrders[pos + 1..];
      }
      return None;
    }

    method ReplayFilled(id: OrderId, qty: int, left: int) returns (error: Option<ApplyError>)
      requires Valid()
      modifies this`stopOrders, orderbook
      ensures Valid()
      ensures error.None? ==> ApplyFilled(old(View()), id, qty, left) == Ok(View())
      ensures error.Some? ==> ApplyFilled(old(View()), id, qty, left) == Err(error.value)
    {
      hide OrderBook.Valid;
      var existing := orderbook.GetOrder(id);
      if existing.Some? {
        if qty > existing.value.remaining {
          return Some(OverFill(qty, existing.value.remaining));
        }
        if left == 0 {
          var _ := orderbook.RemoveOrder(id);
        } else {
          orderbook.UpdateQty(id, left);
        }
        return None;
      }
      var pos := IndexOf(stopOrders, id);
      if pos < |stopOrders| {
        var order := stopOrders[pos];
        stopOrders := SwapRemove(stopOrders, pos);
        if qty > order.remaining {
          return Some(OverFill(qty, order.remaining));
        }
        order := Promote(order);
        if left != 0 && order.orderType.IsLimit() {
          orderbook.InsertOrder(order.(remaining := left));
        }
        return None;
      }
      if id in replaySeenOrderIds {
        return None;
      }
      return Some(UnknownOrder(id));
    }
  }

  lemma AbsentUnchangedUnless(arr: seq<Order>, id: OrderId)
    ensures !HasId(arr, id) ==> Keep(arr, NotId(id)) == arr
  {
    if !HasId(arr, id) { AbsentUnchanged(arr, id, 0); }
  }

  lemma PeakedApart(stops: seq<Order>, mark: int, arr: seq<Order>)
    requires Apart(stops, arr)
    ensures Apart(PeakedAll(stops, mark), arr)
  {
    var p := PeakedAll(stops, mark);
    forall o | o in p ensures !HasId(arr, o.orderId) {
      var i :| 0 <= i < |p| && p[i] == o;
      assert stops[i] in stops;
    }
  }
}
