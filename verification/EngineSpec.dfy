// What each command and each replayed event does to the engine, over the
// arrival list instead of the indexed book.
module EngineSpec {
  import opened Common
  import opened Arrivals
  import opened OrderBooks
  import opened Matcher
  import opened FundingRate

  datatype EngineConfig = EngineConfig(symbol: SymbolId, lotSize: int, interestRate: int)

  datatype EngineState = EngineState(
    arr: seq<Order>,
    stops: seq<Order>,
    mark: int,
    index: int,
    rate: int,
    heap: multiset<(Micros, OrderId)>,
    seen: set<OrderId>)

  // The engine as constructed.
  const EMPTY_ENGINE := EngineState([], [], 0, 0, 0, multiset{}, {})

  const DAY: Micros := 86_400_000_000

  // ── New orders ────────────────────────────────────────────────────────

  // The price an order carries: its limit, or the sentinel of a market order.
  function EffectivePrice(orderType: OrderType, side: Side, price: Option<int>): Option<int> {
    if orderType.IsLimit() then
      if price.Some? && price.value > 0 then price else None
    else Some(if side.Buy? then DECIMAL_MAX else 0)
  }

  predicate IcebergOk(cfg: EngineConfig, orderType: OrderType, visible: Option<int>) {
    orderType.Iceberg? ==> visible.Some? && visible.value >= Mul(cfg.lotSize, 10 * SCALE)
  }

  function BuildOrder(c: Command, price: int, mark: int): Order
    requires c.NewOrder? && (c.orderType.Iceberg? ==> c.visibleQuantity.Some?)
  {
    var shown := if c.orderType.Iceberg? then Min(c.visibleQuantity.value, c.quantity) else c.quantity;
    Order(c.orderId, c.userId, c.symbol, c.side, price, shown, c.quantity, c.orderType, c.tif,
          c.reduceOnly, c.timestamp, c.visibleQuantity, c.quantity - shown, c.trailingDelta,
          if c.trailingDelta.Some? then Some(mark) else None,
          if c.tif.Gtd? then Some(c.timestamp + DAY) else None,
          c.clientOrderId, c.stopPrice)
  }

  function AcceptedEvent(o: Order, symbol: SymbolId, timestamp: Micros): Event {
    OrderAccepted(o.orderId, o.userId, symbol, o.clientOrderId, timestamp, o.side, o.orderType, o.tif,
                  o.price, o.original, o.stopPrice, o.reduceOnly, o.visibleQty, o.trailingDelta,
                  o.trailingPeak)
  }

  // The three events of one fill: maker leg, taker leg, trade.
  function TradeEvents(f: Fill, symbol: SymbolId, timestamp: Micros, makerLeft: int,
                       takerLeft: int): seq<Event> {
    var buy := f.takerSide.Buy?;
    [ OrderFilled(f.makerId, f.makerUser, symbol, f.takerSide.Opposite(), f.price, f.qty, true,
                  makerLeft, timestamp),
      OrderFilled(f.takerId, f.takerUser, symbol, f.takerSide, f.price, f.qty, false, takerLeft,
                  timestamp),
      TradeExecuted(symbol, f.price, f.qty,
                    if buy then f.takerId else f.makerId, if buy then f.makerId else f.takerId,
                    if buy then f.takerUser else f.makerUser, if buy then f.makerUser else f.takerUser,
                    timestamp) ]
  }

  function Left(order: Option<Order>): int {
    if order.Some? then order.value.remaining else 0
  }

  function FillEvents(after: seq<Order>, fills: seq<Fill>, symbol: SymbolId, timestamp: Micros,
                      takerLeft: int): seq<Event> {
    if fills == [] then []
    else FillEvents(after, fills[..|fills| - 1], symbol, timestamp, takerLeft)
         + TradeEvents(fills[|fills| - 1], symbol, timestamp,
                       Left(Lookup(after, fills[|fills| - 1].makerId)), takerLeft)
  }

  // An iceberg whose visible slice is gone shows its next one.
  function Refill(o: Order, timestamp: Micros): Order {
    if o.orderType.Iceberg? && o.remaining == 0 && o.hiddenQty != 0 then
      var refill := Min(if o.visibleQty.Some? then o.visibleQty.value else o.original, o.hiddenQty);
      o.(hiddenQty := o.hiddenQty - refill, remaining := refill, timestamp := timestamp)
    else o
  }

  predicate Rests(o: Order) {
    o.remaining != 0 && !o.tif.Ioc? && !o.tif.Fok? && o.orderType.IsLimit()
  }

  function CanceledEvent(o: Order, user: UserId, symbol: SymbolId, timestamp: Micros): Event {
    OrderCanceled(o.orderId, user, symbol, o.remaining, timestamp)
  }

  function RejectionOf(tif: TimeInForce): RejectReason {
    if tif.PostOnly? then PostOnlyWouldTake else FokNotFillable
  }

  function NewOrderStep(cfg: EngineConfig, st: EngineState, c: Command): (EngineState, seq<Event>)
    requires c.NewOrder?
  {
    var price := EffectivePrice(c.orderType, c.side, c.price);
    if c.quantity <= 0 then (st, [OrderRejected(c.orderId, c.userId, InvalidOrder, c.timestamp)])
    else if HasId(st.arr, c.orderId) then
      (st, [OrderRejected(c.orderId, c.userId, DuplicateOrder, c.timestamp)])
    else if price.None? || !IcebergOk(cfg, c.orderType, c.visibleQuantity) then
      (st, [OrderRejected(c.orderId, c.userId, InvalidOrder, c.timestamp)])
    else
      var o := BuildOrder(c, price.value, st.mark);
      if c.orderType.IsConditional() then
        (st.(stops := st.stops + [o]), [AcceptedEvent(o, c.symbol, c.timestamp)])
      else PlaceStep(st, o)
  }

  // Match an accepted order and rest, cancel or drop what is left of it.
  function PlaceStep(st: EngineState, o: Order): (EngineState, seq<Event>) {
    var m := Match(st.arr, o);
    if m.rejected then
      (st.(arr := m.arr), [OrderRejected(o.orderId, o.userId, RejectionOf(o.tif), o.timestamp)])
    else
      var left := Refill(m.taker, o.timestamp);
      var events := [AcceptedEvent(o, o.symbol, o.timestamp)]
                    + FillEvents(m.arr, m.fills, o.symbol, o.timestamp, m.taker.remaining);
      if Rests(left) then
        (st.(arr := m.arr + [left],
             heap := if left.expireTime.Some? then st.heap + multiset{(left.expireTime.value, o.orderId)}
                     else st.heap),
         events)
      else if left.remaining != 0 then
        (st.(arr := m.arr), events + [CanceledEvent(left, o.userId, o.symbol, o.timestamp)])
      else (st.(arr := m.arr), events)
  }

  // ── Cancels ───────────────────────────────────────────────────────────

  // Position of an id among the stop orders, or the length if absent.
  function IndexOf(stops: seq<Order>, id: OrderId): (i: nat)
    ensures i <= |stops|
    ensures i < |stops| ==> stops[i].orderId == id
    ensures forall j :: 0 <= j < i ==> stops[j].orderId != id
  {
    if stops == [] || stops[0].orderId == id then 0 else 1 + IndexOf(stops[1..], id)
  }

  function CancelStep(st: EngineState, id: OrderId, user: UserId, timestamp: Micros): (EngineState, seq<Event>) {
    var found := Lookup(st.arr, id);
    var i := IndexOf(st.stops, id);
    var notFound := [OrderRejected(id, user, OrderNotFound, timestamp)];
    if found.Some? then
      var o := found.value;
      if o.userId != user then (st.(arr := Keep(st.arr, NotId(id)) + [o]), notFound)
      else (st.(arr := Keep(st.arr, NotId(id))), [CanceledEvent(o, user, o.symbol, timestamp)])
    else if i < |st.stops| then
      var o := st.stops[i];
      var others := st.stops[..i] + st.stops[i + 1..];
      if o.userId != user then (st.(stops := others + [o]), notFound)
      else (st.(stops := others), [CanceledEvent(o, user, o.symbol, timestamp)])
    else (st, notFound)
  }

  // Which stop orders a sweep picks out: one owner's, or those a mark fires.
  datatype StopTest = OwnedBy(user: UserId, symbol: SymbolId) | FiredBy(mark: int) {
    predicate Picks(o: Order) {
      match this
      case OwnedBy(u, s) => o.userId == u && o.symbol == s
      case FiredBy(m) => Fires(o, m)
    }
  }

  predicate Fires(o: Order, mark: int) {
    var stop := if o.stopPrice.Some? then o.stopPrice.value else 0;
    match o.orderType
    case StopMarket | StopLimit => if o.side.Buy? then mark >= stop else mark <= stop
    case TakeProfitMarket | TakeProfitLimit => if o.side.Buy? then mark <= stop else mark >= stop
    case TrailingStop =>
      o.trailingDelta.Some? && o.trailingPeak.Some? &&
      if o.side.Buy? then mark >= o.trailingPeak.value + o.trailingDelta.value
      else mark <= o.trailingPeak.value - o.trailingDelta.value
    case _ => false
  }

  function SwapRemove(s: seq<Order>, i: nat): (r: seq<Order>)
    requires i < |s|
    ensures |r| == |s| - 1
  {
    s[i := s[|s| - 1]][..|s| - 1]
  }

  // The swap-remove loop from index i: what it keeps, and what it takes, in order.
  function Sweep(s: seq<Order>, i: nat, test: StopTest): (seq<Order>, seq<Order>)
    decreases |s| - i
  {
    if i >= |s| then (s, [])
    else if test.Picks(s[i]) then
      var (kept, taken) := Sweep(SwapRemove(s, i), i, test);
      (kept, [s[i]] + taken)
    else Sweep(s, i + 1, test)
  }

  function CanceledEvents(orders: seq<Order>, user: UserId, symbol: SymbolId, timestamp: Micros): (r: seq<Event>)
    ensures |r| == |orders|
    ensures forall i :: 0 <= i < |r| ==> r[i] == CanceledEvent(orders[i], user, symbol, timestamp)
  {
    seq(|orders|, i requires 0 <= i < |orders| => CanceledEvent(orders[i], user, symbol, timestamp))
  }

  function CancelAllStep(st: EngineState, user: UserId, symbol: SymbolId, timestamp: Micros)
    : (EngineState, seq<Event>)
  {
    var (kept, taken) := Sweep(st.stops, 0, OwnedBy(user, symbol));
    (st.(arr := Keep(st.arr, NotUser(user)), stops := kept),
     CanceledEvents(Keep(st.arr, OfUser(user)) + taken, user, symbol, timestamp))
  }

  // ── Amends ────────────────────────────────────────────────────────────

  function AmendStep(st: EngineState, c: Command): (EngineState, seq<Event>)
    requires c.AmendOrder?
  {
    var found := Lookup(st.arr, c.orderId);
    if found.None? || found.value.userId != c.userId then
      (st, [OrderRejected(c.orderId, c.userId, OrderNotFound, c.timestamp)])
    else
      var resting := found.value;
      var priceChanged := c.newPrice.Some? && c.newPrice.value != resting.price;
      if priceChanged || (c.newQuantity.Some? && c.newQuantity.value > resting.remaining) then
        Reprice(st, c, resting)
      else if c.newQuantity.Some? && c.newQuantity.value < resting.remaining then
        if c.newQuantity.value <= 0 then
          (st, [OrderRejected(c.orderId, c.userId, InvalidOrder, c.timestamp)])
        else (st.(arr := SetQty(st.arr, c.orderId, c.newQuantity.value)),
              [AcceptedEvent(resting, c.symbol, c.timestamp)])
      else (st, [AcceptedEvent(resting, c.symbol, c.timestamp)])
  }

  // A new price or a larger size: cancel, and match again as a fresh arrival.
  function Reprice(st: EngineState, c: Command, resting: Order): (EngineState, seq<Event>)
    requires c.AmendOrder?
  {
    var arr := Keep(st.arr, NotId(c.orderId));
    var canceled := CanceledEvent(resting, c.userId, c.symbol, c.timestamp);
    var price := if c.newPrice.Some? then c.newPrice.value else resting.price;
    var qty := if c.newQuantity.Some? then c.newQuantity.value else resting.remaining;
    if qty <= 0 || price <= 0 then
      (st.(arr := arr), [canceled, OrderRejected(c.orderId, c.userId, InvalidOrder, c.timestamp)])
    else
      var amended := resting.(price := price, remaining := qty, original := qty, timestamp := c.timestamp);
      var m := Match(arr, amended);
      if m.rejected then
        (st.(arr := m.arr),
         [canceled, OrderRejected(c.orderId, c.userId, RejectionOf(resting.tif), c.timestamp)])
      else
        (st.(arr := m.arr + (if m.taker.remaining != 0 && m.taker.orderType.IsLimit() then [m.taker] else [])),
         [canceled, AcceptedEvent(m.taker, c.symbol, c.timestamp)]
         + FillEvents(m.arr, m.fills, c.symbol, c.timestamp, m.taker.remaining))
  }

  // ── Marks, triggers and funding ───────────────────────────────────────

  function Peaked(o: Order, mark: int): Order {
    if o.orderType.TrailingStop? && o.trailingPeak.Some? then
      o.(trailingPeak := Some(if o.side.Sell? then Max(mark, o.trailingPeak.value)
                              else Min(mark, o.trailingPeak.value)))
    else o
  }

  function PeakedAll(stops: seq<Order>, mark: int): (r: seq<Order>)
    ensures |r| == |stops|
    ensures forall i :: 0 <= i < |r| ==> r[i] == Peaked(stops[i], mark)
  {
    seq(|stops|, i requires 0 <= i < |stops| => Peaked(stops[i], mark))
  }

  // A triggered conditional becomes the plain order it stood for.
  function Promote(o: Order): Order {
    match o.orderType
    case StopMarket | TakeProfitMarket | TrailingStop =>
      o.(orderType := Market, price := if o.side.Buy? then DECIMAL_MAX else 0)
    case StopLimit | TakeProfitLimit => o.(orderType := Limit)
    case _ => o
  }

  function TriggerOne(arr: seq<Order>, o: Order, timestamp: Micros): (seq<Order>, seq<Event>) {
    var m := Match(arr, Promote(o));
    if m.rejected then (m.arr, [])
    else
      (m.arr + (if m.taker.remaining != 0 && m.taker.orderType.IsLimit() then [m.taker] else []),
       FillEvents(m.arr, m.fills, m.taker.symbol, timestamp, m.taker.remaining))
  }

  function TriggerAll(arr: seq<Order>, orders: seq<Order>, timestamp: Micros): (seq<Order>, seq<Event>) {
    if orders == [] then (arr, [])
    else
      var (mid, events) := TriggerAll(arr, orders[..|orders| - 1], timestamp);
      var (end, more) := TriggerOne(mid, orders[|orders| - 1], timestamp);
      (end, events + more)
  }

  function MarkPassive(st: EngineState, mark: int, index: int): EngineState {
    st.(mark := mark, index := index, stops := PeakedAll(st.stops, mark))
  }

  function MarkStep(st: EngineState, symbol: SymbolId, mark: int, index: int, timestamp: Micros)
    : (EngineState, seq<Event>)
  {
    var passive := MarkPassive(st, mark, index);
    var (kept, taken) := Sweep(passive.stops, 0, FiredBy(mark));
    var (arr, events) := TriggerAll(st.arr, taken, timestamp);
    (passive.(arr := arr, stops := kept), [MarkPriceUpdate(symbol, mark, index, timestamp)] + events)
  }

  function FundingStep(cfg: EngineConfig, st: EngineState, symbol: SymbolId, timestamp: Micros)
    : (EngineState, seq<Event>)
  {
    var rate := CalcFundingRate(Premium(st.mark, st.index), cfg.interestRate);
    (st.(rate := rate), [FundingRateUpdate(symbol, rate, timestamp)])
  }

  // One command, live.
  function Step(cfg: EngineConfig, st: EngineState, c: Command): (EngineState, seq<Event>) {
    match c
    case NewOrder(_, _, _, _, _, _, _, _, _, _, _, _, _, _) => NewOrderStep(cfg, st, c)
    case CancelOrder(id, user, _, ts) => CancelStep(st, id, user, ts)
    case AmendOrder(_, _, _, _, _, _) => AmendStep(st, c)
    case CancelAllOrders(user, symbol, ts) => CancelAllStep(st, user, symbol, ts)
    case UpdateMarkPrice(symbol, mark, index, ts) => MarkStep(st, symbol, mark, index, ts)
    case ComputeFunding(symbol, ts) => FundingStep(cfg, st, symbol, ts)
    case AdminCredit(_, _, _, _) => (st, [])
  }

  // ── Replay ────────────────────────────────────────────────────────────

  datatype ApplyError =
    | UnknownOrder(id: OrderId)
    | DuplicateOnReplay(id: OrderId)
    | OverFill(got: int, have: int)
    | UnexpectedVariant

  function ReplayedOrder(e: Event): Order
    requires e.OrderAccepted?
  {
    Order(e.orderId, e.userId, e.symbol, e.side, e.price,
          if e.visibleQuantity.Some? then e.visibleQuantity.value else e.quantity,
          e.quantity, e.orderType, e.tif, e.reduceOnly, e.timestamp, e.visibleQuantity,
          if e.visibleQuantity.Some? then e.quantity - e.visibleQuantity.value else 0,
          e.trailingDelta, e.trailingPeakPrice,
          if e.tif.Gtd? then Some(e.timestamp + DAY) else None,
          e.clientOrderId, e.stopPrice)
  }

  function ApplyAccepted(st: EngineState, e: Event): Result<EngineState, ApplyError>
    requires e.OrderAccepted?
  {
    if HasId(st.arr, e.orderId) then Err(DuplicateOnReplay(e.orderId))
    else
      var o := ReplayedOrder(e);
      var st1 := st.(seen := st.seen + {e.orderId},
                     heap := if e.tif.Gtd? then st.heap + multiset{(e.timestamp + DAY, e.orderId)}
                             else st.heap);
      if e.orderType.IsConditional() then Ok(st1.(stops := st.stops + [o]))
      else Ok(st1.(arr := st.arr + [o]))
  }

  function ApplyCanceled(st: EngineState, id: OrderId): Result<EngineState, ApplyError> {
    var i := IndexOf(st.stops, id);
    if HasId(st.arr, id) then Ok(st.(arr := Keep(st.arr, NotId(id))))
    else if i < |st.stops| then Ok(st.(stops := st.stops[..i] + st.stops[i + 1..]))
    else Err(UnknownOrder(id))
  }

  // The three places a filled order may be: on the book, still a stop order,
  // or gone after its first leg.
  function ApplyFilled(st: EngineState, id: OrderId, qty: int, left: int): Result<EngineState, ApplyError> {
    var found := Lookup(st.arr, id);
    var i := IndexOf(st.stops, id);
    if found.Some? then
      if qty > found.value.remaining then Err(OverFill(qty, found.value.remaining))
      else if left == 0 then Ok(st.(arr := Keep(st.arr, NotId(id))))
      else Ok(st.(arr := SetQty(st.arr, id, left)))
    else if i < |st.stops| then
      var o := st.stops[i];
      var st1 := st.(stops := SwapRemove(st.stops, i));
      if qty > o.remaining then Err(OverFill(qty, o.remaining))
      else if left != 0 && Promote(o).orderType.IsLimit() then
        Ok(st1.(arr := st.arr + [Promote(o).(remaining := left)]))
      else Ok(st1)
    else if id in st.seen then Ok(st)
    else Err(UnknownOrder(id))
  }

  // One logged event, at boot: no matching, no triggering.
  function ApplyEvent(st: EngineState, e: Event): Result<EngineState, ApplyError> {
    match e
    case OrderAccepted(_, _, _, _, _, _, _, _, _, _, _, _, _, _, _) => ApplyAccepted(st, e)
    case OrderCanceled(id, _, _, _, _) => ApplyCanceled(st, id)
    case OrderFilled(id, _, _, _, _, qty, _, left, _) => ApplyFilled(st, id, qty, left)
    case MarkPriceUpdate(_, mark, index, _) => Ok(MarkPassive(st, mark, index))
    case FundingRateUpdate(_, rate, _) => Ok(st.(rate := rate))
    case LiquidationOrder(_, _, _, _, _) => Err(UnexpectedVariant)
    case _ => Ok(st)
  }
}
