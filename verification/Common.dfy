// Shared vocabulary of the exchange: fixed-point values, enums, and the
// commands and events that cross component boundaries.
module Common {
  lemma Pick<T>(s: set<T>) returns (x: T)
    requires s != {}
    ensures x in s
  {
    x :| x in s;
  }

  datatype Option<+T> = None | Some(value: T)
  datatype Result<+T, +E> = Ok(value: T) | Err(error: E)

  type OrderId = nat
  type UserId = nat
  type SymbolId = nat
  type Micros = nat

  // ── Fixed point ───────────────────────────────────────────────────────
  // A decimal is represented by its raw value, the real value times 10^18.

  const SCALE: int := 1_000_000_000_000_000_000

  // The largest raw value, the price a market buy carries.
  const DECIMAL_MAX: int := 170141183460469231731687303715884105727

  function Abs(x: int): nat {
    if x < 0 then -x else x
  }

  function Min(a: int, b: int): int {
    if a <= b then a else b
  }

  function Max(a: int, b: int): int {
    if a >= b then a else b
  }

  // Rust's integer division: the quotient is rounded toward zero.
  function TruncDiv(a: int, b: int): int
    requires b != 0
  {
    if (a < 0) == (b < 0) then Abs(a) / Abs(b) else -(Abs(a) / Abs(b))
  }

  function Mul(a: int, b: int): int {
    TruncDiv(a * b, SCALE)
  }

  function Div(a: int, b: int): int
    requires b != 0
  {
    TruncDiv(a * SCALE, b)
  }

  lemma Difference(a: int, b: int, c: int)
    ensures (a - b) * c == a * c - b * c
  {
  }

  lemma NextMultiple(q: nat, r: nat, d: nat)
    requires q > r
    ensures q * d >= r * d + d
  {
    assert q * d == (r + 1) * d + (q - r - 1) * d;
  }

  // ── Enums ─────────────────────────────────────────────────────────────

  datatype Side = Buy | Sell {
    function Opposite(): Side {
      if Buy? then Sell else Buy
    }
  }

  datatype OrderType =
    | Limit | Market | StopMarket | StopLimit | TakeProfitMarket | TakeProfitLimit
    | TrailingStop | Iceberg
  {
    predicate IsConditional() {
      StopMarket? || StopLimit? || TakeProfitMarket? || TakeProfitLimit? || TrailingStop?
    }

    predicate IsLimit() {
      Limit? || StopLimit? || TakeProfitLimit? || Iceberg?
    }
  }

  datatype TimeInForce = Gtc | Ioc | Fok | Gtd | PostOnly

  datatype PositionSide = Long | Short | Both

  datatype RejectReason =
    | PostOnlyWouldTake | FokNotFillable | InvalidOrder | DuplicateOrder | OrderNotFound

  // ── Idempotency keys ──────────────────────────────────────────────────
  // The three textual formats have disjoint prefixes, so a key is a tagged
  // tuple. A leg key marks a secondary journal line of one call.

  datatype Key =
    | AdminKey(text: string)
    | PnlKey(seqNo: nat, user: UserId, symbol: SymbolId)
    | FundingKey(period: nat, user: UserId, symbol: SymbolId)
    | LegKey(base: Key, suffix: string)

  // ── Messages ──────────────────────────────────────────────────────────

  datatype Command =
    | NewOrder(orderId: OrderId, userId: UserId, symbol: SymbolId, side: Side, orderType: OrderType,
               tif: TimeInForce, price: Option<int>, quantity: int, stopPrice: Option<int>,
               trailingDelta: Option<int>, visibleQuantity: Option<int>, reduceOnly: bool,
               clientOrderId: Option<nat>, timestamp: Micros)
    | CancelOrder(orderId: OrderId, userId: UserId, symbol: SymbolId, timestamp: Micros)
    | AmendOrder(orderId: OrderId, userId: UserId, symbol: SymbolId, newPrice: Option<int>,
                 newQuantity: Option<int>, timestamp: Micros)
    | CancelAllOrders(userId: UserId, symbol: SymbolId, timestamp: Micros)
    | UpdateMarkPrice(symbol: SymbolId, markPrice: int, indexPrice: int, timestamp: Micros)
    | ComputeFunding(symbol: SymbolId, timestamp: Micros)
    | AdminCredit(userId: UserId, amount: int, key: Key, timestamp: Micros)

  datatype Event =
    | OrderAccepted(orderId: OrderId, userId: UserId, symbol: SymbolId, clientOrderId: Option<nat>,
                    timestamp: Micros, side: Side, orderType: OrderType, tif: TimeInForce, price: int,
                    quantity: int, stopPrice: Option<int>, reduceOnly: bool,
                    visibleQuantity: Option<int>, trailingDelta: Option<int>,
                    trailingPeakPrice: Option<int>)
    | OrderRejected(orderId: OrderId, userId: UserId, reason: RejectReason, timestamp: Micros)
    | OrderCanceled(orderId: OrderId, userId: UserId, symbol: SymbolId, remainingQty: int,
                    timestamp: Micros)
    | OrderFilled(orderId: OrderId, userId: UserId, symbol: SymbolId, side: Side, fillPrice: int,
                  fillQty: int, isMaker: bool, remainingQty: int, timestamp: Micros)
    | TradeExecuted(symbol: SymbolId, price: int, qty: int, buyerOrderId: OrderId,
                    sellerOrderId: OrderId, buyerUserId: UserId, sellerUserId: UserId,
                    timestamp: Micros)
    | MarkPriceUpdate(symbol: SymbolId, markPrice: int, indexPrice: int, timestamp: Micros)
    | FundingRateUpdate(symbol: SymbolId, fundingRate: int, timestamp: Micros)
    | LiquidationOrder(userId: UserId, symbol: SymbolId, side: Side, quantity: int,
                       timestamp: Micros)
    | AdminCredited(userId: UserId, amount: int, key: Key, timestamp: Micros)
    | RealizedPnl(userId: UserId, symbol: SymbolId, amount: int, timestamp: Micros)
    | FundingSettled(userId: UserId, symbol: SymbolId, period: nat, amount: int, timestamp: Micros)

  // The clearing-domain facts, which post-trade emits and the engine never does.
  predicate IsFact(e: Event) {
    e.AdminCredited? || e.RealizedPnl? || e.FundingSettled?
  }
}
