// The post-trade pipeline as a value: what the live path does with engine
// events, and what replay does with the log.
module PostTradeSpec {
  import opened Common
  import opened LedgerSpec
  import opened Positions

  // The money side: the ledger and the two counters its keys are built from.
  datatype Money = Money(ledger: Ledger, pnlSeq: nat, period: nat)

  datatype PostState = PostState(positions: PositionMap, mark: int, money: Money)

  const EMPTY_POST_STATE := PostState(map[], 0, Money(EMPTY_LEDGER, 0, 0))

  // ── Shared by both paths ──────────────────────────────────────────────

  // Everything an event does besides money.
  function Project(ps: PositionMap, e: Event): PositionMap {
    if e.OrderFilled? then
      FillPosition(ps, PositionKey(e.userId, e.symbol), e.side, e.fillQty, e.fillPrice)
    else ps
  }

  function MarkAfter(mark: int, e: Event): int {
    if e.MarkPriceUpdate? then e.markPrice else mark
  }

  // A signed amount settled against the funding pool, for a user whose account
  // is opened first. A known account cannot fail, so the amount moved results.
  function Settle(l: Ledger, u: UserId, signed: int, key: Key, ts: Micros): (Ledger, int) {
    var (l', r) := Apply(l.Opened(u), OpSettleCapped(u, signed), key, ts);
    (l', if r.Ok? then r.value else 0)
  }

  // ── Live ──────────────────────────────────────────────────────────────

  // The profit of a fill, settled under the next sequence number, which is only
  // taken if money moved. A loss that nothing is there to pay is not attempted.
  function SettlePnl(m: Money, u: UserId, symbol: SymbolId, pnl: int, ts: Micros): (Money, seq<Event>) {
    if pnl == 0 || (pnl < 0 && m.ledger.Bal(u, Funding).available == 0) then (m, [])
    else
      var (l, moved) := Settle(m.ledger, u, pnl, PnlKey(m.pnlSeq + 1, u, symbol), ts);
      if moved == 0 then (m.(ledger := l), [])
      else (m.(ledger := l, pnlSeq := m.pnlSeq + 1), [RealizedPnl(u, symbol, moved, ts)])
  }

  // What a position pays at a funding tick; negative is received.
  function PaymentOf(p: Position, mark: int, rate: int): int {
    Mul(Mul(p.size, mark), if p.side.Short? then -rate else rate)
  }

  function Payment(ps: PositionMap, k: PositionKey, mark: int, rate: int): int {
    if k in ps then PaymentOf(ps[k], mark, rate) else 0
  }

  // One position's funding: the user pays or receives what is moved.
  function SettleRow(l: Ledger, k: PositionKey, payment: int, period: nat, ts: Micros): (Ledger, seq<Event>) {
    if payment == 0 then (l, [])
    else
      var (l', moved) := Settle(l, k.user, -payment, FundingKey(period, k.user, k.symbol), ts);
      (l', if moved == 0 then [] else [FundingSettled(k.user, k.symbol, period, -moved, ts)])
  }

  function SettleRows(l: Ledger, ps: PositionMap, rows: seq<PositionKey>, mark: int, rate: int, period: nat,
                      ts: Micros): (Ledger, seq<Event>) {
    if rows == [] then (l, [])
    else
      var k := rows[|rows| - 1];
      var (l1, facts) := SettleRows(l, ps, rows[..|rows| - 1], mark, rate, period, ts);
      var (l2, more) := SettleRow(l1, k, Payment(ps, k, mark, rate), period, ts);
      (l2, facts + more)
  }

  // A funding tick is skipped if there are positions but no mark.
  function SettleTick(m: Money, ps: PositionMap, rows: seq<PositionKey>, mark: int, rate: int, ts: Micros)
    : (Money, seq<Event>) {
    if rows != [] && mark == 0 then (m, [])
    else
      var (l, facts) := SettleRows(m.ledger, ps, rows, mark, rate, m.period + 1, ts);
      (m.(ledger := l, period := m.period + 1), facts)
  }

  // The money one event moves. `rows` is the order in which the position map
  // yields its keys at a funding tick.
  function MoneyOf(st: PostState, e: Event, rows: seq<PositionKey>, ts: Micros): (Money, seq<Event>) {
    if e.OrderFilled? then
      SettlePnl(st.money, e.userId, e.symbol,
                FillPnl(st.positions, PositionKey(e.userId, e.symbol), e.side, e.fillQty, e.fillPrice), ts)
    else if e.FundingRateUpdate? then SettleTick(st.money, st.positions, rows, st.mark, e.fundingRate, ts)
    else (st.money, [])
  }

  function ConsumeOne(st: PostState, e: Event, rows: seq<PositionKey>, ts: Micros): (PostState, seq<Event>) {
    var (m, facts) := MoneyOf(st, e, rows, ts);
    (PostState(Project(st.positions, e), MarkAfter(st.mark, e), m), facts)
  }

  // A batch of engine events: the state after it and the facts it emits.
  function Consume(st: PostState, events: seq<Event>, rows: seq<seq<PositionKey>>, ts: Micros)
    : (PostState, seq<Event>)
    requires |rows| == |events|
    decreases |events|
  {
    if events == [] then (st, [])
    else
      var n := |events| - 1;
      var (s, facts) := Consume(st, events[..n], rows[..n], ts);
      var (s', more) := ConsumeOne(s, events[n], rows[n], ts);
      (s', facts + more)
  }

  function Projected(ps: PositionMap, events: seq<Event>): PositionMap {
    if events == [] then ps
    else Project(Projected(ps, events[..|events| - 1]), events[|events| - 1])
  }

  // A hash map yields each open position once, in any order.
  ghost predicate Enumerates(rows: seq<PositionKey>, ps: PositionMap) {
    && (forall k :: k in rows <==> k in ps && ps[k].size != 0)
    && (forall i, j :: 0 <= i < j < |rows| ==> rows[i] != rows[j])
  }

  ghost predicate RowsFit(ps: PositionMap, events: seq<Event>, rows: seq<seq<PositionKey>>) {
    && |rows| == |events|
    && forall i :: 0 <= i < |events| && events[i].FundingRateUpdate? ==>
         Enumerates(rows[i], Projected(ps, events[..i]))
  }

  // An admin credit: deposited under the caller's key, and recorded whether or
  // not the key was new.
  function Credit(m: Money, u: UserId, amount: int, key: Key, ts: Micros): (Money, seq<Event>) {
    (m.(ledger := Apply(m.ledger.Opened(u), OpDeposit(u, amount), key, ts).0), [AdminCredited(u, amount, key, ts)])
  }

  // ── Replay ────────────────────────────────────────────────────────────

  // The money one logged event moves: only recorded facts move any.
  function ApplyFact(m: Money, e: Event): Money {
    match e
    case AdminCredited(u, amount, key, ts) =>
      m.(ledger := Apply(m.ledger.Opened(u), OpDeposit(u, amount), key, ts).0)
    case RealizedPnl(u, symbol, amount, ts) =>
      m.(ledger := Settle(m.ledger, u, amount, PnlKey(m.pnlSeq + 1, u, symbol), ts).0, pnlSeq := m.pnlSeq + 1)
    case FundingSettled(u, symbol, period, amount, ts) =>
      m.(ledger := Settle(m.ledger, u, -amount, FundingKey(period, u, symbol), ts).0,
         period := Max(m.period, period))
    case _ => m
  }

  function ApplyLogged(st: PostState, e: Event): PostState {
    PostState(Project(st.positions, e), MarkAfter(st.mark, e), ApplyFact(st.money, e))
  }

  function Replay(st: PostState, log: seq<Event>): PostState {
    if log == [] then st else ApplyLogged(Replay(st, log[..|log| - 1]), log[|log| - 1])
  }
}
