// What becomes of an order when it arrives, judged by its own fields and the
// book before it: refused, filled, resting or canceled, and with how much left.
module Placing {
  import opened Common
  import opened Arrivals
  import opened Priority
  import opened OrderBooks
  import opened Matcher
  import opened MatchTheorems
  import opened Reach
  import opened EngineSpec
  import opened Triggers
  import opened EngineInvariants
  import opened TakerReplay
  import opened FiredReplay
  import opened EngineReplay
  import opened FillLegs

  // ── What the book offers ──────────────────────────────────────────────

  // The quantity that orders of the other side offer within a limit.
  function Offered(arr: seq<Order>, side: Side, limit: Option<int>): int {
    if arr == [] then 0
    else
      (if arr[0].side != side && WithinLimit(limit, side, arr[0].price) then arr[0].remaining else 0)
      + Offered(arr[1..], side, limit)
  }

  // Some order of the other side stands at the price or better.
  ghost predicate Opposed(arr: seq<Order>, side: Side, price: int) {
    exists x :: x in arr && x.side != side && WithinLimit(Some(price), side, x.price)
  }

  lemma {:induction false} OfferedIsReach(arr: seq<Order>, side: Side, limit: Option<int>)
    ensures Offered(arr, side, limit) == Reachable(Keep(arr, OnSide(side.Opposite())), side, limit)
  {
    if arr != [] {
      OfferedIsReach(arr[1..], side, limit);
      var tail := Keep(arr[1..], OnSide(side.Opposite()));
      assert ([arr[0]] + tail)[1..] == tail;
    }
  }

  // What a taker gets of it: nothing if it may not take.
  function Gets(arr: seq<Order>, tif: TimeInForce, side: Side, limit: Option<int>, qty: int): int {
    if tif.PostOnly? then 0 else Min(qty, Offered(arr, side, limit))
  }

  ghost predicate Blocked(arr: seq<Order>, tif: TimeInForce, side: Side, limit: Option<int>, price: int, qty: int) {
    (tif.PostOnly? && Opposed(arr, side, price)) || (tif.Fok? && Offered(arr, side, limit) < qty)
  }

  // A match, told by the taker's fields and the book.
  lemma MatchByBook(arr: seq<Order>, t: Order, limit: Option<int>)
    requires Distinct(arr) && AllPositive(arr) && t.remaining > 0
    requires limit == if t.orderType.IsLimit() then Some(t.price) else None
    ensures var m := Match(arr, t);
      && (m.rejected <==> Blocked(arr, t.tif, t.side, limit, t.price, t.remaining))
      && (!m.rejected ==> m.taker == t.(remaining := t.remaining - Gets(arr, t.tif, t.side, limit, t.remaining))
                          && FillSum(m.fills) == t.remaining - m.taker.remaining && m.taker.remaining >= 0)
      && (m.rejected ==> m.arr == arr && m.fills == [])
  {
    OfferedIsReach(arr, t.side, limit);
    MayTakeIff(arr, t);
    NotTaken(arr, t);
    if t.tif.PostOnly? {
      PostOnlyNeverTakes(arr, t);
      NoSum();
    } else {
      hide Distinct, Reachable, Queue, Walk, ApplyFills;
      if MayTake(arr, t) {
        FilledByReach(arr, t);
        MatchAsFills(arr, t);
      } else {
        RejectedUnchanged(arr, t);
      }
    }
  }

  // ── The taker's own fills ─────────────────────────────────────────────

  function FilledOf(es: seq<Event>, id: OrderId): int {
    if es == [] then 0
    else
      var e := es[|es| - 1];
      FilledOf(es[..|es| - 1], id) + (if e.OrderFilled? && e.orderId == id then e.fillQty else 0)
  }

  lemma {:induction false} FilledConcat(a: seq<Event>, b: seq<Event>, id: OrderId)
    ensures FilledOf(a + b, id) == FilledOf(a, id) + FilledOf(b, id)
  {
    if b == [] {
      assert a + b == a;
    } else {
      var n := |b| - 1;
      assert (a + b)[..|a + b| - 1] == a + b[..n];
      FilledConcat(a, b[..n], id);
    }
  }

  lemma FilledTrade(f: Fill, symbol: SymbolId, ts: Micros, makerLeft: int, left: int, id: OrderId)
    requires f.makerId != id && f.takerId == id
    ensures FilledOf(TradeEvents(f, symbol, ts, makerLeft, left), id) == f.qty
  {
    var es := TradeEvents(f, symbol, ts, makerLeft, left);
    assert es[..2] == [es[0], es[1]] && es[..2][..1] == [es[0]] && es[..2][..1][..0] == [];
    assert FilledOf([es[0]], id) == 0;
    assert FilledOf(es[..2], id) == f.qty;
  }

  ghost predicate NotMade(fills: seq<Fill>, id: OrderId) {
    forall k :: 0 <= k < |fills| ==> fills[k].makerId != id
  }

  ghost predicate OnlyTrades(es: seq<Event>) {
    forall e :: e in es ==> e.OrderFilled? || e.TradeExecuted?
  }

  lemma {:induction false} FilledFills(after: seq<Order>, fills: seq<Fill>, symbol: SymbolId, ts: Micros, left: int,
                                       t: Order)
    requires TakerOf(fills, t) && NotMade(fills, t.orderId)
    ensures FilledOf(FillEvents(after, fills, symbol, ts, left), t.orderId) == FillSum(fills)
    ensures OnlyTrades(FillEvents(after, fills, symbol, ts, left))
  {
    if fills != [] {
      var n := |fills| - 1;
      var init, f := fills[..n], fills[n];
      assert forall k :: 0 <= k < n ==> init[k] == fills[k];
      FilledFills(after, init, symbol, ts, left, t);
      FilledTrade(f, symbol, ts, Left(Lookup(after, f.makerId)), left, t.orderId);
      FilledConcat(FillEvents(after, init, symbol, ts, left),
                   TradeEvents(f, symbol, ts, Left(Lookup(after, f.makerId)), left), t.orderId);
    }
  }

  lemma MatchFilled(arr: seq<Order>, t: Order, symbol: SymbolId, ts: Micros)
    requires Distinct(arr) && AllPositive(arr) && t.remaining > 0 && !HasId(arr, t.orderId)
    requires !Match(arr, t).rejected
    ensures var m := Match(arr, t);
      var es := FillEvents(m.arr, m.fills, symbol, ts, m.taker.remaining);
      FilledOf(es, t.orderId) == FillSum(m.fills) && OnlyTrades(es) && !HasId(m.arr, t.orderId)
  {
    var m := Match(arr, t);
    hide Match, Distinct, AllPositive, Fillable, ApplyFills, FillEvents, HasId, FillTold;
    MatchAsFills(arr, t);
    MatchIds(arr, t, t.orderId);
    MatchTold(arr, t);
    forall k | 0 <= k < |m.fills| ensures m.fills[k].makerId != t.orderId {
      assert FillTold(arr, t, m.fills[k]);
      MakerIsThere(arr, t, m.fills[k]);
    }
    FilledFills(m.arr, m.fills, symbol, ts, m.taker.remaining, t);
  }

  lemma MakerIsThere(arr: seq<Order>, t: Order, f: Fill)
    requires FillTold(arr, t, f)
    ensures HasId(arr, f.makerId)
  {
  }

  // ── New orders ────────────────────────────────────────────────────────

  predicate NeedsPrice(ot: OrderType) {
    ot.Limit? || ot.StopLimit? || ot.TakeProfitLimit? || ot.Iceberg?
  }

  predicate Waits(ot: OrderType) {
    ot.StopMarket? || ot.StopLimit? || ot.TakeProfitMarket? || ot.TakeProfitLimit? || ot.TrailingStop?
  }

  // What of an order the book is shown at first.
  function ShownOf(c: Command): int
    requires c.NewOrder?
  {
    if c.orderType.Iceberg? && c.visibleQuantity.Some? then Min(c.visibleQuantity.value, c.quantity) else c.quantity
  }

  function LimitOfNew(c: Command): Option<int>
    requires c.NewOrder?
  {
    if NeedsPrice(c.orderType) then c.price else None
  }

  // The price a new order is held to by post-only: a market order's is beyond all.
  function PriceOfNew(c: Command): int
    requires c.NewOrder?
  {
    if NeedsPrice(c.orderType) && c.price.Some? then c.price.value else if c.side.Buy? then DECIMAL_MAX else 0
  }

  // Whether and why a new order is refused.
  ghost function Refusal(cfg: EngineConfig, st: EngineState, c: Command): Option<RejectReason>
    requires c.NewOrder?
  {
    if c.quantity <= 0 then Some(InvalidOrder)
    else if HasId(st.arr, c.orderId) then Some(DuplicateOrder)
    else if NeedsPrice(c.orderType) && (c.price.None? || c.price.value <= 0) then Some(InvalidOrder)
    else if c.orderType.Iceberg? && (c.visibleQuantity.None? || c.visibleQuantity.value < 10 * cfg.lotSize) then
      Some(InvalidOrder)
    else if Waits(c.orderType) then None
    else if c.tif.PostOnly? && Opposed(st.arr, c.side, PriceOfNew(c)) then Some(PostOnlyWouldTake)
    else if c.tif.Fok? && Offered(st.arr, c.side, LimitOfNew(c)) < ShownOf(c) then Some(FokNotFillable)
    else None
  }

  function TakenByNew(st: EngineState, c: Command): int
    requires c.NewOrder?
  {
    Gets(st.arr, c.tif, c.side, LimitOfNew(c), ShownOf(c))
  }

  // What is shown of it afterwards: the rest of the slice, or the next slice.
  function SliceLeft(st: EngineState, c: Command): int
    requires c.NewOrder?
  {
    var taken := TakenByNew(st, c);
    if taken < ShownOf(c) then ShownOf(c) - taken
    else if c.orderType.Iceberg? && c.visibleQuantity.Some? then Min(c.visibleQuantity.value, c.quantity - taken)
    else 0
  }

  // Limit and iceberg orders that are to stay, if anything is left of them.
  predicate Stays(st: EngineState, c: Command)
    requires c.NewOrder?
  {
    SliceLeft(st, c) > 0 && (c.orderType.Limit? || c.orderType.Iceberg?)
    && (c.tif.Gtc? || c.tif.Gtd? || c.tif.PostOnly?)
  }

  predicate RestsAs(o: Order, c: Command, slice: int, hidden: int)
    requires c.NewOrder?
  {
    && o.orderId == c.orderId && o.userId == c.userId && o.side == c.side && c.price == Some(o.price)
    && o.remaining == slice && o.hiddenQty == hidden
  }

  lemma TenLots(cfg: EngineConfig, c: Command)
    requires c.NewOrder? && cfg.lotSize > 0
    ensures IcebergOk(cfg, c.orderType, c.visibleQuantity) <==>
      (c.orderType.Iceberg? ==> c.visibleQuantity.Some? && c.visibleQuantity.value >= 10 * cfg.lotSize)
  {
    assert cfg.lotSize * (10 * SCALE) / SCALE == cfg.lotSize * 10;
  }

  // A new order that is refused changes nothing and says why.
  lemma RefusedOutcome(cfg: EngineConfig, st: EngineState, c: Command)
    requires Sound(st) && FreshId(st, c) && c.NewOrder? && cfg.lotSize > 0
    ensures (Step(cfg, st, c).1[0].OrderRejected? <==> Refusal(cfg, st, c).Some?)
    ensures Refusal(cfg, st, c).Some? ==>
      Step(cfg, st, c) == (st, [OrderRejected(c.orderId, c.userId, Refusal(cfg, st, c).value, c.timestamp)])
  {
    var price := EffectivePrice(c.orderType, c.side, c.price);
    TenLots(cfg, c);
    hide IcebergOk, Match, Offered, HasId, PlaceStep, Distinct, AllPositive;
    if c.quantity > 0 && !HasId(st.arr, c.orderId) && price.Some?
       && IcebergOk(cfg, c.orderType, c.visibleQuantity) && !c.orderType.IsConditional() {
      var o := BuildOrder(c, price.value, st.mark);
      assert o.remaining > 0 && o.remaining == ShownOf(c);
      MatchByBook(st.arr, o, LimitOfNew(c));
      PlacedFirst(st, o);
    }
  }

  lemma PlacedFirst(st: EngineState, o: Order)
    ensures Match(st.arr, o).rejected ==>
      PlaceStep(st, o) == (st.(arr := Match(st.arr, o).arr),
                           [OrderRejected(o.orderId, o.userId,
                                          if o.tif.PostOnly? then PostOnlyWouldTake else FokNotFillable, o.timestamp)])
    ensures !Match(st.arr, o).rejected ==> PlaceStep(st, o).1 != [] && PlaceStep(st, o).1[0].OrderAccepted?
  {
    hide Match, FillEvents;
  }

  // A conditional order waits as it came, a trailing one with its peak at the
  // mark of that moment.
  lemma WaitingOutcome(cfg: EngineConfig, st: EngineState, c: Command)
    requires Sound(st) && FreshId(st, c) && c.NewOrder? && cfg.lotSize > 0
    requires Refusal(cfg, st, c).None? && Waits(c.orderType)
    ensures var (st1, es) := Step(cfg, st, c);
      && |es| == 1 && es[0].OrderAccepted? && |st1.stops| == |st.stops| + 1 && st1 == st.(stops := st1.stops)
      && var o := st1.stops[|st.stops|];
      && st1.stops == st.stops + [o]
      && o.orderId == c.orderId && o.userId == c.userId && o.side == c.side && o.orderType == c.orderType
      && o.tif == c.tif && o.stopPrice == c.stopPrice && o.trailingDelta == c.trailingDelta
      && o.trailingPeak == (if c.trailingDelta.Some? then Some(st.mark) else None)
      && o.remaining == c.quantity && (NeedsPrice(c.orderType) ==> c.price == Some(o.price))
  {
    TenLots(cfg, c);
    hide IcebergOk, Match, HasId, PlaceStep;
  }

  // An accepted arrival takes what is offered, up to what it shows. It is on
  // the book afterwards, behind all others, exactly when something is left, it
  // is a limit or iceberg order, and its time in force lets it stay. Else, if
  // something is left, the last event cancels exactly that.
  lemma ArrivalOutcome(cfg: EngineConfig, st: EngineState, c: Command)
    requires Sound(st) && FreshId(st, c) && c.NewOrder? && cfg.lotSize > 0
    requires Refusal(cfg, st, c).None? && !Waits(c.orderType)
    ensures var (st1, es) := Step(cfg, st, c);
      var taken, slice := TakenByNew(st, c), SliceLeft(st, c);
      && es != [] && es[0].OrderAccepted? && FilledOf(es, c.orderId) == taken
      && (HasId(st1.arr, c.orderId) <==> Stays(st, c))
      && (Stays(st, c) ==> RestsAs(st1.arr[|st1.arr| - 1], c, slice, c.quantity - taken - slice)
                           && st1.arr[|st1.arr| - 1] in st1.arr)
      && (slice > 0 && !Stays(st, c) ==>
            es[|es| - 1] == OrderCanceled(c.orderId, c.userId, c.symbol, slice, c.timestamp))
      && (slice == 0 || Stays(st, c) ==> forall e :: e in es ==> !e.OrderCanceled?)
      && st1.stops == st.stops
  {
    var price := EffectivePrice(c.orderType, c.side, c.price);
    TenLots(cfg, c);
    hide IcebergOk, Match, Offered, HasId, PlaceStep, Distinct, AllPositive, FilledOf;
    RefusedOutcome(cfg, st, c);
    var o := BuildOrder(c, price.value, st.mark);
    assert o.remaining == ShownOf(c) > 0;
    MatchByBook(st.arr, o, LimitOfNew(c));
    MatchFilled(st.arr, o, o.symbol, o.timestamp);
    RefillLeft(st, c, o, Match(st.arr, o).taker);
    PlacedByBook(st, o);
  }

  lemma RefillLeft(st: EngineState, c: Command, o: Order, taker: Order)
    requires c.NewOrder? && c.quantity > 0 && (c.orderType.Iceberg? ==> c.visibleQuantity.Some?)
    requires EffectivePrice(c.orderType, c.side, c.price).Some?
    requires o == BuildOrder(c, EffectivePrice(c.orderType, c.side, c.price).value, st.mark)
    requires ShownOf(c) > 0 && TakenByNew(st, c) <= ShownOf(c)
    requires taker == o.(remaining := o.remaining - TakenByNew(st, c))
    ensures var left := Refill(taker, o.timestamp);
      && left.remaining == SliceLeft(st, c) && left.hiddenQty == c.quantity - TakenByNew(st, c) - SliceLeft(st, c)
      && left.orderId == o.orderId && left.userId == o.userId && left.side == o.side && left.price == o.price
      && left.orderType == o.orderType && left.tif == o.tif && left.remaining >= 0
  {
    hide Offered;
  }

  // Placing in terms of what is left after the refill.
  lemma PlacedByBook(st: EngineState, o: Order)
    requires !Match(st.arr, o).rejected
    requires var m := Match(st.arr, o);
      var fills := FillEvents(m.arr, m.fills, o.symbol, o.timestamp, m.taker.remaining);
      OnlyTrades(fills) && !HasId(m.arr, o.orderId)
    requires Refill(Match(st.arr, o).taker, o.timestamp).orderId == o.orderId
    ensures var m := Match(st.arr, o);
      var left := Refill(m.taker, o.timestamp);
      var fills := FillEvents(m.arr, m.fills, o.symbol, o.timestamp, m.taker.remaining);
      var stays := left.remaining != 0 && left.orderType.IsLimit() && !left.tif.Ioc? && !left.tif.Fok?;
      var (st1, es) := PlaceStep(st, o);
      && st1.stops == st.stops && es != [] && FilledOf(es, o.orderId) == FilledOf(fills, o.orderId)
      && (HasId(st1.arr, o.orderId) <==> stays)
      && (stays ==> st1.arr == m.arr + [left])
      && (!stays && left.remaining != 0 ==>
            es[|es| - 1] == OrderCanceled(o.orderId, o.userId, o.symbol, left.remaining, o.timestamp))
      && (stays || left.remaining == 0 ==> forall e :: e in es ==> !e.OrderCanceled?)
  {
    hide Match, FillEvents, Refill;
    var m := Match(st.arr, o);
    var left := Refill(m.taker, o.timestamp);
    var fills := FillEvents(m.arr, m.fills, o.symbol, o.timestamp, m.taker.remaining);
    var head, tail := [AcceptedEvent(o, o.symbol, o.timestamp)], [CanceledEvent(left, o.userId, o.symbol, o.timestamp)];
    FilledOther(head, o.orderId);
    FilledOther(tail, o.orderId);
    FilledConcat(head, fills, o.orderId);
    FilledConcat(head + fills, tail, o.orderId);
    assert (m.arr + [left])[|m.arr|] == left;
  }

  lemma {:induction false} FilledOther(es: seq<Event>, id: OrderId)
    requires forall e :: e in es ==> !e.OrderFilled?
    ensures FilledOf(es, id) == 0
  {
    if es != [] {
      assert es[|es| - 1] in es;
      FilledOther(es[..|es| - 1], id);
    }
  }

  // An immediate-or-cancel, fill-or-kill or market order never rests.
  lemma NeverRests(cfg: EngineConfig, st: EngineState, c: Command)
    requires Sound(st) && FreshId(st, c) && c.NewOrder? && cfg.lotSize > 0 && !HasId(st.arr, c.orderId)
    requires !Waits(c.orderType) && (c.tif.Ioc? || c.tif.Fok? || c.orderType.Market?)
    ensures !HasId(Step(cfg, st, c).0.arr, c.orderId)
  {
    hide Step, HasId, Sound, FreshId, FilledOf, Offered;
    RefusedOutcome(cfg, st, c);
    if Refusal(cfg, st, c).None? { ArrivalOutcome(cfg, st, c); }
  }

  // ── Fired stops and amended orders ────────────────────────────────────

  function LimitOfStop(o: Order): Option<int> {
    if o.orderType.StopLimit? || o.orderType.TakeProfitLimit? then Some(o.price) else None
  }

  function PriceOfStop(o: Order): int {
    if o.orderType.StopLimit? || o.orderType.TakeProfitLimit? then o.price else if o.side.Buy? then DECIMAL_MAX else 0
  }

  // A fired stop takes what is offered. It rests exactly when it has a limit,
  // is not blocked, and something is left, whatever its time in force; what a
  // market one leaves is dropped, and nothing is ever canceled.
  lemma FiredOutcome(arr: seq<Order>, o: Order, ts: Micros)
    requires Distinct(arr) && AllPositive(arr) && o.remaining > 0 && !HasId(arr, o.orderId) && Waits(o.orderType)
    ensures var (arr1, es) := TriggerOne(arr, o, ts);
      var blocked := Blocked(arr, o.tif, o.side, LimitOfStop(o), PriceOfStop(o), o.remaining);
      var left := o.remaining - Gets(arr, o.tif, o.side, LimitOfStop(o), o.remaining);
      && (blocked ==> arr1 == arr && es == [])
      && (!blocked ==> FilledOf(es, o.orderId) == o.remaining - left && OnlyTrades(es))
      && (HasId(arr1, o.orderId) <==> !blocked && left > 0 && LimitOfStop(o).Some?)
      && (HasId(arr1, o.orderId) ==>
            arr1 != [] && var x := arr1[|arr1| - 1];
            x.orderId == o.orderId && x.remaining == left && x.price == o.price && x.orderType.Limit?)
  {
    hide Match, FillEvents, Distinct, AllPositive, HasId, FilledOf, Promote, Blocked, Gets, OnlyTrades;
    var t := Promote(o);
    PromotedPrice(o);
    MatchByBook(arr, t, LimitOfStop(o));
    var m := Match(arr, t);
    if !m.rejected {
      MatchFilled(arr, t, m.taker.symbol, ts);
      LastIs(m.arr, m.taker, o.orderId);
    }
  }

  lemma PromotedPrice(o: Order)
    requires Waits(o.orderType)
    ensures var t := Promote(o);
      && LimitOfStop(o) == (if t.orderType.IsLimit() then Some(t.price) else None)
      && t.price == PriceOfStop(o) && t.orderId == o.orderId && t.remaining == o.remaining && t.tif == o.tif
      && t.side == o.side && (t.orderType.IsLimit() ==> t.orderType.Limit? && t.price == o.price)
  {
  }

  lemma LastIs(arr: seq<Order>, x: Order, id: OrderId)
    requires x.orderId == id && !HasId(arr, id)
    ensures HasId(arr + [x], id) && !HasId(arr + [], id)
  {
    assert (arr + [x])[|arr|] == x;
    assert arr + [] == arr;
  }

  // An amended order keeps its id, owner and side. At its new price and size it
  // takes what the others offer, and rests with what is left behind all others;
  // if it is blocked it is gone.
  lemma AmendedOutcome(st: EngineState, c: Command)
    requires Sound(st) && c.AmendOrder? && Amended(st, c).Some?
    ensures var (st1, es) := AmendStep(st, c);
      var o, others := Lookup(st.arr, c.orderId).value, Keep(st.arr, NotId(c.orderId));
      var price := if c.newPrice.Some? then c.newPrice.value else o.price;
      var qty := if c.newQuantity.Some? then c.newQuantity.value else o.remaining;
      var blocked := Blocked(others, o.tif, o.side, Some(price), price, qty);
      var left := qty - Gets(others, o.tif, o.side, Some(price), qty);
      && es != [] && es[0] == OrderCanceled(c.orderId, c.userId, c.symbol, o.remaining, c.timestamp)
      && (blocked ==> |es| == 2 && es[1].OrderRejected? && st1 == st.(arr := others))
      && (!blocked ==> FilledOf(es, c.orderId) == qty - left)
      && (HasId(st1.arr, c.orderId) <==> !blocked && left > 0)
      && (HasId(st1.arr, c.orderId) ==>
            st1.arr != [] && st1.arr[|st1.arr| - 1]
            == o.(price := price, remaining := left, original := qty, timestamp := c.timestamp))
  {
    hide AmendStep, Match, FillEvents, Distinct, AllPositive, AllLimit, HasId, FilledOf, Keep, Apart, Blocked, Gets,
         OnlyTrades;
    RepriceOutcome(st, c);
    var o, t := Lookup(st.arr, c.orderId).value, Amended(st, c).value;
    var others := Keep(st.arr, NotId(c.orderId));
    SoundPart(st.arr, NotId(c.orderId));
    GoneId(st.arr, c.orderId);
    OnBook(st, o);
    MatchByBook(others, t, Some(t.price));
    var m := Match(others, t);
    if !m.rejected {
      MatchFilled(others, t, c.symbol, c.timestamp);
      LastIs(m.arr, m.taker, c.orderId);
      var head := [CanceledEvent(o, c.userId, c.symbol, c.timestamp)];
      var more := [AcceptedEvent(m.taker, c.symbol, c.timestamp)];
      var fills := FillEvents(m.arr, m.fills, c.symbol, c.timestamp, m.taker.remaining);
      FilledOther(head, c.orderId);
      FilledOther(more, c.orderId);
      FilledConcat(more, fills, c.orderId);
      FilledConcat(head, more + fills, c.orderId);
    }
  }

  // An amend in place keeps every order's place in every level: the ids stand
  // as they stood, and only the amended quantity differs.
  lemma InPlaceOutcome(st: EngineState, c: Command, side: Side, price: int)
    requires Sound(st) && c.AmendOrder? && AmendsInPlace(st, c)
    ensures var (st1, es) := AmendStep(st, c);
      && Ids(Keep(st1.arr, AtLevel(side, price))) == Ids(Keep(st.arr, AtLevel(side, price)))
      && Ids(st1.arr) == Ids(st.arr) && st1 == st.(arr := st1.arr)
      && |st1.arr| == |st.arr|
      && forall i :: 0 <= i < |st.arr| ==>
           st1.arr[i] == if st.arr[i].orderId == c.orderId && c.newQuantity.Some?
                         then st.arr[i].(remaining := c.newQuantity.value) else st.arr[i]
  {
    var o := Lookup(st.arr, c.orderId).value;
    var q := if c.newQuantity.Some? then c.newQuantity.value else o.remaining;
    SetQtyAt(st.arr, c.orderId, q);
    KeepSetQty(st.arr, c.orderId, q, AtLevel(side, price));
    SetQtyAt(Keep(st.arr, AtLevel(side, price)), c.orderId, q);
    SameQty(st.arr, o);
    hide Reprice;
  }

  lemma SameQty(arr: seq<Order>, o: Order)
    requires Distinct(arr) && o in arr
    ensures SetQty(arr, o.orderId, o.remaining) == arr
  {
    SetQtyAt(arr, o.orderId, o.remaining);
    forall i | 0 <= i < |arr| ensures Resized(arr[i], o.orderId, o.remaining) == arr[i] {
      if arr[i].orderId == o.orderId { SameIdSameOrder(arr, arr[i], o); }
    }
  }

  // ── Cancels ───────────────────────────────────────────────────────────

  // A cancel by the owner takes off exactly the order, on the book or waiting,
  // and reports what was left of it. Any other is refused and takes nothing.
  lemma CancelOutcome(st: EngineState, id: OrderId, user: UserId, ts: Micros)
    requires Sound(st)
    ensures var (st1, es) := CancelStep(st, id, user, ts);
      var held := HeldOrder(st, id);
      if held.Some? && held.value.userId == user then
        && es == [OrderCanceled(id, user, held.value.symbol, held.value.remaining, ts)]
        && (forall x :: x in st1.arr <==> x in st.arr && x.orderId != id)
        && (forall x :: x in st1.stops <==> x in st.stops && x.orderId != id)
      else
        && es == [OrderRejected(id, user, OrderNotFound, ts)]
        && (forall x :: x in st1.arr <==> x in st.arr) && (forall x :: x in st1.stops <==> x in st.stops)
  {
    KeepIn(st.arr, NotId(id));
    if HasId(st.arr, id) {
      var o := Lookup(st.arr, id).value;
      forall x | x in st.arr && x.orderId == id ensures x == o { SameIdSameOrder(st.arr, x, o); }
      forall x | x in st.stops ensures x.orderId != id {}
    } else {
      forall x | x in st.arr ensures x.orderId != id {
        var k :| 0 <= k < |st.arr| && st.arr[k] == x;
      }
      StopCancelOutcome(st, id);
    }
  }

  lemma StopCancelOutcome(st: EngineState, id: OrderId)
    requires Sound(st)
    ensures var i := IndexOf(st.stops, id);
      if i < |st.stops| then
        && Lookup(st.stops, id) == Some(st.stops[i])
        && (forall x :: x in st.stops[..i] + st.stops[i + 1..] <==> x in st.stops && x.orderId != id)
      else Lookup(st.stops, id).None? && forall x :: x in st.stops ==> x.orderId != id
  {
    var i := IndexOf(st.stops, id);
    if i < |st.stops| {
      LookupUnique(st.stops, st.stops[i]);
      var others := st.stops[..i] + st.stops[i + 1..];
      assert forall k :: 0 <= k < |others| ==> others[k] == st.stops[if k < i then k else k + 1];
      forall x | x in st.stops && x.orderId != id ensures x in others {
        var k :| 0 <= k < |st.stops| && st.stops[k] == x;
        assert others[if k < i then k else k - 1] == x;
      }
    }
  }

  // A cancel-all takes off every order the user has, on the book in any symbol
  // and waiting in the one named, and reports each with what was left of it.
  lemma CancelAllOutcome(st: EngineState, user: UserId, symbol: SymbolId, ts: Micros)
    requires Sound(st)
    ensures var (st1, es) := CancelAllStep(st, user, symbol, ts);
      && (forall x :: x in st1.arr <==> x in st.arr && x.userId != user)
      && (forall x :: x in st1.stops <==> x in st.stops && !(x.userId == user && x.symbol == symbol))
      && |es| == |st.arr| - |st1.arr| + (|st.stops| - |st1.stops|)
      && (forall e :: e in es ==> exists x :: (x in st.arr || x in st.stops) && x !in st1.arr && x !in st1.stops
                                    && e == OrderCanceled(x.orderId, user, symbol, x.remaining, ts))
      && (forall x :: (x in st.arr && x !in st1.arr) || (x in st.stops && x !in st1.stops) ==>
            OrderCanceled(x.orderId, user, symbol, x.remaining, ts) in es)
  {
    var test := OwnedBy(user, symbol);
    var (kept, taken) := Sweep(st.stops, 0, test);
    var mine := Keep(st.arr, OfUser(user));
    KeepIn(st.arr, OfUser(user));
    KeepIn(st.arr, NotUser(user));
    SweepMembers(st.stops, test);
    SweepSplits(st.stops, 0, test);
    PartsCount(st.arr, user);
    CountParts(st.stops, kept, taken);
    BookApart(st);
    hide Sweep, Apart, Distinct, Keep;
    forall x | x in taken ensures test.Picks(x) {}
    var all := mine + taken;
    var es := CanceledEvents(all, user, symbol, ts);
    forall e | e in es
      ensures exists x :: x in all && e == OrderCanceled(x.orderId, user, symbol, x.remaining, ts)
    {
      var k :| 0 <= k < |es| && es[k] == e;
      assert all[k] in all;
    }
    forall x | x in all ensures OrderCanceled(x.orderId, user, symbol, x.remaining, ts) in es {
      var k :| 0 <= k < |all| && all[k] == x;
      assert es[k] == CanceledEvent(x, user, symbol, ts);
    }
    forall x | x in all ensures (x in st.arr || x in st.stops) && x !in Keep(st.arr, NotUser(user)) && x !in kept {}
  }

  lemma BookApart(st: EngineState)
    requires Sound(st)
    ensures forall x :: x in st.arr ==> x !in st.stops
  {
    forall x | x in st.arr ensures x !in st.stops {
      var k :| 0 <= k < |st.arr| && st.arr[k] == x;
      assert HasId(st.arr, x.orderId);
    }
  }

  lemma {:induction false} PartsCount(arr: seq<Order>, user: UserId)
    ensures |Keep(arr, OfUser(user))| + |Keep(arr, NotUser(user))| == |arr|
  {
    if arr != [] { PartsCount(arr[1..], user); }
  }

  lemma CountParts(all: seq<Order>, kept: seq<Order>, taken: seq<Order>)
    requires multiset(kept) + multiset(taken) == multiset(all)
    ensures |kept| + |taken| == |all|
  {
    assert |multiset(kept)| == |kept| && |multiset(taken)| == |taken| && |multiset(all)| == |all|;
    assert |multiset(kept) + multiset(taken)| == |multiset(kept)| + |multiset(taken)|;
  }
}
