// The fills the engine reports come in equal and opposite pairs.
module FillFlows {
  import opened Common
  import opened Arrivals
  import opened OrderBooks
  import opened Matcher
  import opened MatchTheorems
  import opened EngineSpec
  import opened Triggers
  import opened EngineInvariants

  function SignedFill(e: Event, symbol: SymbolId): int {
    if e.OrderFilled? && e.symbol == symbol then (if e.side.Buy? then e.fillQty else -e.fillQty) else 0
  }

  // Quantity bought minus quantity sold in one symbol.
  function NetFill(events: seq<Event>, symbol: SymbolId): int {
    if events == [] then 0 else SignedFill(events[0], symbol) + NetFill(events[1..], symbol)
  }

  ghost predicate Balanced(events: seq<Event>) {
    && (forall s: SymbolId :: NetFill(events, s) == 0)
    && (forall e :: e in events && e.OrderFilled? ==> e.fillQty > 0)
    && (forall e :: e in events ==> !IsFact(e))
  }

  lemma {:induction false} NetConcat(a: seq<Event>, b: seq<Event>, symbol: SymbolId)
    ensures NetFill(a + b, symbol) == NetFill(a, symbol) + NetFill(b, symbol)
  {
    if a == [] {
      assert a + b == b;
    } else {
      assert (a + b)[1..] == a[1..] + b;
      NetConcat(a[1..], b, symbol);
    }
  }

  lemma BalancedConcat(a: seq<Event>, b: seq<Event>)
    requires Balanced(a) && Balanced(b)
    ensures Balanced(a + b)
  {
    forall s: SymbolId ensures NetFill(a + b, s) == 0 {
      NetConcat(a, b, s);
    }
  }

  lemma BalancedOther(events: seq<Event>)
    requires forall e :: e in events ==> !e.OrderFilled? && !IsFact(e)
    ensures Balanced(events)
  {
    forall s: SymbolId ensures NetFill(events, s) == 0 {
      NoFills(events, s);
    }
  }

  lemma {:induction false} NoFills(events: seq<Event>, symbol: SymbolId)
    requires forall e :: e in events ==> !e.OrderFilled?
    ensures NetFill(events, symbol) == 0
  {
    if events != [] {
      assert events[0] in events;
      NoFills(events[1..], symbol);
    }
  }

  lemma TradeBalanced(f: Fill, symbol: SymbolId, ts: Micros, makerLeft: int, takerLeft: int)
    requires f.qty > 0
    ensures Balanced(TradeEvents(f, symbol, ts, makerLeft, takerLeft))
  {
    var es := TradeEvents(f, symbol, ts, makerLeft, takerLeft);
    forall s: SymbolId ensures NetFill(es, s) == 0 {
      assert es[1..] == [es[1], es[2]] && es[1..][1..] == [es[2]] && es[1..][1..][1..] == [];
      assert NetFill(es[1..][1..], s) == 0;
      assert NetFill(es[1..], s) == SignedFill(es[1], s);
    }
  }

  lemma {:induction false} FillsBalanced(after: seq<Order>, fills: seq<Fill>, symbol: SymbolId, ts: Micros, left: int)
    requires forall k :: 0 <= k < |fills| ==> fills[k].qty > 0
    ensures Balanced(FillEvents(after, fills, symbol, ts, left))
  {
    if fills == [] {
      BalancedOther([]);
    } else {
      hide Balanced, TradeEvents;
      var f := fills[|fills| - 1];
      FillsBalanced(after, fills[..|fills| - 1], symbol, ts, left);
      TradeBalanced(f, symbol, ts, Left(Lookup(after, f.makerId)), left);
      BalancedConcat(FillEvents(after, fills[..|fills| - 1], symbol, ts, left),
                     TradeEvents(f, symbol, ts, Left(Lookup(after, f.makerId)), left));
    }
  }

  lemma MatchBalanced(arr: seq<Order>, t: Order, symbol: SymbolId, ts: Micros)
    requires Distinct(arr) && AllPositive(arr) && t.remaining >= 0
    ensures var m := Match(arr, t);
      Balanced(FillEvents(m.arr, m.fills, symbol, ts, m.taker.remaining))
  {
    hide Match, Balanced, Distinct, AllPositive;
    MatchKeeps(arr, t);
    var m := Match(arr, t);
    FillsBalanced(m.arr, m.fills, symbol, ts, m.taker.remaining);
  }

  lemma PlaceBalanced(st: EngineState, o: Order)
    requires Sound(st) && o.remaining > 0
    ensures Balanced(PlaceStep(st, o).1)
  {
    MatchBalanced(st.arr, o, o.symbol, o.timestamp);
    hide Match, Balanced, Distinct, AllPositive, AllLimit, Apart, FillEvents;
    var m := Match(st.arr, o);
    if m.rejected {
      BalancedOther(PlaceStep(st, o).1);
    } else {
      var fills := FillEvents(m.arr, m.fills, o.symbol, o.timestamp, m.taker.remaining);
      var left := Refill(m.taker, o.timestamp);
      var head, tail := [AcceptedEvent(o, o.symbol, o.timestamp)],
                        [CanceledEvent(left, o.userId, o.symbol, o.timestamp)];
      BalancedOther(head);
      BalancedOther(tail);
      BalancedConcat(head, fills);
      BalancedConcat(head + fills, tail);
    }
  }

  lemma AmendBalanced(st: EngineState, c: Command)
    requires Sound(st) && c.AmendOrder?
    ensures Balanced(AmendStep(st, c).1)
  {
    hide Match, Balanced, Distinct, AllPositive, AllLimit, Apart, FillEvents, Reprice;
    var found := Lookup(st.arr, c.orderId);
    if found.Some? && found.value.userId == c.userId &&
       ((c.newPrice.Some? && c.newPrice.value != found.value.price)
        || (c.newQuantity.Some? && c.newQuantity.value > found.value.remaining)) {
      RepriceBalanced(st, c, found.value);
    } else {
      BalancedOther(AmendStep(st, c).1);
    }
  }

  lemma RepriceBalanced(st: EngineState, c: Command, o: Order)
    requires Sound(st) && c.AmendOrder?
    ensures Balanced(Reprice(st, c, o).1)
  {
    SoundPart(st.arr, NotId(c.orderId));
    hide Match, Balanced, Distinct, AllPositive, AllLimit, Apart, FillEvents;
    var arr := Keep(st.arr, NotId(c.orderId));
    var price := if c.newPrice.Some? then c.newPrice.value else o.price;
    var qty := if c.newQuantity.Some? then c.newQuantity.value else o.remaining;
    var amended := o.(price := price, remaining := qty, original := qty, timestamp := c.timestamp);
    if qty <= 0 || price <= 0 || Match(arr, amended).rejected {
      BalancedOther(Reprice(st, c, o).1);
    } else {
      MatchBalanced(arr, amended, c.symbol, c.timestamp);
      var m := Match(arr, amended);
      var head := [CanceledEvent(o, c.userId, c.symbol, c.timestamp),
                   AcceptedEvent(m.taker, c.symbol, c.timestamp)];
      BalancedOther(head);
      BalancedConcat(head, FillEvents(m.arr, m.fills, c.symbol, c.timestamp, m.taker.remaining));
    }
  }

  lemma {:induction false} TriggerBalanced(arr: seq<Order>, taken: seq<Order>, ts: Micros)
    requires Distinct(arr) && AllPositive(arr) && AllLimit(arr) && Apart(taken, arr) && AllPositive(taken)
    ensures Balanced(TriggerAll(arr, taken, ts).1)
  {
    if taken == [] {
      BalancedOther([]);
    } else {
      var init, o := taken[..|taken| - 1], taken[|taken| - 1];
      InitApart(taken, arr);
      assert o in taken;
      TriggerBalanced(arr, init, ts);
      TriggerSound(arr, init, [], ts);
      hide Distinct, AllPositive, AllLimit, Balanced, Apart, TriggerOne;
      var mid := TriggerAll(arr, init, ts).0;
      TriggerOneBalanced(mid, o, ts);
      BalancedConcat(TriggerAll(arr, init, ts).1, TriggerOne(mid, o, ts).1);
    }
  }

  lemma TriggerOneBalanced(arr: seq<Order>, o: Order, ts: Micros)
    requires Distinct(arr) && AllPositive(arr) && o.remaining > 0
    ensures Balanced(TriggerOne(arr, o, ts).1)
  {
    hide Distinct, AllPositive, Balanced, Match, FillEvents;
    MatchBalanced(arr, Promote(o), Match(arr, Promote(o)).taker.symbol, ts);
    BalancedOther([]);
  }

  lemma MarkBalanced(st: EngineState, symbol: SymbolId, mark: int, index: int, ts: Micros)
    requires Sound(st)
    ensures Balanced(MarkStep(st, symbol, mark, index, ts).1)
  {
    PeaksSound(st, mark);
    var stops := PeakedAll(st.stops, mark);
    SweepSound(stops, st.arr, FiredBy(mark));
    hide Distinct, AllLimit, Sweep, TriggerAll, Apart, Balanced;
    var taken := Sweep(stops, 0, FiredBy(mark)).1;
    TriggerBalanced(st.arr, taken, ts);
    var head := [MarkPriceUpdate(symbol, mark, index, ts)];
    BalancedOther(head);
    BalancedConcat(head, TriggerAll(st.arr, taken, ts).1);
  }

  // Every command's events buy as much as they sell, fill only positive
  // quantities, and contain no clearing facts.
  lemma StepBalanced(cfg: EngineConfig, st: EngineState, c: Command)
    requires Sound(st) && FreshId(st, c) && cfg.lotSize > 0
    ensures Balanced(Step(cfg, st, c).1)
  {
    hide Balanced, PlaceStep, AmendStep, MarkStep;
    match c
    case NewOrder(_, _, _, _, _, _, _, _, _, _, _, _, _, _) =>
      var price := EffectivePrice(c.orderType, c.side, c.price);
      if c.quantity > 0 && !HasId(st.arr, c.orderId) && price.Some?
         && IcebergOk(cfg, c.orderType, c.visibleQuantity) && !c.orderType.IsConditional() {
        var o := BuildOrder(c, price.value, st.mark);
        VisibleIsPositive(cfg, c, o);
        PlaceBalanced(st, o);
      } else {
        BalancedOther(Step(cfg, st, c).1);
      }
    case CancelOrder(id, user, _, ts) => BalancedOther(Step(cfg, st, c).1);
    case AmendOrder(_, _, _, _, _, _) => AmendBalanced(st, c);
    case CancelAllOrders(user, symbol, ts) => BalancedOther(Step(cfg, st, c).1);
    case UpdateMarkPrice(symbol, mark, index, ts) => MarkBalanced(st, symbol, mark, index, ts);
    case ComputeFunding(symbol, ts) => BalancedOther(Step(cfg, st, c).1);
    case AdminCredit(_, _, _, _) => BalancedOther(Step(cfg, st, c).1);
  }
}
