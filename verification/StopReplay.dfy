// Stop orders and their peaks on replay, over any run: amends, icebergs,
// foreign cancels and stops that fire without trading included.
module StopReplay {
  import opened Common
  import opened Arrivals
  import opened Priority
  import opened OrderBooks
  import opened Matcher
  import opened MatchTheorems
  import opened Reach
  import opened EngineSpec
  import opened Triggers
  import opened EngineInvariants
  import opened TakerReplay
  import opened FiredReplay
  import opened EngineReplay

  // A stop order as its acceptance event describes it: whole, with its peak.
  function Logged(o: Order): Order {
    o.(remaining := if o.visibleQty.Some? then o.visibleQty.value else o.original,
       hiddenQty := if o.visibleQty.Some? then o.original - o.visibleQty.value else 0)
  }

  // Replay holds every stop order the live engine holds.
  ghost predicate HoldsStops(live: EngineState, rep: EngineState) {
    forall o :: o in live.stops ==> Logged(o) in rep.stops
  }

  // ── Which events take a stop order away ───────────────────────────────

  predicate Touches(e: Event, id: OrderId) {
    (e.OrderCanceled? || e.OrderFilled?) && e.orderId == id
  }

  ghost predicate Untouched(events: seq<Event>, id: OrderId) {
    forall e :: e in events ==> !Touches(e, id) && !e.MarkPriceUpdate?
  }

  lemma RemovedOther(stops: seq<Order>, i: nat, o: Order)
    requires i < |stops| && o in stops && stops[i].orderId != o.orderId
    ensures o in stops[..i] + stops[i + 1..] && o in SwapRemove(stops, i)
  {
    var k :| 0 <= k < |stops| && stops[k] == o;
    assert (stops[..i] + stops[i + 1..])[if k < i then k else k - 1] == o;
    assert SwapRemove(stops, i)[if k == |stops| - 1 then i else k] == o;
  }

  lemma EventKeepsStop(st: EngineState, e: Event, o: Order)
    requires o in st.stops && !Touches(e, o.orderId) && !e.MarkPriceUpdate? && ApplyEvent(st, e).Ok?
    ensures o in ApplyEvent(st, e).value.stops
  {
    hide SwapRemove, HasId, Lookup;
    if e.OrderCanceled? || e.OrderFilled? {
      var i := IndexOf(st.stops, e.orderId);
      if i < |st.stops| { RemovedOther(st.stops, i, o); }
    }
  }

  lemma {:induction false} EventsKeepStop(st: EngineState, events: seq<Event>, o: Order)
    requires o in st.stops && Untouched(events, o.orderId) && ReplayAll(st, events).Ok?
    ensures o in ReplayAll(st, events).value.stops
    decreases |events|
  {
    hide ApplyEvent;
    if events != [] {
      assert events[0] in events;
      EventKeepsStop(st, events[0], o);
      EventsKeepStop(ApplyEvent(st, events[0]).value, events[1..], o);
    }
  }

  // ── No event of a command names a stop order that survives it ─────────

  lemma UntouchedConcat(a: seq<Event>, b: seq<Event>, id: OrderId)
    requires Untouched(a, id) && Untouched(b, id)
    ensures Untouched(a + b, id)
  {
  }

  lemma {:induction false} FillsElsewhere(after: seq<Order>, fills: seq<Fill>, symbol: SymbolId, ts: Micros,
                                          left: int, id: OrderId)
    requires forall k :: 0 <= k < |fills| ==> fills[k].makerId != id && fills[k].takerId != id
    ensures Untouched(FillEvents(after, fills, symbol, ts, left), id)
  {
    if fills != [] {
      FillsElsewhere(after, fills[..|fills| - 1], symbol, ts, left, id);
    }
  }

  lemma {:induction false} WalkIds(makers: seq<Order>, t: Order, id: OrderId)
    requires !HasId(makers, id) && t.orderId != id
    ensures forall k :: 0 <= k < |Walk(makers, t)| ==>
      Walk(makers, t)[k].makerId != id && Walk(makers, t)[k].takerId != id
    decreases |makers|
  {
    if !Stops(makers, t) {
      HasIdTail(makers, id);
      WalkIds(makers[1..], Less(t, FillOf(makers[0], t).qty), id);
    }
  }

  lemma MatchElsewhere(arr: seq<Order>, t: Order, symbol: SymbolId, ts: Micros, id: OrderId)
    requires !HasId(arr, id) && t.orderId != id
    ensures var m := Match(arr, t);
      Untouched(FillEvents(m.arr, m.fills, symbol, ts, m.taker.remaining), id)
  {
    var makers := Queue(arr, t.side.Opposite());
    QueueSorted(arr, t.side.Opposite());
    NotInPart(arr, makers, id);
    WalkIds(makers, t, id);
    hide Queue, Walk, FillEvents, Untouched;
    var m := Match(arr, t);
    FillsElsewhere(m.arr, m.fills, symbol, ts, m.taker.remaining, id);
  }

  lemma PlaceElsewhere(st: EngineState, o: Order, id: OrderId)
    requires !HasId(st.arr, id) && o.orderId != id
    ensures Untouched(PlaceStep(st, o).1, id)
  {
    MatchElsewhere(st.arr, o, o.symbol, o.timestamp, id);
    TakerKept(st.arr, o);
    hide Match, FillEvents;
  }

  lemma AmendElsewhere(st: EngineState, c: Command, id: OrderId)
    requires c.AmendOrder? && !HasId(st.arr, id)
    ensures Untouched(AmendStep(st, c).1, id)
  {
    hide Match, FillEvents, Reprice, HasId;
    var found := Lookup(st.arr, c.orderId);
    if found.Some? {
      assert found.value.orderId != id by { NotSameId(st.arr, found.value, id); }
      RepriceElsewhere(st, c, found.value, id);
    }
  }

  lemma RepriceElsewhere(st: EngineState, c: Command, o: Order, id: OrderId)
    requires c.AmendOrder? && !HasId(st.arr, id) && o.orderId != id && c.orderId == o.orderId
    ensures Untouched(Reprice(st, c, o).1, id)
  {
    var arr := Keep(st.arr, NotId(c.orderId));
    KeepIn(st.arr, NotId(c.orderId));
    NotInPart(st.arr, arr, id);
    var price := if c.newPrice.Some? then c.newPrice.value else o.price;
    var qty := if c.newQuantity.Some? then c.newQuantity.value else o.remaining;
    var amended := o.(price := price, remaining := qty, original := qty, timestamp := c.timestamp);
    MatchElsewhere(arr, amended, c.symbol, c.timestamp, id);
    hide Match, FillEvents, HasId;
  }

  lemma {:induction false} TriggersElsewhere(arr: seq<Order>, taken: seq<Order>, ts: Micros, id: OrderId)
    requires !HasId(arr, id) && !HasId(taken, id)
    ensures Untouched(TriggerAll(arr, taken, ts).1, id) && !HasId(TriggerAll(arr, taken, ts).0, id)
  {
    if taken != [] {
      var init, o := taken[..|taken| - 1], taken[|taken| - 1];
      InitIds(taken, id);
      TriggersElsewhere(arr, init, ts, id);
      hide Untouched, HasId, TriggerOne;
      var mid := TriggerAll(arr, init, ts).0;
      TriggerOneIds(mid, o, ts, id);
      TriggerElsewhere(mid, o, ts, id);
      UntouchedConcat(TriggerAll(arr, init, ts).1, TriggerOne(mid, o, ts).1, id);
    }
  }

  lemma TriggerElsewhere(arr: seq<Order>, o: Order, ts: Micros, id: OrderId)
    requires !HasId(arr, id) && o.orderId != id
    ensures Untouched(TriggerOne(arr, o, ts).1, id)
  {
    MatchElsewhere(arr, Promote(o), Match(arr, Promote(o)).taker.symbol, ts, id);
    hide Match, FillEvents;
  }

  lemma CancelsElsewhere(orders: seq<Order>, user: UserId, symbol: SymbolId, ts: Micros, id: OrderId)
    requires !HasId(orders, id)
    ensures Untouched(CanceledEvents(orders, user, symbol, ts), id)
  {
  }

  // ── One command ───────────────────────────────────────────────────────

  // Every command but a mark and a new stop order: what survives was there
  // before, and no event names it.
  lemma SurvivorUntouched(cfg: EngineConfig, st: EngineState, c: Command, o: Order)
    requires Sound(st) && FreshId(st, c) && o in Step(cfg, st, c).0.stops && o in st.stops && !c.UpdateMarkPrice?
    ensures Untouched(Step(cfg, st, c).1, o.orderId)
  {
    var id := o.orderId;
    SoundParts(st);
    hide Sound, AmendStep, PlaceStep, Match, CancelStep, CancelAllStep;
    match c
    case NewOrder(_, _, _, _, _, _, _, _, _, _, _, _, _, _) =>
      NotSameId(st.stops, o, c.orderId);
      if c.quantity > 0 && EffectivePrice(c.orderType, c.side, c.price).Some?
         && IcebergOk(cfg, c.orderType, c.visibleQuantity) {
        PlaceElsewhere(st, BuildOrder(c, EffectivePrice(c.orderType, c.side, c.price).value, st.mark), id);
      }
    case CancelOrder(i, user, _, ts) => CancelElsewhere(st, i, user, ts, o);
    case AmendOrder(_, _, _, _, _, _) => AmendElsewhere(st, c, id);
    case CancelAllOrders(user, symbol, ts) => CancelAllElsewhere(st, user, symbol, ts, o);
    case ComputeFunding(_, _) =>
    case AdminCredit(_, _, _, _) =>
  }

  lemma CancelElsewhere(st: EngineState, id: OrderId, user: UserId, ts: Micros, o: Order)
    requires Apart(st.stops, st.arr) && o in st.stops && o in CancelStep(st, id, user, ts).0.stops
    ensures Untouched(CancelStep(st, id, user, ts).1, o.orderId)
  {
    if o.orderId == id {
      FoundAt(st.stops, o);
      var i := IndexOf(st.stops, id);
      var others := st.stops[..i] + st.stops[i + 1..];
      CutOut(st.stops, i);
      DistinctOnce(st.stops, o);
      assert multiset(others)[o] == multiset(st.stops)[o] - 1;
    }
  }

  lemma CancelAllElsewhere(st: EngineState, user: UserId, symbol: SymbolId, ts: Micros, o: Order)
    requires Apart(st.stops, st.arr) && o in CancelAllStep(st, user, symbol, ts).0.stops && o in st.stops
    ensures Untouched(CancelAllStep(st, user, symbol, ts).1, o.orderId)
  {
    var (kept, taken) := Sweep(st.stops, 0, OwnedBy(user, symbol));
    var mine := Keep(st.arr, OfUser(user));
    SweepSound(st.stops, st.arr, OwnedBy(user, symbol));
    KeepIn(st.arr, OfUser(user));
    NotInPart(st.arr, mine, o.orderId);
    hide Apart, Sweep;
    forall k | 0 <= k < |mine + taken| ensures (mine + taken)[k].orderId != o.orderId {
      if k >= |mine| {
        assert taken[k - |mine|] in taken;
        NotSameId(kept, o, taken[k - |mine|].orderId);
      }
    }
    CancelsElsewhere(mine + taken, user, symbol, ts, o.orderId);
  }

  // A stop order that was not there before the command is the command's own.
  lemma NewcomerAccepted(cfg: EngineConfig, st: EngineState, c: Command, o: Order)
    requires o in Step(cfg, st, c).0.stops && o !in st.stops && !c.UpdateMarkPrice?
    ensures Step(cfg, st, c).1 == [AcceptedEvent(o, o.symbol, o.timestamp)]
    ensures ReplayedOrder(AcceptedEvent(o, o.symbol, o.timestamp)) == Logged(o) && o.orderType.IsConditional()
  {
    hide Match;
    match c
    case NewOrder(_, _, _, _, _, _, _, _, _, _, _, _, _, _) =>
    case CancelOrder(id, user, _, ts) =>
    case AmendOrder(_, _, _, _, _, _) =>
    case CancelAllOrders(user, symbol, ts) => SweepMembers(st.stops, OwnedBy(user, symbol));
    case ComputeFunding(_, _) =>
    case AdminCredit(_, _, _, _) =>
  }

  lemma AcceptedHeld(rep: EngineState, o: Order)
    requires o.orderType.IsConditional() && ReplayedOrder(AcceptedEvent(o, o.symbol, o.timestamp)) == Logged(o)
    requires ReplayAll(rep, [AcceptedEvent(o, o.symbol, o.timestamp)]).Ok?
    ensures Logged(o) in ReplayAll(rep, [AcceptedEvent(o, o.symbol, o.timestamp)]).value.stops
  {
    ReplayOne(rep, AcceptedEvent(o, o.symbol, o.timestamp));
  }

  // A mark: the peak of a stop order that is not fired moves on both sides.
  lemma MarkHeld(live: EngineState, rep: EngineState, symbol: SymbolId, mark: int, index: int, ts: Micros, o: Order)
    requires Sound(live) && HoldsStops(live, rep) && o in MarkStep(live, symbol, mark, index, ts).0.stops
    requires ReplayAll(rep, MarkStep(live, symbol, mark, index, ts).1).Ok?
    ensures Logged(o) in ReplayAll(rep, MarkStep(live, symbol, mark, index, ts).1).value.stops
  {
    var stops := PeakedAll(live.stops, mark);
    var (kept, taken) := Sweep(stops, 0, FiredBy(mark));
    var events := TriggerAll(live.arr, taken, ts).1;
    PeaksSound(live, mark);
    SweepSound(stops, live.arr, FiredBy(mark));
    MarkOutcome(live, symbol, mark, index, ts);
    MarkReplays(rep, symbol, mark, index, ts);
    PeakHeld(live, rep, mark, index, o);
    KeptElsewhere(kept, taken, o);
    hide Sweep, HoldsStops, ReplayAll, PeakedAll, TriggerAll, MarkStep, Sound, Distinct, HasId;
    TriggersElsewhere(live.arr, taken, ts, o.orderId);
    ReplayConcat(rep, [MarkPriceUpdate(symbol, mark, index, ts)], events);
    EventsKeepStop(MarkPassive(rep, mark, index), events, Logged(o));
  }

  lemma KeptElsewhere(kept: seq<Order>, taken: seq<Order>, o: Order)
    requires o in kept && forall x :: x in taken ==> !HasId(kept, x.orderId)
    ensures !HasId(taken, o.orderId)
  {
    forall k | 0 <= k < |taken| ensures taken[k].orderId != o.orderId {
      assert taken[k] in taken;
      NotSameId(kept, o, taken[k].orderId);
    }
  }

  lemma PeakHeld(live: EngineState, rep: EngineState, mark: int, index: int, o: Order)
    requires HoldsStops(live, rep) && o in PeakedAll(live.stops, mark)
    ensures Logged(o) in MarkPassive(rep, mark, index).stops
  {
    var p := PeakedAll(live.stops, mark);
    var k :| 0 <= k < |p| && p[k] == o;
    assert live.stops[k] in live.stops;
    var i :| 0 <= i < |rep.stops| && rep.stops[i] == Logged(live.stops[k]);
    assert PeakedAll(rep.stops, mark)[i] == Logged(o);
  }

  lemma StepHolds(cfg: EngineConfig, live: EngineState, rep: EngineState, c: Command)
    requires Sound(live) && FreshId(live, c) && HoldsStops(live, rep) && ReplayAll(rep, Step(cfg, live, c).1).Ok?
    ensures HoldsStops(Step(cfg, live, c).0, ReplayAll(rep, Step(cfg, live, c).1).value)
  {
    hide Sound, FreshId, MarkStep;
    var (live1, events) := Step(cfg, live, c);
    forall o | o in live1.stops ensures Logged(o) in ReplayAll(rep, events).value.stops {
      hide Step, ReplayAll;
      if c.UpdateMarkPrice? {
        MarkIsStep(cfg, live, c);
        MarkHeld(live, rep, c.symbol, c.markPrice, c.indexPrice, c.timestamp, o);
      } else if o in live.stops {
        SurvivorUntouched(cfg, live, c, o);
        EventsKeepStop(rep, events, Logged(o));
      } else {
        NewcomerAccepted(cfg, live, c, o);
        AcceptedHeld(rep, o);
      }
    }
  }

  lemma MarkIsStep(cfg: EngineConfig, st: EngineState, c: Command)
    requires c.UpdateMarkPrice?
    ensures Step(cfg, st, c) == MarkStep(st, c.symbol, c.markPrice, c.indexPrice, c.timestamp)
  {
    hide MarkStep;
  }

  // ── Runs ──────────────────────────────────────────────────────────────

  lemma {:induction false} RunHolds(cfg: EngineConfig, live: EngineState, rep: EngineState, cmds: seq<Command>)
    requires Sound(live) && FreshRun(cfg, live, cmds) && HoldsStops(live, rep) && cfg.lotSize > 0
    requires ReplayAll(rep, Run(cfg, live, cmds).1).Ok?
    ensures HoldsStops(Run(cfg, live, cmds).0, ReplayAll(rep, Run(cfg, live, cmds).1).value)
    decreases |cmds|
  {
    hide Sound, Step, FreshId, HoldsStops, ApplyEvent;
    if cmds != [] {
      var (live1, events) := Step(cfg, live, cmds[0]);
      ReplayConcat(rep, events, Run(cfg, live1, cmds[1..]).1);
      StepHolds(cfg, live, rep, cmds[0]);
      StepSound(cfg, live, cmds[0]);
      RunHolds(cfg, live1, ReplayAll(rep, events).value, cmds[1..]);
    }
  }

  // From boot, for any run whose new orders take ids of no waiting stop: if the
  // log replays at all, every stop order still waiting waits again, with the
  // peak that the live engine tracked.
  lemma BootHoldsStops(cfg: EngineConfig, cmds: seq<Command>, o: Order)
    requires cfg.lotSize > 0 && FreshRun(cfg, EMPTY_ENGINE, cmds)
    requires o in Run(cfg, EMPTY_ENGINE, cmds).0.stops
    requires ReplayAll(EMPTY_ENGINE, Run(cfg, EMPTY_ENGINE, cmds).1).Ok?
    ensures var rep := ReplayAll(EMPTY_ENGINE, Run(cfg, EMPTY_ENGINE, cmds).1).value;
      Logged(o) in rep.stops && Logged(o).orderId == o.orderId && Logged(o).trailingPeak == o.trailingPeak
  {
    hide Run, ReplayAll, FreshRun;
    RunHolds(cfg, EMPTY_ENGINE, EMPTY_ENGINE, cmds);
  }

  // ── When the stop orders agree exactly ────────────────────────────────

  ghost predicate OnlyFills(events: seq<Event>) {
    forall e :: e in events ==> e.OrderFilled? || e.TradeExecuted?
  }

  // A fill event takes the stop order it names, and no other.
  lemma FillTakes(st: EngineState, e: Event)
    requires Apart(st.stops, st.arr) && (e.OrderFilled? || e.TradeExecuted?) && ApplyEvent(st, e).Ok?
    ensures var st1 := ApplyEvent(st, e).value;
      && Apart(st1.stops, st1.arr)
      && forall o :: o in st1.stops <==> o in st.stops && !Touches(e, o.orderId)
  {
    if e.OrderFilled? {
      var id := e.orderId;
      if HasId(st.arr, id) {
        FillOnBook(st, id, e.remainingQty);
      } else {
        var i := IndexOf(st.stops, id);
        if i < |st.stops| {
          FillOfStop(st, st.stops[i], e.remainingQty);
        } else {
          forall o | o in st.stops ensures o.orderId != id { NotSameId(st.stops, o, id); }
        }
      }
    }
  }

  lemma FillOnBook(st: EngineState, id: OrderId, left: int)
    requires Apart(st.stops, st.arr) && HasId(st.arr, id)
    ensures Apart(st.stops, Keep(st.arr, NotId(id))) && Apart(st.stops, SetQty(st.arr, id, left))
    ensures forall o :: o in st.stops ==> o.orderId != id
  {
    ApartPart(st.stops, st.arr, NotId(id));
    SetQtyAt(st.arr, id, left);
    var arr := SetQty(st.arr, id, left);
    forall o | o in st.stops ensures !HasId(arr, o.orderId) {
      forall k | 0 <= k < |arr| ensures arr[k].orderId != o.orderId {
        assert st.arr[k].orderId == arr[k].orderId;
      }
    }
  }

  lemma FillOfStop(st: EngineState, o: Order, left: int)
    requires Apart(st.stops, st.arr) && o in st.stops
    ensures var i := IndexOf(st.stops, o.orderId);
      && i < |st.stops| && st.stops[i] == o
      && Apart(SwapRemove(st.stops, i), st.arr)
      && Apart(SwapRemove(st.stops, i), st.arr + [Promote(o).(remaining := left)])
      && forall x :: x in SwapRemove(st.stops, i) <==> x in st.stops && x.orderId != o.orderId
  {
    FoundAt(st.stops, o);
    var i := IndexOf(st.stops, o.orderId);
    var rest := SwapRemove(st.stops, i);
    SwapRemoveDistinct(st.stops, i);
    PromoteKeeps(o);
    forall x | x in st.stops && x.orderId != o.orderId ensures x in rest { RemovedOther(st.stops, i, x); }
    forall x | x in rest ensures x.orderId != o.orderId { NotSameId(rest, x, o.orderId); }
    ApartSnoc(rest, st.arr, Promote(o).(remaining := left));
  }

  lemma {:induction false} FillsTake(st: EngineState, events: seq<Event>)
    requires Apart(st.stops, st.arr) && OnlyFills(events) && ReplayAll(st, events).Ok?
    ensures var st1 := ReplayAll(st, events).value;
      && Distinct(st1.stops)
      && forall o :: o in st1.stops <==> o in st.stops && Untouched(events, o.orderId)
    decreases |events|
  {
    if events != [] {
      var e := events[0];
      assert e in events && events == [e] + events[1..];
      FillTakes(st, e);
      hide Apart, Distinct, ApplyEvent;
      FillsTake(ApplyEvent(st, e).value, events[1..]);
    }
  }

  lemma {:induction false} FillEventsOnly(after: seq<Order>, fills: seq<Fill>, symbol: SymbolId, ts: Micros, left: int)
    ensures OnlyFills(FillEvents(after, fills, symbol, ts, left))
  {
    if fills != [] {
      FillEventsOnly(after, fills[..|fills| - 1], symbol, ts, left);
    }
  }

  lemma {:induction false} TriggerEventsOnly(arr: seq<Order>, taken: seq<Order>, ts: Micros)
    ensures OnlyFills(TriggerAll(arr, taken, ts).1)
  {
    hide Match, FillEvents;
    if taken != [] {
      var init := taken[..|taken| - 1];
      TriggerEventsOnly(arr, init, ts);
      var m := Match(TriggerAll(arr, init, ts).0, Promote(taken[|taken| - 1]));
      FillEventsOnly(m.arr, m.fills, m.taker.symbol, ts, m.taker.remaining);
    }
  }

  lemma SameMembers(a: seq<Order>, b: seq<Order>)
    requires Distinct(a) && Distinct(b) && forall o :: o in a <==> o in b
    ensures multiset(a) == multiset(b)
  {
    forall o ensures multiset(a)[o] == multiset(b)[o] {
      DistinctOnce(a, o);
      DistinctOnce(b, o);
      if o in a { assert o in b && o in multiset(b); }
      if o in b { assert o in a && o in multiset(a); }
    }
  }

  // ── Which fired stops the fills of a mark name ────────────────────────

  // Some fired stop, by the book that it finds at its turn, is the order and
  // trades, or takes from the order, which an earlier turn left resting.
  predicate Named(arr: seq<Order>, taken: seq<Order>, ts: Micros, id: OrderId) {
    taken != []
    && (Named(arr, taken[..|taken| - 1], ts, id)
        || (var book, t := TriggerAll(arr, taken[..|taken| - 1], ts).0, Promote(taken[|taken| - 1]);
            (t.orderId == id && Trades(book, t)) || TakesFrom(book, t, id)))
  }

  ghost predicate AnyTouches(events: seq<Event>, id: OrderId) {
    exists e :: e in events && Touches(e, id)
  }

  lemma TouchesConcat(a: seq<Event>, b: seq<Event>, id: OrderId)
    ensures AnyTouches(a + b, id) <==> AnyTouches(a, id) || AnyTouches(b, id)
  {
    if e :| e in a && Touches(e, id) { assert e in a + b; }
    if e :| e in b && Touches(e, id) { assert e in a + b; }
  }

  lemma TradeTouches(f: Fill, symbol: SymbolId, ts: Micros, makerLeft: int, left: int, id: OrderId)
    ensures AnyTouches(TradeEvents(f, symbol, ts, makerLeft, left), id) <==> f.makerId == id || f.takerId == id
  {
    var es := TradeEvents(f, symbol, ts, makerLeft, left);
    assert es[0] in es && es[1] in es;
  }

  // The events of a taker's fills name its makers, and it if there are any.
  lemma {:induction false} FillsTouch(after: seq<Order>, fills: seq<Fill>, symbol: SymbolId, ts: Micros, left: int,
                                      t: Order, id: OrderId)
    requires TakerOf(fills, t)
    ensures AnyTouches(FillEvents(after, fills, symbol, ts, left), id) <==>
      (fills != [] && t.orderId == id) || Mentions(fills, id)
  {
    if fills != [] {
      var n := |fills| - 1;
      var init, f := fills[..n], fills[n];
      assert forall k :: 0 <= k < n ==> init[k] == fills[k];
      FillsTouch(after, init, symbol, ts, left, t, id);
      var makerLeft := Left(Lookup(after, f.makerId));
      TradeTouches(f, symbol, ts, makerLeft, left, id);
      hide AnyTouches, TradeEvents;
      TouchesConcat(FillEvents(after, init, symbol, ts, left), TradeEvents(f, symbol, ts, makerLeft, left), id);
      MentionsLast(fills, id);
    }
  }

  lemma MentionsLast(fills: seq<Fill>, id: OrderId)
    requires fills != []
    ensures Mentions(fills, id) <==> Mentions(fills[..|fills| - 1], id) || fills[|fills| - 1].makerId == id
  {
    var init := fills[..|fills| - 1];
    if k :| 0 <= k < |init| && init[k].makerId == id { assert fills[k].makerId == id; }
    if k :| 0 <= k < |fills| && fills[k].makerId == id && k < |init| { assert init[k].makerId == id; }
  }

  lemma TriggerTouches(arr: seq<Order>, o: Order, ts: Micros, id: OrderId)
    requires Distinct(arr) && AllPositive(arr) && o.remaining > 0
    ensures var t := Promote(o);
      AnyTouches(TriggerOne(arr, o, ts).1, id) <==> (t.orderId == id && Trades(arr, t)) || TakesFrom(arr, t, id)
  {
    var t := Promote(o);
    var m := Match(arr, t);
    PromoteKeeps(o);
    NotTaken(arr, t);
    hide Match, Distinct, AllPositive, Promote, Fillable, ApplyFills, MayTake, AnyTouches, FillEvents;
    TradesIff(arr, t);
    MatchTakesFrom(arr, t, id);
    if m.rejected {
      NothingTouches(id);
      assert TriggerOne(arr, o, ts).1 == [];
      assert !Mentions(m.fills, id);
    } else {
      MatchAsFills(arr, t);
      FillsTouch(m.arr, m.fills, m.taker.symbol, ts, m.taker.remaining, t, id);
    }
  }

  lemma NothingTouches(id: OrderId)
    ensures !AnyTouches([], id)
  {
  }

  lemma {:induction false} TriggersTouch(arr: seq<Order>, taken: seq<Order>, ts: Micros, id: OrderId)
    requires Distinct(arr) && AllPositive(arr) && AllLimit(arr) && Apart(taken, arr) && AllPositive(taken)
    ensures AnyTouches(TriggerAll(arr, taken, ts).1, id) <==> Named(arr, taken, ts, id)
  {
    if taken == [] {
      NothingTouches(id);
    } else {
      var init, o := taken[..|taken| - 1], taken[|taken| - 1];
      InitApart(taken, arr);
      NoneApart(arr);
      assert o in taken;
      hide AnyTouches, TriggerOne, Trades, TakesFrom, AllLimit, Distinct, Apart;
      TriggersTouch(arr, init, ts, id);
      TriggerSound(arr, init, [], ts);
      var (book, events) := TriggerAll(arr, init, ts);
      TriggerTouches(book, o, ts, id);
      TouchesConcat(events, TriggerOne(book, o, ts).1, id);
    }
  }

  // ── The stop orders after a mark ──────────────────────────────────────

  // Whatever a mark fires, and if replay accepts it: both sides hold the same
  // stop orders exactly when each fired one trades at its turn, or rests and is
  // within reach of one that fires later.
  lemma MarkStopsAgree(live: EngineState, rep: EngineState, symbol: SymbolId, mark: int, index: int, ts: Micros)
    requires Sound(live) && rep.arr == live.arr && multiset(rep.stops) == multiset(live.stops)
    requires ReplayAll(rep, MarkStep(live, symbol, mark, index, ts).1).Ok?
    ensures var rep1 := ReplayAll(rep, MarkStep(live, symbol, mark, index, ts).1).value;
      multiset(rep1.stops) == multiset(MarkStep(live, symbol, mark, index, ts).0.stops) <==>
      forall o :: o in FiredStops(live, mark) ==> Named(live.arr, FiredStops(live, mark), ts, o.orderId)
  {
    hide *;
    var stops := PeakedAll(live.stops, mark);
    var (kept, taken) := Sweep(stops, 0, FiredBy(mark));
    var end := StopsAfter(live, rep, symbol, mark, index, ts);
    MarkOutcome(live, symbol, mark, index, ts);
    FiredAre(live, mark);
    if forall o :: o in taken ==> Named(live.arr, taken, ts, o.orderId) {
      SameMembers(end, kept);
    }
    if multiset(end) == multiset(kept) {
      MembersPermuted(end, kept);
    }
  }

  lemma FiredAre(live: EngineState, mark: int)
    ensures FiredStops(live, mark) == Sweep(PeakedAll(live.stops, mark), 0, FiredBy(mark)).1
  {
  }

  // After a mark, replay holds what live kept and the fired stops not named.
  lemma StopsAfter(live: EngineState, rep: EngineState, symbol: SymbolId, mark: int, index: int, ts: Micros)
    returns (end: seq<Order>)
    requires Sound(live) && rep.arr == live.arr && multiset(rep.stops) == multiset(live.stops)
    requires ReplayAll(rep, MarkStep(live, symbol, mark, index, ts).1).Ok?
    ensures end == ReplayAll(rep, MarkStep(live, symbol, mark, index, ts).1).value.stops
    ensures var (kept, taken) := Sweep(PeakedAll(live.stops, mark), 0, FiredBy(mark));
      && Distinct(kept) && Distinct(end)
      && (forall o :: o in kept ==> o in end) && (forall o :: o in end ==> o in kept || o in taken)
      && (forall o :: o in taken ==> o !in kept && (o in end <==> !Named(live.arr, taken, ts, o.orderId)))
  {
    var (kept, taken) := Sweep(PeakedAll(live.stops, mark), 0, FiredBy(mark));
    var events, passive := TriggerAll(live.arr, taken, ts).1, MarkPassive(rep, mark, index);
    MarkOutcome(live, symbol, mark, index, ts);
    MarkReplays(rep, symbol, mark, index, ts);
    TriggerEventsOnly(live.arr, taken, ts);
    ReplayConcat(rep, [MarkPriceUpdate(symbol, mark, index, ts)], events);
    PassiveParts(live, rep, mark, index);
    hide Sweep, TriggerAll, PeakedAll, Sound, Apart, Distinct, MarkStep, ReplayAll, HasId, Named;
    FillsTake(passive, events);
    end := ReplayAll(passive, events).value.stops;
    forall o | o in kept ensures o in end {
      KeptElsewhere(kept, taken, o);
      SoundMark(live, mark, o);
      TriggersElsewhere(live.arr, taken, ts, o.orderId);
    }
    forall o | o in taken ensures o !in kept && (o in end <==> !Named(live.arr, taken, ts, o.orderId)) {
      if o in kept { NotSameId(kept, o, o.orderId); }
      TriggersTouch(live.arr, taken, ts, o.orderId);
      assert forall e :: e in events ==> !e.MarkPriceUpdate?;
    }
  }

  // A mark that fires a single stop: exactly when that trades by the book as it
  // stands before the mark.
  lemma OneStopAgrees(live: EngineState, rep: EngineState, symbol: SymbolId, mark: int, index: int, ts: Micros,
                      o: Order)
    requires Sound(live) && rep.arr == live.arr && multiset(rep.stops) == multiset(live.stops)
    requires FiredStops(live, mark) == [o] && ReplayAll(rep, MarkStep(live, symbol, mark, index, ts).1).Ok?
    ensures var rep1 := ReplayAll(rep, MarkStep(live, symbol, mark, index, ts).1).value;
      multiset(rep1.stops) == multiset(MarkStep(live, symbol, mark, index, ts).0.stops)
      <==> Trades(live.arr, Promote(o))
  {
    MarkStopsAgree(live, rep, symbol, mark, index, ts);
    PeaksSound(live, mark);
    SweepSound(PeakedAll(live.stops, mark), live.arr, FiredBy(mark));
    assert [o][..0] == [] && o in [o];
    NotOnBook(live.arr, Promote(o), o.orderId);
    PromoteKeeps(o);
    NothingFired(live.arr, ts);
    hide Sound, MarkStep, ReplayAll, FiredStops, Trades, TakesFrom, TriggerAll, Sweep, PeakedAll, Promote, Apart;
    assert !Named(live.arr, [], ts, o.orderId);
    assert Named(live.arr, [o], ts, o.orderId) <==> Trades(live.arr, Promote(o));
  }

  lemma NothingFired(arr: seq<Order>, ts: Micros)
    ensures TriggerAll(arr, [], ts) == (arr, [])
  {
  }

  lemma NotOnBook(arr: seq<Order>, t: Order, id: OrderId)
    requires !HasId(arr, id)
    ensures !TakesFrom(arr, t, id)
  {
    var makers := Queue(arr, t.side.Opposite());
    QueueSorted(arr, t.side.Opposite());
    NotInPart(arr, makers, id);
  }

  // Both sides before the fired stops trade.
  lemma PassiveParts(live: EngineState, rep: EngineState, mark: int, index: int)
    requires Sound(live) && rep.arr == live.arr && multiset(rep.stops) == multiset(live.stops)
    ensures var stops, passive := PeakedAll(live.stops, mark), MarkPassive(rep, mark, index);
      var (kept, taken) := Sweep(stops, 0, FiredBy(mark));
      && Apart(passive.stops, passive.arr) && Distinct(kept)
      && (forall o :: o in passive.stops <==> o in kept || o in taken)
      && (forall o :: o in taken ==> !HasId(kept, o.orderId))
      && Distinct(live.arr) && AllPositive(live.arr) && AllLimit(live.arr)
      && Apart(taken, live.arr) && AllPositive(taken)
  {
    var stops, passive := PeakedAll(live.stops, mark), MarkPassive(rep, mark, index);
    PeaksSound(live, mark);
    PeakedPermuted(live.stops, rep.stops, mark);
    ApartPermuted(stops, passive.stops, live.arr);
    MembersPermuted(stops, passive.stops);
    SweepSound(stops, live.arr, FiredBy(mark));
    SweepMembers(stops, FiredBy(mark));
  }

  lemma SoundMark(live: EngineState, mark: int, o: Order)
    requires Sound(live) && o in Sweep(PeakedAll(live.stops, mark), 0, FiredBy(mark)).0
    ensures !HasId(live.arr, o.orderId)
  {
    PeaksSound(live, mark);
    SweepSound(PeakedAll(live.stops, mark), live.arr, FiredBy(mark));
  }
}
