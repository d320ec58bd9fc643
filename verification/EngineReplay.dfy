// Rebuilding the engine from its own log. The two agree on everything but the
// order of stop orders after a cancel-all and some expiry entries, whenever
// replay accepts the log at all.
module EngineReplay {
  import opened Common
  import opened Arrivals
  import opened Priority
  import opened OrderBooks
  import opened Matcher
  import opened MatchTheorems
  import opened Reach
  import opened EngineSpec
  import opened Triggers
  import opened EngineInvariants
  import opened TakerReplay
  import opened FiredReplay

  // ── Which runs, and when replay accepts them ──────────────────────────

  // The ids that new orders have taken, and those of stop orders with an expiry
  // time among them.
  datatype UsedIds = UsedIds(all: set<OrderId>, dated: set<OrderId>)

  const NO_IDS := UsedIds({}, {})

  function WithId(used: UsedIds, id: OrderId, dated: bool): UsedIds {
    UsedIds(used.all + {id}, if dated then used.dated + {id} else used.dated)
  }

  ghost predicate Lists(heap: multiset<(Micros, OrderId)>, id: OrderId) {
    exists x :: x in heap && x.1 == id
  }

  // Only expiry entries may be extra. They belong to orders no longer held, or
  // to dated stops: replay lists those when they are accepted, live never.
  ghost predicate HeapsMirror(live: EngineState, heap: multiset<(Micros, OrderId)>, seen: set<OrderId>, used: UsedIds) {
    && live.heap <= heap
    && (forall x :: x in heap - live.heap ==>
          (!HasId(live.arr, x.1) && !HasId(live.stops, x.1)) || x.1 in used.dated)
    && (forall x :: x in heap ==> x.1 in used.all)
    && used.dated <= used.all
    && (forall id :: id in used.dated && id in seen ==> Lists(heap, id) && !Lists(live.heap, id))
  }

  // Replay rebuilt the live state, up to the order of the stop orders.
  ghost predicate Mirrors(live: EngineState, rep: EngineState, used: UsedIds) {
    && rep.arr == live.arr && multiset(rep.stops) == multiset(live.stops)
    && rep.mark == live.mark && rep.index == live.index && rep.rate == live.rate
    && HeapsMirror(live, rep.heap, rep.seen, used)
    && (forall o :: o in live.arr || o in live.stops ==> o.orderId in rep.seen)
    && rep.seen <= used.all
  }

  ghost predicate Holds(st: EngineState, id: OrderId) {
    HasId(st.arr, id) || HasId(st.stops, id)
  }

  // The heaps agree on every order that is still held.
  ghost predicate ExpiryAgrees(live: EngineState, rep: EngineState) {
    forall x :: x in rep.heap - live.heap ==> !Holds(live, x.1)
  }

  lemma DatedIsExtra(live: EngineState, rep: EngineState, used: UsedIds, id: OrderId)
    requires Mirrors(live, rep, used) && id in used.dated && Holds(live, id)
    ensures exists x :: x in rep.heap - live.heap && x.1 == id
  {
    var held := if HasId(live.arr, id) then Lookup(live.arr, id).value else Lookup(live.stops, id).value;
    assert held in live.arr || held in live.stops;
    var x :| x in rep.heap && x.1 == id;
    assert !Lists(live.heap, id);
    assert x in rep.heap - live.heap;
  }

  // They do exactly when no dated stop is held, waiting or triggered.
  lemma ExpiryAgreesIff(live: EngineState, rep: EngineState, used: UsedIds)
    requires Mirrors(live, rep, used)
    ensures ExpiryAgrees(live, rep) <==> forall id :: id in used.dated ==> !Holds(live, id)
  {
    forall id | id in used.dated && Holds(live, id)
      ensures exists x :: x in rep.heap - live.heap && x.1 == id
    {
      DatedIsExtra(live, rep, used, id);
    }
  }

  // The stop orders a mark fires, in the order they are then matched.
  function FiredStops(st: EngineState, mark: int): seq<Order> {
    Sweep(PeakedAll(st.stops, mark), 0, FiredBy(mark)).1
  }

  // What its acceptance event says of an order's quantities is true.
  predicate Shown(c: Command)
    requires c.NewOrder?
  {
    c.visibleQuantity.Some? ==>
      if c.orderType.Iceberg? then c.visibleQuantity.value <= c.quantity else c.visibleQuantity.value == c.quantity
  }

  predicate Told(o: Order) {
    && o.remaining == (if o.visibleQty.Some? then o.visibleQty.value else o.original)
    && o.hiddenQty == (if o.visibleQty.Some? then o.original - o.visibleQty.value else 0)
    && o.expireTime == (if o.tif.Gtd? then Some(o.timestamp + DAY) else None)
  }

  // An iceberg whose whole visible slice is within reach shows its next one.
  predicate ShowsNext(st: EngineState, c: Command)
    requires c.NewOrder?
  {
    var price := EffectivePrice(c.orderType, c.side, c.price);
    c.orderType.Iceberg? && c.visibleQuantity.Some? && price.Some?
    && var o := BuildOrder(c, price.value, st.mark);
       o.hiddenQty != 0 && MayTake(st.arr, o) && ReachOf(st.arr, o) >= o.remaining
  }

  // The order as an amend matches it again, if it does.
  function Amended(st: EngineState, c: Command): Option<Order>
    requires c.AmendOrder?
  {
    var found := Lookup(st.arr, c.orderId);
    if found.None? || found.value.userId != c.userId then None
    else
      var o := found.value;
      var price := if c.newPrice.Some? then c.newPrice.value else o.price;
      var qty := if c.newQuantity.Some? then c.newQuantity.value else o.remaining;
      if (price != o.price || qty > o.remaining) && qty > 0 && price > 0 then
        Some(o.(price := price, remaining := qty, original := qty, timestamp := c.timestamp))
      else None
  }

  // An amend that shrinks its order or leaves it as it is.
  predicate AmendsInPlace(st: EngineState, c: Command)
    requires c.AmendOrder?
  {
    var found := Lookup(st.arr, c.orderId);
    found.Some? && found.value.userId == c.userId
    && (c.newPrice.Some? ==> c.newPrice.value == found.value.price)
    && (c.newQuantity.Some? ==>
          c.newQuantity.value == found.value.remaining || 0 < c.newQuantity.value < found.value.remaining)
  }

  // An order that replay puts back as it was: undated, in the engine's own
  // symbol, and with nothing hidden that its acceptance event does not tell.
  predicate ComesBack(o: Order, symbol: SymbolId) {
    Told(o) && !o.tif.Gtd? && o.symbol == symbol && !o.orderType.IsConditional()
  }

  // A command whose events replay reconstructs, or refuses. Left are: an iceberg
  // that shows its next slice, a visible quantity that hides nothing or is more
  // than there is, a wrong owner's cancel that moves an order to the back, an
  // amended order that does not come back, and a fired stop that does not trade.
  predicate Replayable(st: EngineState, used: UsedIds, c: Command) {
    match c
    case NewOrder(id, _, _, _, _, _, _, _, _, _, _, _, _, _) =>
      id !in used.all && Shown(c) && !ShowsNext(st, c)
    case CancelOrder(id, user, _, _) =>
      HasId(st.arr, id) && Lookup(st.arr, id).value.userId != user ==> st.arr[|st.arr| - 1].orderId == id
    case AmendOrder(id, _, symbol, _, _, _) =>
      Amended(st, c).Some? ==>
        ComesBack(Amended(st, c).value, symbol) || Match(Keep(st.arr, NotId(id)), Amended(st, c).value).rejected
    case CancelAllOrders(_, _, _) => true
    case UpdateMarkPrice(_, mark, _, ts) => AllFilled(st.arr, FiredStops(st, mark), ts)
    case ComputeFunding(_, _) => true
    case AdminCredit(_, _, _, _) => true
  }

  function Used(used: UsedIds, c: Command): UsedIds {
    if c.NewOrder? then WithId(used, c.orderId, c.orderType.IsConditional() && c.tif.Gtd?) else used
  }

  predicate Accepted(cfg: EngineConfig, st: EngineState, c: Command) {
    c.NewOrder? && c.quantity > 0 && !HasId(st.arr, c.orderId)
    && EffectivePrice(c.orderType, c.side, c.price).Some? && IcebergOk(cfg, c.orderType, c.visibleQuantity)
    && !c.orderType.IsConditional()
  }

  // The exact condition under which replay accepts a command's events. An amend
  // in place is logged as the acceptance of an order that is there already.
  predicate TakersFit(cfg: EngineConfig, st: EngineState, c: Command) {
    if c.UpdateMarkPrice? then AllPass(st.arr, FiredStops(st, c.markPrice), c.timestamp)
    else if c.AmendOrder? then
      !AmendsInPlace(st, c)
      && (Amended(st, c).Some? ==>
            var m := Match(Keep(st.arr, NotId(c.orderId)), Amended(st, c).value);
            m.rejected || LegsFit(m.fills, m.taker.remaining))
    else Accepted(cfg, st, c) ==>
      var m := Match(st.arr, BuildOrder(c, EffectivePrice(c.orderType, c.side, c.price).value, st.mark));
      m.rejected || LegsFit(m.fills, m.taker.remaining)
  }

  // Replay takes canceled stops out in place, a live cancel-all does not; and a
  // cancel by the wrong owner moves a live stop to the back.
  predicate KeepsStopOrder(st: EngineState, c: Command) {
    match c
    case CancelAllOrders(user, symbol, _) => forall o | o in st.stops :: !OwnedBy(user, symbol).Picks(o)
    case CancelOrder(id, user, _, _) =>
      !HasId(st.arr, id) && IndexOf(st.stops, id) < |st.stops| ==> st.stops[IndexOf(st.stops, id)].userId == user
    case _ => true
  }

  ghost predicate ReplayableRun(cfg: EngineConfig, st: EngineState, used: UsedIds, cmds: seq<Command>)
    decreases |cmds|
  {
    cmds == [] ||
    (Replayable(st, used, cmds[0]) &&
     ReplayableRun(cfg, Step(cfg, st, cmds[0]).0, Used(used, cmds[0]), cmds[1..]))
  }

  ghost predicate AllTakersFit(cfg: EngineConfig, st: EngineState, cmds: seq<Command>)
    decreases |cmds|
  {
    cmds == [] || (TakersFit(cfg, st, cmds[0]) && AllTakersFit(cfg, Step(cfg, st, cmds[0]).0, cmds[1..]))
  }

  ghost predicate AllKeepStopOrder(cfg: EngineConfig, st: EngineState, cmds: seq<Command>)
    decreases |cmds|
  {
    cmds == [] || (KeepsStopOrder(st, cmds[0]) && AllKeepStopOrder(cfg, Step(cfg, st, cmds[0]).0, cmds[1..]))
  }

  function AllUsed(used: UsedIds, cmds: seq<Command>): UsedIds
    decreases |cmds|
  {
    if cmds == [] then used else AllUsed(Used(used, cmds[0]), cmds[1..])
  }

  // ── One command ───────────────────────────────────────────────────────

  // An order that its acceptance event tells in full.
  ghost predicate Plain(o: Order) {
    Told(o) && o.remaining > 0 && !o.orderType.IsConditional()
  }

  ghost predicate NoRefill(arr: seq<Order>, o: Order) {
    Refill(Match(arr, o).taker, o.timestamp) == Match(arr, o).taker
  }

  lemma KeepsSlice(arr: seq<Order>, o: Order)
    requires AllPositive(arr) && o.remaining > 0
    requires o.orderType.Iceberg? && o.hiddenQty != 0 ==> !(MayTake(arr, o) && ReachOf(arr, o) >= o.remaining)
    ensures !Match(arr, o).rejected ==> NoRefill(arr, o)
  {
    MayTakeIff(arr, o);
    TakerKept(arr, o);
    if MayTake(arr, o) { FilledByReach(arr, o); }
    assert o.tif.PostOnly? ==> Match(arr, o).taker == o;
    hide Match, MayTake, ReachOf;
  }

  lemma PlaceReplays(st: EngineState, rep: EngineState, o: Order)
    requires Sound(st) && Plain(o) && !HasId(st.arr, o.orderId) && !HasId(rep.stops, o.orderId)
    requires rep.arr == st.arr && !Match(st.arr, o).rejected && NoRefill(st.arr, o)
    ensures var m := Match(st.arr, o);
      var r := ReplayAll(rep, PlaceStep(st, o).1);
      if LegsFit(m.fills, m.taker.remaining)
      then r == Ok(rep.(arr := PlaceStep(st, o).0.arr, seen := rep.seen + {o.orderId},
                        heap := if o.tif.Gtd? then rep.heap + multiset{(o.timestamp + DAY, o.orderId)}
                                else rep.heap))
      else r.Err?
  {
    var m := Match(st.arr, o);
    var left := m.taker.remaining;
    var accepted := AcceptedEvent(o, o.symbol, o.timestamp);
    var fills := FillEvents(m.arr, m.fills, o.symbol, o.timestamp, left);
    var tail := if left != 0 && !Rests(m.taker)
                then [CanceledEvent(m.taker, o.userId, o.symbol, o.timestamp)] else [];
    PlainPlaced(st, o);
    assert PlaceStep(st, o).1 == [accepted] + (fills + tail);
    var rep1 := rep.(arr := st.arr + [o], seen := rep.seen + {o.orderId},
                     heap := if o.tif.Gtd? then rep.heap + multiset{(o.timestamp + DAY, o.orderId)}
                             else rep.heap);
    AcceptedReplays(rep, o);
    SoundParts(st);
    hide Match, ApplyEvent, Distinct, AllPositive, AllLimit, Apart, Fillable, LegsFit, FillEvents, ReplayAll,
         PlaceStep, MakersLogged, ApplyFills, ReplayedOrder, AcceptedEvent, Sound, Rests, TakerOf;
    MatchAsFills(st.arr, o);
    MatchIds(st.arr, o, o.orderId);
    FinalMakers(st.arr, m.fills);
    ReplayFills(rep1, st.arr, o, m.fills, m.arr, o.symbol, o.timestamp, left);
    ReplayConcat(rep, [accepted], fills + tail);
    ReplayConcat(rep1, fills, tail);
    if LegsFit(m.fills, left) {
      LeftoverReplays(rep1, m.arr, o, m.taker, |m.fills|, tail);
    }
  }

  lemma SoundParts(st: EngineState)
    requires Sound(st)
    ensures Distinct(st.arr) && AllPositive(st.arr) && Apart(st.stops, st.arr)
  {
  }

  lemma AcceptedReplays(rep: EngineState, o: Order)
    requires Plain(o) && !HasId(rep.arr, o.orderId)
    ensures ReplayAll(rep, [AcceptedEvent(o, o.symbol, o.timestamp)])
         == Ok(rep.(arr := rep.arr + [o], seen := rep.seen + {o.orderId},
                    heap := if o.tif.Gtd? then rep.heap + multiset{(o.timestamp + DAY, o.orderId)}
                            else rep.heap))
  {
    var accepted := AcceptedEvent(o, o.symbol, o.timestamp);
    assert ReplayedOrder(accepted) == o;
    ReplayOne(rep, accepted);
  }

  // Without a refill, what rests is the taker itself.
  lemma PlainPlaced(st: EngineState, o: Order)
    requires Plain(o) && !Match(st.arr, o).rejected && NoRefill(st.arr, o)
    ensures var m := Match(st.arr, o);
      && PlaceStep(st, o).0.arr == m.arr + (if Rests(m.taker) then [m.taker] else [])
      && PlaceStep(st, o).1 == [AcceptedEvent(o, o.symbol, o.timestamp)]
           + (FillEvents(m.arr, m.fills, o.symbol, o.timestamp, m.taker.remaining)
              + (if m.taker.remaining != 0 && !Rests(m.taker)
                 then [CanceledEvent(m.taker, o.userId, o.symbol, o.timestamp)] else []))
      && PlaceStep(st, o).0.heap == (if Rests(m.taker) && o.tif.Gtd?
           then st.heap + multiset{(o.timestamp + DAY, o.orderId)} else st.heap)
      && PlaceStep(st, o).0.stops == st.stops && PlaceStep(st, o).0.mark == st.mark
      && PlaceStep(st, o).0.index == st.index && PlaceStep(st, o).0.rate == st.rate
  {
    var m := Match(st.arr, o);
    TakerKept(st.arr, o);
    hide Match, FillEvents, Refill;
    assert m.arr + [] == m.arr;
    var fills := FillEvents(m.arr, m.fills, o.symbol, o.timestamp, m.taker.remaining);
    assert fills + [] == fills;
  }

  lemma LeftoverReplays(rep: EngineState, arr: seq<Order>, o: Order, taker: Order, n: nat, tail: seq<Event>)
    requires !HasId(arr, o.orderId) && taker == o.(remaining := taker.remaining) && taker.remaining >= 0
    requires n == 0 ==> taker.remaining == o.remaining > 0
    requires tail == if taker.remaining != 0 && !Rests(taker)
                     then [CanceledEvent(taker, o.userId, o.symbol, o.timestamp)] else []
    ensures ReplayAll(rep.(arr := arr + TakerTail(o, taker.remaining, n)), tail)
         == Ok(rep.(arr := arr + (if Rests(taker) then [taker] else [])))
  {
    var st := rep.(arr := arr + TakerTail(o, taker.remaining, n));
    if taker.remaining != 0 {
      assert TakerTail(o, taker.remaining, n) == [taker];
      if !Rests(taker) {
        ReplayOne(st, tail[0]);
        LastChanged(arr, taker, 0);
        assert HasId(st.arr, o.orderId) by { assert st.arr[|arr|] == taker; }
        assert arr + [] == arr;
      }
    }
  }

  // Replaying a cancel-all one order at a time.
  lemma {:induction false} CancelsReplay(st: EngineState, user: UserId, symbol: SymbolId, ts: Micros)
    requires Distinct(st.arr)
    ensures ReplayAll(st, CanceledEvents(Keep(st.arr, OfUser(user)), user, symbol, ts))
         == Ok(st.(arr := Keep(st.arr, NotUser(user))))
    decreases |Keep(st.arr, OfUser(user))|
  {
    hide Distinct, Keep;
    var all := Keep(st.arr, OfUser(user));
    var es := CanceledEvents(all, user, symbol, ts);
    if all == [] {
      NoneOfUser(st.arr, user);
    } else {
      var id := all[0].orderId;
      assert all[0..] == all;
      CancelOneOf(st.arr, user, all, 0);
      KeepDistinct(st.arr, NotId(id));
      var st1 := st.(arr := Keep(st.arr, NotId(id)));
      CancelsReplay(st1, user, symbol, ts);
      assert es[0] == CanceledEvent(all[0], user, symbol, ts);
      assert es[1..] == CanceledEvents(all[1..], user, symbol, ts);
      LookupUnique(st.arr, all[0]);
      assert ApplyEvent(st, es[0]) == Ok(st1);
    }
  }

  lemma UsedGrows(live: EngineState, rep: EngineState, used: UsedIds, c: Command)
    requires Mirrors(live, rep, used) && (c.NewOrder? ==> c.orderId !in used.all)
    ensures Mirrors(live, rep, Used(used, c))
  {
  }

  lemma FreshEverywhere(live: EngineState, rep: EngineState, used: UsedIds, id: OrderId)
    requires Mirrors(live, rep, used) && id !in used.all
    ensures !HasId(live.arr, id) && !HasId(live.stops, id) && !HasId(rep.stops, id)
  {
    forall k | 0 <= k < |live.arr| ensures live.arr[k].orderId != id { assert live.arr[k] in live.arr; }
    forall k | 0 <= k < |live.stops| ensures live.stops[k].orderId != id { assert live.stops[k] in live.stops; }
    IdsPermuted(live.stops, rep.stops, id);
  }

  lemma NewOrderMirrors(cfg: EngineConfig, live: EngineState, rep: EngineState, used: UsedIds, c: Command)
    requires Sound(live) && Mirrors(live, rep, used) && Replayable(live, used, c) && c.NewOrder?
    requires c.orderType.Iceberg? ==> cfg.lotSize > 0
    ensures var r := ReplayAll(rep, NewOrderStep(cfg, live, c).1);
      if TakersFit(cfg, live, c)
      then r.Ok? && Mirrors(NewOrderStep(cfg, live, c).0, r.value, Used(used, c))
           && (rep.stops == live.stops ==> r.value.stops == NewOrderStep(cfg, live, c).0.stops)
      else r.Err?
  {
    FreshEverywhere(live, rep, used, c.orderId);
    var price := EffectivePrice(c.orderType, c.side, c.price);
    hide Match, Sound, Mirrors, PlaceStep, HasId, LegsFit;
    if c.quantity <= 0 || price.None? || !IcebergOk(cfg, c.orderType, c.visibleQuantity) {
      UsedGrows(live, rep, used, c);
      ReplayOne(rep, NewOrderStep(cfg, live, c).1[0]);
    } else {
      var o := BuildOrder(c, price.value, live.mark);
      BuiltTold(cfg, live, c, o);
      if c.orderType.IsConditional() {
        ReplayOne(rep, AcceptedEvent(o, c.symbol, c.timestamp));
        StopMirrors(live, rep, used, o);
      } else if Match(live.arr, o).rejected {
        UsedGrows(live, rep, used, c);
        RejectedUnchanged(live.arr, o);
        RejectedReplays(live, rep, o);
      } else {
        Mirrored(live, rep, used);
        PlainPlaced(live, o);
        PlaceReplays(live, rep, o);
        if LegsFit(Match(live.arr, o).fills, Match(live.arr, o).taker.remaining) {
          PlaceMirrors(live, rep, used, o);
        }
      }
    }
  }

  lemma BuiltTold(cfg: EngineConfig, live: EngineState, c: Command, o: Order)
    requires Sound(live) && c.NewOrder? && Shown(c) && !ShowsNext(live, c) && c.quantity > 0
    requires IcebergOk(cfg, c.orderType, c.visibleQuantity) && (c.orderType.Iceberg? ==> cfg.lotSize > 0)
    requires EffectivePrice(c.orderType, c.side, c.price).Some?
    requires o == BuildOrder(c, EffectivePrice(c.orderType, c.side, c.price).value, live.mark)
    ensures Told(o) && o.remaining > 0 && (!Match(live.arr, o).rejected ==> NoRefill(live.arr, o))
  {
    if c.orderType.Iceberg? { VisibleIsPositive(cfg, c, o); }
    hide Match, MayTake, ReachOf;
    KeepsSlice(live.arr, o);
  }

  lemma Mirrored(live: EngineState, rep: EngineState, used: UsedIds)
    requires Mirrors(live, rep, used)
    ensures rep.arr == live.arr && multiset(rep.stops) == multiset(live.stops)
    ensures HeapsMirror(live, rep.heap, rep.seen, used)
  {
  }

  lemma RejectedUnchanged(arr: seq<Order>, o: Order)
    requires Match(arr, o).rejected
    ensures Match(arr, o).arr == arr
  {
  }

  lemma RejectedReplays(live: EngineState, rep: EngineState, o: Order)
    requires Match(live.arr, o).rejected && Match(live.arr, o).arr == live.arr
    ensures PlaceStep(live, o).0 == live && ReplayAll(rep, PlaceStep(live, o).1) == Ok(rep)
  {
    hide Match;
    ReplayOne(rep, PlaceStep(live, o).1[0]);
  }

  lemma StopMirrors(live: EngineState, rep: EngineState, used: UsedIds, o: Order)
    requires Mirrors(live, rep, used) && o.orderId !in used.all && !HasId(live.arr, o.orderId)
    requires o.orderType.IsConditional() && Told(o)
    ensures var r := ApplyEvent(rep, AcceptedEvent(o, o.symbol, o.timestamp));
      && r.Ok? && Mirrors(live.(stops := live.stops + [o]), r.value, WithId(used, o.orderId, o.tif.Gtd?))
      && (rep.stops == live.stops ==> r.value.stops == live.stops + [o])
  {
    assert ReplayedOrder(AcceptedEvent(o, o.symbol, o.timestamp)) == o;
    var live1 := live.(stops := live.stops + [o]);
    SnocIds(live.stops, o);
    HeapKept(live, rep.heap, rep.seen, used, live1, o.orderId);
    HeapGrows(live, rep.heap, rep.seen, used, live1, (o.timestamp + DAY, o.orderId), true);
  }

  lemma SnocIds(stops: seq<Order>, o: Order)
    ensures forall x: OrderId :: !HasId(stops, x) && x != o.orderId ==> !HasId(stops + [o], x)
  {
  }

  // No id but the new one is held after the step and not before.
  ghost predicate OnlyGains(live: EngineState, live1: EngineState, id: OrderId) {
    && (forall x: OrderId :: !HasId(live.arr, x) && x != id ==> !HasId(live1.arr, x))
    && (forall x: OrderId :: !HasId(live.stops, x) && x != id ==> !HasId(live1.stops, x))
  }

  // Heaps still mirror when neither changes, and when replay lists the new id.
  lemma HeapKept(live: EngineState, heap: multiset<(Micros, OrderId)>, seen: set<OrderId>, used: UsedIds,
                 live1: EngineState, id: OrderId)
    requires HeapsMirror(live, heap, seen, used) && id !in used.all && live1.heap == live.heap
    requires OnlyGains(live, live1, id)
    ensures HeapsMirror(live1, heap, seen + {id}, WithId(used, id, false))
  {
    hide HasId, Lists;
    forall x | x in heap - live.heap
      ensures (!HasId(live1.arr, x.1) && !HasId(live1.stops, x.1)) || x.1 in used.dated
    {
      assert x in heap && x.1 != id;
    }
  }

  lemma HeapGrows(live: EngineState, heap: multiset<(Micros, OrderId)>, seen: set<OrderId>, used: UsedIds,
                  live1: EngineState, y: (Micros, OrderId), dated: bool)
    requires HeapsMirror(live, heap, seen, used) && y.1 !in used.all && OnlyGains(live, live1, y.1)
    requires live1.heap == live.heap || (live1.heap == live.heap + multiset{y} && !dated)
    requires dated || live1.heap != live.heap || (!HasId(live1.arr, y.1) && !HasId(live1.stops, y.1))
    ensures HeapsMirror(live1, heap + multiset{y}, seen + {y.1}, WithId(used, y.1, dated))
  {
    hide HasId;
    HeapsGain(live.heap, heap, y);
    ListsGain(live, heap, seen, used, live1, y, dated);
    hide Lists;
    forall x | x in heap + multiset{y} - live1.heap
      ensures (!HasId(live1.arr, x.1) && !HasId(live1.stops, x.1)) || x.1 in WithId(used, y.1, dated).dated
    {
      if x in heap - live.heap {
        assert x in heap && x.1 != y.1;
      } else {
        assert x == y && live1.heap == live.heap;
      }
    }
  }

  lemma ListsGain(live: EngineState, heap: multiset<(Micros, OrderId)>, seen: set<OrderId>, used: UsedIds,
                  live1: EngineState, y: (Micros, OrderId), dated: bool)
    requires HeapsMirror(live, heap, seen, used) && y.1 !in used.all
    requires live1.heap == live.heap || (live1.heap == live.heap + multiset{y} && !dated)
    ensures forall id :: id in WithId(used, y.1, dated).dated && id in seen + {y.1} ==>
      Lists(heap + multiset{y}, id) && !Lists(live1.heap, id)
  {
    hide HasId;
    forall id | id in WithId(used, y.1, dated).dated && id in seen + {y.1}
      ensures Lists(heap + multiset{y}, id) && !Lists(live1.heap, id)
    {
      if id == y.1 {
        assert y in heap + multiset{y};
        assert forall x :: x in live.heap ==> x in heap;
      } else {
        var x :| x in heap && x.1 == id;
        assert x in heap + multiset{y};
        assert forall z :: z in live1.heap ==> z in live.heap || z == y;
      }
    }
  }

  lemma HeapsGain(live: multiset<(Micros, OrderId)>, heap: multiset<(Micros, OrderId)>, x: (Micros, OrderId))
    requires live <= heap
    ensures live + multiset{x} <= heap + multiset{x} && live <= heap + multiset{x}
    ensures (heap + multiset{x}) - (live + multiset{x}) == heap - live
    ensures (heap + multiset{x}) - live == (heap - live) + multiset{x}
  {
  }

  lemma PlaceMirrors(live: EngineState, rep: EngineState, used: UsedIds, o: Order)
    requires Sound(live) && Mirrors(live, rep, used) && o.orderId !in used.all
    requires Plain(o) && !Match(live.arr, o).rejected && NoRefill(live.arr, o) && !HasId(live.arr, o.orderId)
    ensures Mirrors(PlaceStep(live, o).0,
                    rep.(arr := PlaceStep(live, o).0.arr, seen := rep.seen + {o.orderId},
                         heap := if o.tif.Gtd? then rep.heap + multiset{(o.timestamp + DAY, o.orderId)}
                                 else rep.heap),
                    WithId(used, o.orderId, false))
  {
    PlainPlaced(live, o);
    PlacedIds(live, o);
    PlacedSeen(live, rep, used, o);
    FreshEverywhere(live, rep, used, o.orderId);
    hide Match, PlaceStep, Sound, Distinct, AllPositive, HasId, HeapsMirror;
    var live1 := PlaceStep(live, o).0;
    if o.tif.Gtd? {
      HeapGrows(live, rep.heap, rep.seen, used, live1, (o.timestamp + DAY, o.orderId), false);
    } else {
      HeapKept(live, rep.heap, rep.seen, used, live1, o.orderId);
    }
  }

  // Placing adds no id but the order's own, and not even that if it does not rest.
  lemma PlacedIds(st: EngineState, o: Order)
    requires Plain(o) && !Match(st.arr, o).rejected && NoRefill(st.arr, o) && !HasId(st.arr, o.orderId)
    ensures var arr' := PlaceStep(st, o).0.arr;
      forall x: OrderId :: !HasId(st.arr, x) && (x != o.orderId || !Rests(Match(st.arr, o).taker)) ==> !HasId(arr', x)
  {
    var m := Match(st.arr, o);
    var arr' := PlaceStep(st, o).0.arr;
    PlainPlaced(st, o);
    TakerKept(st.arr, o);
    hide Match, PlaceStep;
    forall x: OrderId | !HasId(st.arr, x) && (x != o.orderId || !Rests(m.taker)) ensures !HasId(arr', x) {
      MatchIds(st.arr, o, x);
      forall k | 0 <= k < |arr'| ensures arr'[k].orderId != x {
        if k < |m.arr| { assert m.arr[k].orderId != x; }
      }
    }
  }

  lemma PlacedSeen(st: EngineState, rep: EngineState, used: UsedIds, o: Order)
    requires Sound(st) && Mirrors(st, rep, used) && Plain(o) && !Match(st.arr, o).rejected && NoRefill(st.arr, o)
    ensures forall x :: x in PlaceStep(st, o).0.arr ==> x.orderId in rep.seen + {o.orderId}
  {
    var m := Match(st.arr, o);
    PlainPlaced(st, o);
    TakerKept(st.arr, o);
    MatchKeeps(st.arr, o);
    hide Match, PlaceStep, Sound, Distinct, AllPositive;
    forall x | x in PlaceStep(st, o).0.arr ensures x.orderId in rep.seen + {o.orderId} {
      if x in m.arr {
        assert ComesFrom(x, st.arr);
        var y :| y in st.arr && SameButQty(x, y);
      }
    }
  }

  // One command: replay accepts its events iff the legs of every taker fit and
  // it amends nothing in place, and then mirrors the live state again, stop
  // orders in the same order unless a cancel moved some.
  lemma StepMirrors(cfg: EngineConfig, live: EngineState, rep: EngineState, used: UsedIds, c: Command)
    requires Sound(live) && Mirrors(live, rep, used) && Replayable(live, used, c)
    requires c.NewOrder? && c.orderType.Iceberg? ==> cfg.lotSize > 0
    ensures var r := ReplayAll(rep, Step(cfg, live, c).1);
      if TakersFit(cfg, live, c)
      then r.Ok? && Mirrors(Step(cfg, live, c).0, r.value, Used(used, c))
           && (rep.stops == live.stops && KeepsStopOrder(live, c) ==> r.value.stops == Step(cfg, live, c).0.stops)
      else r.Err?
  {
    hide NewOrderStep, MarkStep, CancelAllStep, CancelStep, AmendStep, Mirrors, Sound, AllFilled, AllPass, HasId,
         Match, Amended, AmendsInPlace, ComesBack;
    match c
    case NewOrder(_, _, _, _, _, _, _, _, _, _, _, _, _, _) => NewOrderMirrors(cfg, live, rep, used, c);
    case CancelOrder(id, user, _, ts) =>
      OneEvent(live, id, user, ts);
      ReplayOne(rep, CancelStep(live, id, user, ts).1[0]);
      CancelMirrors(live, rep, used, id, user, ts);
    case AmendOrder(_, _, _, _, _, _) => AmendMirrors(cfg, live, rep, used, c);
    case CancelAllOrders(user, symbol, ts) => CancelAllMirrors(live, rep, used, user, symbol, ts);
    case UpdateMarkPrice(symbol, mark, index, ts) => MarkMirrors(live, rep, used, symbol, mark, index, ts);
    case ComputeFunding(symbol, ts) => FundingMirrors(cfg, live, rep, used, symbol, ts);
    case AdminCredit(_, _, _, _) =>
  }

  lemma FundingMirrors(cfg: EngineConfig, live: EngineState, rep: EngineState, used: UsedIds, symbol: SymbolId,
                       ts: Micros)
    requires Mirrors(live, rep, used)
    ensures var r := ReplayAll(rep, FundingStep(cfg, live, symbol, ts).1);
      && r.Ok? && Mirrors(FundingStep(cfg, live, symbol, ts).0, r.value, used) && r.value.stops == rep.stops
  {
    ReplayOne(rep, FundingStep(cfg, live, symbol, ts).1[0]);
  }

  lemma OneEvent(st: EngineState, id: OrderId, user: UserId, ts: Micros)
    ensures var events := CancelStep(st, id, user, ts).1;
      events == [events[0]]
  {
  }

  lemma PartMirrors(live: EngineState, rep: EngineState, used: UsedIds, sel: Selector)
    requires Mirrors(live, rep, used)
    ensures Mirrors(live.(arr := Keep(live.arr, sel)), rep.(arr := Keep(rep.arr, sel)), used)
  {
    KeepIn(live.arr, sel);
    forall x: OrderId | !HasId(live.arr, x) ensures !HasId(Keep(live.arr, sel), x) {
      NotInPart(live.arr, Keep(live.arr, sel), x);
    }
  }

  // Fewer stop orders, the same ones on both sides.
  lemma StopsPartMirror(live: EngineState, rep: EngineState, used: UsedIds, kept: seq<Order>, left: seq<Order>)
    requires Mirrors(live, rep, used) && multiset(kept) == multiset(left)
    requires forall o :: o in kept ==> o in live.stops
    ensures Mirrors(live.(stops := kept), rep.(stops := left), used)
  {
    forall x: OrderId | !HasId(live.stops, x) ensures !HasId(kept, x) {
      NotInPart(live.stops, kept, x);
    }
    hide HasId;
  }

  lemma CancelMirrors(live: EngineState, rep: EngineState, used: UsedIds, id: OrderId, user: UserId, ts: Micros)
    requires Sound(live) && Mirrors(live, rep, used) && Replayable(live, used, CancelOrder(id, user, 0, ts))
    ensures var r := ApplyEvent(rep, CancelStep(live, id, user, ts).1[0]);
      && r.Ok? && Mirrors(CancelStep(live, id, user, ts).0, r.value, used)
      && (rep.stops == live.stops && KeepsStopOrder(live, CancelOrder(id, user, 0, ts)) ==>
            r.value.stops == CancelStep(live, id, user, ts).0.stops)
  {
    CancelOutcome(live, id, user, ts);
    Mirrored(live, rep, used);
    NotFoundReplays(rep, id, user, ts);
    hide CancelStep, Mirrors, Sound, HasId, ApplyEvent, Lookup, IndexOf, Keep, Without, CanceledEvent, Apart;
    var i := IndexOf(live.stops, id);
    if HasId(live.arr, id) {
      if Lookup(live.arr, id).value.userId == user {
        PartMirrors(live, rep, used, NotId(id));
        CanceledOnBook(rep, Lookup(live.arr, id).value, user, ts);
      }
    } else if i < |live.stops| {
      StopCancelMirrors(live, rep, used, live.stops[i]);
      if live.stops[i].userId == user {
        StopCanceled(rep, live.stops[i], user, live.stops[i].symbol, ts);
      } else {
        StopMovedMirrors(live, rep, used, live.stops[i]);
      }
    }
  }

  lemma StopMovedMirrors(live: EngineState, rep: EngineState, used: UsedIds, o: Order)
    requires Sound(live) && Mirrors(live, rep, used) && o in live.stops
    ensures Mirrors(live.(stops := Without(live.stops, o.orderId) + [o]), rep, used)
  {
    Mirrored(live, rep, used);
    CanceledApart(live, rep, used, o);
    hide Mirrors, HasId, HeapsMirror, Sound, Apart, Without;
    WithoutIs(live.stops, o);
    var moved := Without(live.stops, o.orderId) + [o];
    forall x | x in moved ensures x in live.stops {
      assert x in multiset(moved);
    }
    StopsPartMirror(live, rep, used, moved, rep.stops);
  }

  // An order taken off the back and placed there again.
  lemma BackAgain(arr: seq<Order>, id: OrderId)
    requires Distinct(arr) && arr != [] && arr[|arr| - 1].orderId == id
    ensures HasId(arr, id) && Keep(arr, NotId(id)) + [Lookup(arr, id).value] == arr
  {
    var init, o := arr[..|arr| - 1], arr[|arr| - 1];
    assert arr == init + [o] && o in arr;
    LookupUnique(arr, o);
    LastChanged(init, o, 0);
  }

  lemma NotFoundReplays(rep: EngineState, id: OrderId, user: UserId, ts: Micros)
    ensures ApplyEvent(rep, OrderRejected(id, user, OrderNotFound, ts)) == Ok(rep)
  {
  }

  lemma CancelOutcome(st: EngineState, id: OrderId, user: UserId, ts: Micros)
    requires Sound(st) && Replayable(st, NO_IDS, CancelOrder(id, user, 0, ts))
    ensures var i := IndexOf(st.stops, id);
      var notFound := [OrderRejected(id, user, OrderNotFound, ts)];
      CancelStep(st, id, user, ts) ==
      if HasId(st.arr, id) then
        var o := Lookup(st.arr, id).value;
        if o.userId != user then (st, notFound)
        else (st.(arr := Keep(st.arr, NotId(id))), [CanceledEvent(o, user, o.symbol, ts)])
      else if i < |st.stops| then
        var o := st.stops[i];
        if o.userId != user then (st.(stops := Without(st.stops, id) + [o]), notFound)
        else (st.(stops := Without(st.stops, id)), [CanceledEvent(o, user, o.symbol, ts)])
      else (st, notFound)
  {
    if HasId(st.arr, id) && Lookup(st.arr, id).value.userId != user {
      assert st.arr != [];
      BackAgain(st.arr, id);
    }
  }

  lemma CanceledOnBook(rep: EngineState, o: Order, user: UserId, ts: Micros)
    requires HasId(rep.arr, o.orderId)
    ensures ApplyEvent(rep, CanceledEvent(o, user, o.symbol, ts))
         == Ok(rep.(arr := Keep(rep.arr, NotId(o.orderId))))
  {
  }

  lemma StopCancelMirrors(live: EngineState, rep: EngineState, used: UsedIds, o: Order)
    requires Sound(live) && Mirrors(live, rep, used) && o in live.stops
    ensures Mirrors(live.(stops := Without(live.stops, o.orderId)), rep.(stops := Without(rep.stops, o.orderId)),
                    used)
    ensures Apart(rep.stops, rep.arr) && o in rep.stops
  {
    Mirrored(live, rep, used);
    CanceledApart(live, rep, used, o);
    hide Mirrors, HasId, HeapsMirror, Sound, Apart, Without;
    WithoutIs(live.stops, o);
    WithoutIs(rep.stops, o);
    var kept, left := Without(live.stops, o.orderId), Without(rep.stops, o.orderId);
    SameWithout(o, multiset(kept), multiset(left));
    forall x | x in kept ensures x in live.stops {
      assert x in multiset(live.stops);
    }
    StopsPartMirror(live, rep, used, kept, left);
  }

  lemma CanceledApart(live: EngineState, rep: EngineState, used: UsedIds, o: Order)
    requires Sound(live) && Mirrors(live, rep, used) && o in live.stops
    ensures Apart(live.stops, live.arr) && Apart(rep.stops, rep.arr) && o in rep.stops
  {
    ApartPermuted(live.stops, rep.stops, live.arr);
    MembersPermuted(live.stops, rep.stops);
  }

  // ── Amends ────────────────────────────────────────────────────────────

  // Replay refuses every amend in place: the id it accepts is on the book.
  lemma InPlaceRefused(live: EngineState, rep: EngineState, c: Command)
    requires c.AmendOrder? && AmendsInPlace(live, c) && rep.arr == live.arr
    ensures ReplayAll(rep, AmendStep(live, c).1) == Err(DuplicateOnReplay(c.orderId))
  {
    ReplayOne(rep, AmendStep(live, c).1[0]);
  }

  // What an amend does that neither stays in place nor is matched again: it is
  // refused, or takes its order off the book.
  lemma AmendOutcome(st: EngineState, c: Command)
    requires c.AmendOrder? && !AmendsInPlace(st, c) && Amended(st, c).None?
    ensures var rejected := [OrderRejected(c.orderId, c.userId, InvalidOrder, c.timestamp)];
      || AmendStep(st, c) == (st, [OrderRejected(c.orderId, c.userId, OrderNotFound, c.timestamp)])
      || AmendStep(st, c) == (st, rejected)
      || (HasId(st.arr, c.orderId) &&
          var canceled := CanceledEvent(Lookup(st.arr, c.orderId).value, c.userId, c.symbol, c.timestamp);
          AmendStep(st, c) == (st.(arr := Keep(st.arr, NotId(c.orderId))), [canceled] + rejected))
  {
    hide HasId, Match;
    if HasId(st.arr, c.orderId) {
      var canceled := CanceledEvent(Lookup(st.arr, c.orderId).value, c.userId, c.symbol, c.timestamp);
      var rejected := OrderRejected(c.orderId, c.userId, InvalidOrder, c.timestamp);
      assert [canceled] + [rejected] == [canceled, rejected];
    }
  }

  lemma AmendMirrors(cfg: EngineConfig, live: EngineState, rep: EngineState, used: UsedIds, c: Command)
    requires Sound(live) && Mirrors(live, rep, used) && Replayable(live, used, c) && c.AmendOrder?
    ensures var r := ReplayAll(rep, AmendStep(live, c).1);
      if TakersFit(cfg, live, c)
      then r.Ok? && Mirrors(AmendStep(live, c).0, r.value, used) && r.value.stops == rep.stops
           && AmendStep(live, c).0.stops == live.stops
      else r.Err?
  {
    Mirrored(live, rep, used);
    hide Mirrors, Sound, HeapsMirror, Match, AmendsInPlace, Amended, AmendStep, LegsFit, HasId;
    if AmendsInPlace(live, c) {
      InPlaceRefused(live, rep, c);
    } else if Amended(live, c).None? {
      AmendOutcome(live, c);
      RejectionReplays(rep, c.orderId, c.userId, OrderNotFound, c.timestamp);
      RejectionReplays(rep, c.orderId, c.userId, InvalidOrder, c.timestamp);
      if HasId(live.arr, c.orderId) {
        PartMirrors(live, rep, used, NotId(c.orderId));
        CancelThenReject(rep, Lookup(live.arr, c.orderId).value, c, InvalidOrder);
      }
    } else {
      RepriceMirrors(live, rep, used, c);
    }
  }

  lemma RejectionReplays(rep: EngineState, id: OrderId, user: UserId, reason: RejectReason, ts: Micros)
    ensures ReplayAll(rep, [OrderRejected(id, user, reason, ts)]) == Ok(rep)
  {
    ReplayOne(rep, OrderRejected(id, user, reason, ts));
  }

  lemma CancelReplays(rep: EngineState, o: Order, c: Command)
    requires c.AmendOrder? && HasId(rep.arr, o.orderId)
    ensures ReplayAll(rep, [CanceledEvent(o, c.userId, c.symbol, c.timestamp)])
         == Ok(rep.(arr := Keep(rep.arr, NotId(o.orderId))))
  {
    ReplayOne(rep, CanceledEvent(o, c.userId, c.symbol, c.timestamp));
  }

  lemma CancelThenReject(rep: EngineState, o: Order, c: Command, reason: RejectReason)
    requires c.AmendOrder? && HasId(rep.arr, o.orderId)
    ensures ReplayAll(rep, [CanceledEvent(o, c.userId, c.symbol, c.timestamp)]
                           + [OrderRejected(c.orderId, c.userId, reason, c.timestamp)])
         == Ok(rep.(arr := Keep(rep.arr, NotId(o.orderId))))
  {
    hide ReplayAll, Keep, HasId;
    CancelReplays(rep, o, c);
    RejectionReplays(rep.(arr := Keep(rep.arr, NotId(o.orderId))), c.orderId, c.userId, reason, c.timestamp);
    ReplayConcat(rep, [CanceledEvent(o, c.userId, c.symbol, c.timestamp)],
                 [OrderRejected(c.orderId, c.userId, reason, c.timestamp)]);
  }

  // What an amend does that is matched again.
  lemma RepriceOutcome(st: EngineState, c: Command)
    requires c.AmendOrder? && Amended(st, c).Some?
    ensures HasId(st.arr, c.orderId)
    ensures var o, was := Amended(st, c).value, Lookup(st.arr, c.orderId).value;
      var arr := Keep(st.arr, NotId(c.orderId));
      var m := Match(arr, o);
      var canceled := [CanceledEvent(was, c.userId, c.symbol, c.timestamp)];
      && o.orderId == c.orderId == was.orderId && o.timestamp == c.timestamp && o.remaining > 0
      && o.orderType == was.orderType
      && AmendStep(st, c) ==
         if m.rejected then
           (st.(arr := arr), canceled + [OrderRejected(c.orderId, c.userId, RejectionOf(was.tif), c.timestamp)])
         else
           (st.(arr := m.arr + (if m.taker.remaining != 0 && m.taker.orderType.IsLimit() then [m.taker] else [])),
            canceled + ([AcceptedEvent(m.taker, c.symbol, c.timestamp)]
                        + FillEvents(m.arr, m.fills, c.symbol, c.timestamp, m.taker.remaining)))
  {
    hide HasId, FillEvents;
    var o, was := Amended(st, c).value, Lookup(st.arr, c.orderId).value;
    var m := Match(Keep(st.arr, NotId(c.orderId)), o);
    if m.rejected { RejectedUnchanged(Keep(st.arr, NotId(c.orderId)), o); }
    hide Match;
    var canceled := CanceledEvent(was, c.userId, c.symbol, c.timestamp);
    var accepted := AcceptedEvent(m.taker, c.symbol, c.timestamp);
    var rejected := OrderRejected(c.orderId, c.userId, RejectionOf(was.tif), c.timestamp);
    var fills := FillEvents(m.arr, m.fills, c.symbol, c.timestamp, m.taker.remaining);
    assert [canceled] + [rejected] == [canceled, rejected];
    assert [canceled] + ([accepted] + fills) == [canceled, accepted] + fills;
  }

  lemma RepriceMirrors(live: EngineState, rep: EngineState, used: UsedIds, c: Command)
    requires Sound(live) && Mirrors(live, rep, used) && c.AmendOrder? && Amended(live, c).Some?
    requires ComesBack(Amended(live, c).value, c.symbol)
             || Match(Keep(live.arr, NotId(c.orderId)), Amended(live, c).value).rejected
    ensures var m := Match(Keep(live.arr, NotId(c.orderId)), Amended(live, c).value);
      var r := ReplayAll(rep, AmendStep(live, c).1);
      && AmendStep(live, c).0.stops == live.stops
      && (if m.rejected || LegsFit(m.fills, m.taker.remaining)
          then r.Ok? && Mirrors(AmendStep(live, c).0, r.value, used) && r.value.stops == rep.stops
          else r.Err?)
  {
    var o, was := Amended(live, c).value, Lookup(live.arr, c.orderId).value;
    RepriceOutcome(live, c);
    Mirrored(live, rep, used);
    PartMirrors(live, rep, used, NotId(c.orderId));
    hide Mirrors, Sound, HeapsMirror, Match, Amended, AmendStep, LegsFit, HasId, Keep, FillEvents, ReplayAll;
    var arr := Keep(live.arr, NotId(c.orderId));
    var live1, rep1 := live.(arr := arr), rep.(arr := arr);
    var m := Match(arr, o);
    if m.rejected {
      CancelThenReject(rep, was, c, RejectionOf(was.tif));
    } else {
      CancelReplays(rep, was, c);
      ReplayConcat(rep, [CanceledEvent(was, c.userId, c.symbol, c.timestamp)],
                   [AcceptedEvent(m.taker, c.symbol, c.timestamp)]
                   + FillEvents(m.arr, m.fills, c.symbol, c.timestamp, m.taker.remaining));
      BackReady(live, rep, used, o);
      PutBackReplays(rep1, arr, o, c.symbol, c.timestamp);
      if LegsFit(m.fills, m.taker.remaining) { PutBackMirrors(live1, live, rep1, rep, used, o); }
    }
  }

  // The book and the stop orders without the amended order.
  lemma BackReady(live: EngineState, rep: EngineState, used: UsedIds, o: Order)
    requires Sound(live) && Mirrors(live, rep, used) && HasId(live.arr, o.orderId)
    ensures var arr := Keep(live.arr, NotId(o.orderId));
      && Distinct(arr) && AllPositive(arr) && !HasId(arr, o.orderId) && !HasId(rep.stops, o.orderId)
      && o.orderId in rep.seen && Lookup(live.arr, o.orderId).value.orderType.IsLimit()
  {
    var was := Lookup(live.arr, o.orderId).value;
    OnBook(live, was);
    SoundPart(live.arr, NotId(o.orderId));
    GoneId(live.arr, o.orderId);
    IdsPermuted(live.stops, rep.stops, o.orderId);
  }

  // An order accepted again: placed whole, then worn down.
  lemma PutBackReplays(rep: EngineState, arr: seq<Order>, o: Order, symbol: SymbolId, ts: Micros)
    requires rep.arr == arr && Distinct(arr) && AllPositive(arr) && !HasId(arr, o.orderId)
    requires !HasId(rep.stops, o.orderId) && o.orderId in rep.seen
    requires ComesBack(o, symbol) && o.timestamp == ts && o.remaining > 0 && o.orderType.IsLimit()
    requires !Match(arr, o).rejected
    ensures var m := Match(arr, o);
      var r := ReplayAll(rep, [AcceptedEvent(m.taker, symbol, ts)]
                              + FillEvents(m.arr, m.fills, symbol, ts, m.taker.remaining));
      if LegsFit(m.fills, m.taker.remaining)
      then r == Ok(rep.(arr := m.arr + (if m.taker.remaining != 0 && m.taker.orderType.IsLimit() then [m.taker]
                                        else [])))
      else r.Err?
  {
    var m := Match(arr, o);
    var left := m.taker.remaining;
    hide Match, Distinct, AllPositive, HasId, ReplayAll, FillEvents, LegsFit, Fillable, TakerOf, ApplyFills,
         MakersLogged;
    MatchAsFills(arr, o);
    MatchIds(arr, o, o.orderId);
    FinalMakers(arr, m.fills);
    AcceptedReplays(rep, o);
    AcceptedSame(o, m.taker);
    var rep1 := rep.(arr := arr + [o]);
    assert rep.seen + {o.orderId} == rep.seen;
    ReplayFills(rep1, arr, o, m.fills, m.arr, symbol, ts, left);
    ReplayConcat(rep, [AcceptedEvent(o, symbol, ts)], FillEvents(m.arr, m.fills, symbol, ts, left));
  }

  lemma AcceptedSame(o: Order, taker: Order)
    requires taker == o.(remaining := taker.remaining)
    ensures AcceptedEvent(taker, o.symbol, o.timestamp) == AcceptedEvent(o, o.symbol, o.timestamp)
  {
  }

  // The book gains nothing that was not there before.
  lemma ArrMirrors(live: EngineState, rep: EngineState, used: UsedIds, arr: seq<Order>)
    requires Mirrors(live, rep, used) && forall x: OrderId :: !HasId(live.arr, x) ==> !HasId(arr, x)
    ensures Mirrors(live.(arr := arr), rep.(arr := arr), used)
  {
    forall o | o in arr ensures o.orderId in rep.seen {
      var k :| 0 <= k < |arr| && arr[k] == o;
      assert HasId(arr, o.orderId);
      assert Lookup(live.arr, o.orderId).value in live.arr;
    }
    hide HasId, Lists;
  }

  lemma PutBackMirrors(live1: EngineState, live: EngineState, rep1: EngineState, rep: EngineState, used: UsedIds,
      o: Order)
    requires Mirrors(live, rep, used) && HasId(live.arr, o.orderId)
    requires live1 == live.(arr := Keep(live.arr, NotId(o.orderId))) && rep1 == rep.(arr := live1.arr)
    ensures var m := Match(live1.arr, o);
      var arr := m.arr + (if m.taker.remaining != 0 && m.taker.orderType.IsLimit() then [m.taker] else []);
      Mirrors(live.(arr := arr), rep1.(arr := arr), used)
  {
    var m := Match(live1.arr, o);
    var arr := m.arr + (if m.taker.remaining != 0 && m.taker.orderType.IsLimit() then [m.taker] else []);
    TakerKept(live1.arr, o);
    KeepIn(live.arr, NotId(o.orderId));
    forall x: OrderId | !HasId(live.arr, x) ensures !HasId(arr, x) {
      NotInPart(live.arr, live1.arr, x);
      MatchIds(live1.arr, o, x);
      hide Match;
      forall k | 0 <= k < |arr| ensures arr[k].orderId != x {
        if k < |m.arr| { assert m.arr[k].orderId != x; }
      }
    }
    hide Match, Mirrors, HasId;
    ArrMirrors(live, rep, used, arr);
  }

  // ── Cancel-alls and marks ─────────────────────────────────────────────

  lemma CancelAllMirrors(live: EngineState, rep: EngineState, used: UsedIds, user: UserId, symbol: SymbolId,
                         ts: Micros)
    requires Sound(live) && Mirrors(live, rep, used)
    ensures var r := ReplayAll(rep, CancelAllStep(live, user, symbol, ts).1);
      && r.Ok? && Mirrors(CancelAllStep(live, user, symbol, ts).0, r.value, used)
      && (rep.stops == live.stops && KeepsStopOrder(live, CancelAllOrders(user, symbol, ts)) ==>
            r.value.stops == CancelAllStep(live, user, symbol, ts).0.stops)
  {
    var test := OwnedBy(user, symbol);
    var (kept, taken) := Sweep(live.stops, 0, test);
    var mine := Keep(live.arr, OfUser(user));
    SweepSplits(live.stops, 0, test);
    SweepMembers(live.stops, test);
    SoundParts(live);
    Mirrored(live, rep, used);
    CancelsReplay(rep, user, symbol, ts);
    PartMirrors(live, rep, used, NotUser(user));
    var rep1 := rep.(arr := Keep(rep.arr, NotUser(user)));
    ApartPermuted(live.stops, rep.stops, live.arr);
    ApartPart(rep.stops, rep.arr, NotUser(user));
    hide Mirrors, Sound, HasId, HeapsMirror, Apart, Distinct, Sweep;
    StopCancelsReplay(rep1, taken, user, symbol, ts);
    EventsSplit(mine, taken, user, symbol, ts);
    ReplayConcat(rep, CanceledEvents(mine, user, symbol, ts), CanceledEvents(taken, user, symbol, ts));
    var left := ReplayAll(rep1, CanceledEvents(taken, user, symbol, ts)).value.stops;
    SameWithoutAll(multiset(taken), multiset(kept), multiset(left));
    StopsPartMirror(live.(arr := Keep(live.arr, NotUser(user))), rep1, used, kept, left);
    if KeepsStopOrder(live, CancelAllOrders(user, symbol, ts)) {
      SweepNone(live.stops, 0, test);
    }
  }

  lemma SameWithoutAll(gone: multiset<Order>, a: multiset<Order>, b: multiset<Order>)
    requires a + gone == b + gone
    ensures a == b
  {
    assert (a + gone) - gone == a && (b + gone) - gone == b;
  }

  lemma EventsSplit(a: seq<Order>, b: seq<Order>, user: UserId, symbol: SymbolId, ts: Micros)
    ensures CanceledEvents(a + b, user, symbol, ts)
         == CanceledEvents(a, user, symbol, ts) + CanceledEvents(b, user, symbol, ts)
  {
  }

  lemma {:induction false} SweepNone(s: seq<Order>, i: nat, test: StopTest)
    requires forall o :: o in s ==> !test.Picks(o)
    ensures Sweep(s, i, test) == (s, [])
    decreases |s| - i
  {
    if i < |s| {
      assert s[i] in s;
      SweepNone(s, i + 1, test);
    }
  }

  // The mark itself, replayed without triggering.
  lemma PassiveMirrors(live: EngineState, rep: EngineState, used: UsedIds, mark: int, index: int)
    requires Mirrors(live, rep, used)
    ensures Mirrors(MarkPassive(live, mark, index), MarkPassive(rep, mark, index), used)
  {
    PeakedPermuted(live.stops, rep.stops, mark);
    var stops := PeakedAll(live.stops, mark);
    forall o | o in stops ensures o.orderId in rep.seen && HasId(live.stops, o.orderId) {
      var k :| 0 <= k < |stops| && stops[k] == o;
      assert live.stops[k] in live.stops;
    }
    forall x: OrderId | !HasId(live.stops, x) ensures !HasId(stops, x) {
      forall k | 0 <= k < |stops| ensures stops[k].orderId != x { assert stops[k] in stops; }
    }
  }

  lemma FiredPending(live: EngineState, rep: EngineState, used: UsedIds, mark: int)
    requires Sound(live) && Mirrors(live, rep, used)
    ensures Pending(rep.(stops := PeakedAll(rep.stops, mark)), FiredStops(live, mark))
  {
    var stops, test := PeakedAll(live.stops, mark), FiredBy(mark);
    var rep1 := MarkPassive(rep, mark, live.index);
    PeaksSound(live, mark);
    SweepSound(stops, live.arr, test);
    SweepSplits(stops, 0, test);
    PassiveMirrors(live, rep, used, mark, live.index);
    Mirrored(MarkPassive(live, mark, live.index), rep1, used);
    DistinctPermuted(stops, rep1.stops);
    hide Sweep, Distinct, HeapsMirror, HasId, PeakedAll;
  }

  lemma MarkMirrors(live: EngineState, rep: EngineState, used: UsedIds, symbol: SymbolId, mark: int, index: int,
                    ts: Micros)
    requires Sound(live) && Mirrors(live, rep, used) && AllFilled(live.arr, FiredStops(live, mark), ts)
    ensures var r := ReplayAll(rep, MarkStep(live, symbol, mark, index, ts).1);
      if AllPass(live.arr, FiredStops(live, mark), ts)
      then r.Ok? && Mirrors(MarkStep(live, symbol, mark, index, ts).0, r.value, used)
           && (rep.stops == live.stops ==> r.value.stops == MarkStep(live, symbol, mark, index, ts).0.stops)
      else r.Err?
  {
    var taken := FiredStops(live, mark);
    var (arr, events) := TriggerAll(live.arr, taken, ts);
    var rep1 := MarkPassive(rep, mark, index);
    Mirrored(live, rep, used);
    FiredPending(live, rep, used, mark);
    PendingElsewhere(rep.(stops := PeakedAll(rep.stops, mark)), rep1, taken);
    PassiveMirrors(live, rep, used, mark, index);
    MarkReplays(rep, symbol, mark, index, ts);
    MarkOutcome(live, symbol, mark, index, ts);
    hide Mirrors, Sound, HasId, HeapsMirror, Pending, AllFilled, AllPass, TriggerAll, DropAll, FiredStops, PeakedAll,
         ReplayAll, MarkStep, Sweep;
    TriggersReplay(rep1, taken, ts);
    ReplayConcat(rep, [MarkPriceUpdate(symbol, mark, index, ts)], events);
    if AllPass(live.arr, taken, ts) {
      TriggeredMirror(live, rep1, used, mark, index, ts);
    }
  }

  lemma MarkReplays(rep: EngineState, symbol: SymbolId, mark: int, index: int, ts: Micros)
    ensures ReplayAll(rep, [MarkPriceUpdate(symbol, mark, index, ts)]) == Ok(MarkPassive(rep, mark, index))
  {
    ReplayOne(rep, MarkPriceUpdate(symbol, mark, index, ts));
  }

  lemma PendingElsewhere(rep: EngineState, rep1: EngineState, taken: seq<Order>)
    requires Pending(rep, taken) && rep1.arr == rep.arr && rep1.stops == rep.stops && rep1.seen == rep.seen
    ensures Pending(rep1, taken)
  {
    hide Distinct, AllPositive, AllLimit, Apart;
  }

  lemma MarkOutcome(st: EngineState, symbol: SymbolId, mark: int, index: int, ts: Micros)
    ensures var taken := FiredStops(st, mark);
      var (arr, events) := TriggerAll(st.arr, taken, ts);
      MarkStep(st, symbol, mark, index, ts)
      == (MarkPassive(st, mark, index).(arr := arr, stops := Sweep(PeakedAll(st.stops, mark), 0, FiredBy(mark)).0),
          [MarkPriceUpdate(symbol, mark, index, ts)] + events)
  {
    hide Sweep, TriggerAll, PeakedAll;
  }

  // Both sides after the fired stops have traded.
  lemma TriggeredMirror(live: EngineState, rep1: EngineState, used: UsedIds, mark: int, index: int, ts: Micros)
    requires Sound(live) && Mirrors(MarkPassive(live, mark, index), rep1, used)
    requires Pending(rep1, FiredStops(live, mark))
    ensures var kept := Sweep(PeakedAll(live.stops, mark), 0, FiredBy(mark)).0;
      var arr := TriggerAll(live.arr, FiredStops(live, mark), ts).0;
      var left := DropAll(rep1.stops, FiredStops(live, mark));
      && Mirrors(MarkPassive(live, mark, index).(arr := arr, stops := kept), rep1.(arr := arr, stops := left), used)
      && (rep1.stops == PeakedAll(live.stops, mark) ==> left == kept)
  {
    var passive := MarkPassive(live, mark, index);
    var (kept, taken) := Sweep(passive.stops, 0, FiredBy(mark));
    var left := DropAll(rep1.stops, taken);
    Mirrored(passive, rep1, used);
    TriggerIds(live, mark, ts);
    DroppedAreTaken(rep1, passive.stops, mark);
    hide Sound, HasId, Pending, TriggerAll, DropAll, PeakedAll, Sweep;
    StopsPartMirror(passive, rep1, used, kept, left);
    BookMirrors(passive, rep1, used, kept, left, taken, TriggerAll(live.arr, taken, ts).0);
  }

  lemma DroppedAreTaken(rep1: EngineState, stops: seq<Order>, mark: int)
    requires Distinct(rep1.stops) && multiset(rep1.stops) == multiset(stops)
    ensures var (kept, taken) := Sweep(stops, 0, FiredBy(mark));
      && multiset(DropAll(rep1.stops, taken)) == multiset(kept)
      && (forall o :: o in kept || o in taken ==> o in stops)
      && (rep1.stops == stops ==> DropAll(rep1.stops, taken) == kept)
  {
    var (kept, taken) := Sweep(stops, 0, FiredBy(mark));
    SweepSplits(stops, 0, FiredBy(mark));
    SweepMembers(stops, FiredBy(mark));
    hide Distinct, Sweep, DropAll;
    DropAllIs(rep1.stops, taken);
    SameWithoutAll(multiset(taken), multiset(kept), multiset(DropAll(rep1.stops, taken)));
    if rep1.stops == stops {
      SweepDrops(stops, 0, FiredBy(mark));
    }
  }

  lemma TriggerIds(live: EngineState, mark: int, ts: Micros)
    requires Sound(live)
    ensures var taken := FiredStops(live, mark);
      forall x :: !HasId(live.arr, x) && !HasId(taken, x) ==> !HasId(TriggerAll(live.arr, taken, ts).0, x)
  {
    PeaksSound(live, mark);
    SweepSound(PeakedAll(live.stops, mark), live.arr, FiredBy(mark));
    hide Distinct, AllLimit, Sweep, TriggerAll, Apart, HasId;
    TriggerSound(live.arr, FiredStops(live, mark), Sweep(PeakedAll(live.stops, mark), 0, FiredBy(mark)).0, ts);
  }

  // The book gains at most the fired stops.
  lemma BookMirrors(live: EngineState, rep: EngineState, used: UsedIds, kept: seq<Order>, left: seq<Order>,
                    taken: seq<Order>, arr: seq<Order>)
    requires Mirrors(live, rep, used) && Mirrors(live.(stops := kept), rep.(stops := left), used)
    requires forall o :: o in taken ==> o in live.stops
    requires forall x :: !HasId(live.arr, x) && !HasId(taken, x) ==> !HasId(arr, x)
    ensures Mirrors(live.(arr := arr, stops := kept), rep.(arr := arr, stops := left), used)
  {
    forall x | HasId(arr, x) ensures x in rep.seen && (HasId(live.arr, x) || HasId(live.stops, x)) {
      if HasId(live.arr, x) {
        assert Lookup(live.arr, x).value in live.arr;
      } else {
        NotInTaken(taken, live.stops, x);
        assert Lookup(taken, x).value in live.stops;
      }
    }
    forall o | o in arr ensures HasId(arr, o.orderId) {
      var k :| 0 <= k < |arr| && arr[k] == o;
    }
    hide HasId;
  }

  lemma NotInTaken(taken: seq<Order>, stops: seq<Order>, x: OrderId)
    requires HasId(taken, x) && forall o :: o in taken ==> o in stops
    ensures HasId(stops, x)
  {
    if !HasId(stops, x) { NotInPart(stops, taken, x); }
  }

  // ── Whole runs ────────────────────────────────────────────────────────

  // Replay of a whole run's log succeeds iff every taker's legs fit, and then
  // rebuilds the live state: orders, and with them level lists, totals and
  // owner lists, stop orders with their peaks, mark, index and funding rate.
  // The stop orders also stand in the same order unless a cancel-all took some.
  lemma {:induction false} ReplayEqualsLive(cfg: EngineConfig, live: EngineState, rep: EngineState,
                                            used: UsedIds, cmds: seq<Command>)
    requires Sound(live) && Mirrors(live, rep, used) && ReplayableRun(cfg, live, used, cmds)
    requires cfg.lotSize > 0
    ensures var (end, log) := Run(cfg, live, cmds);
      && (ReplayAll(rep, log).Ok? <==> AllTakersFit(cfg, live, cmds))
      && (ReplayAll(rep, log).Ok? ==> Mirrors(end, ReplayAll(rep, log).value, AllUsed(used, cmds)))
      && (ReplayAll(rep, log).Ok? && rep.stops == live.stops && AllKeepStopOrder(cfg, live, cmds) ==>
            ReplayAll(rep, log).value.stops == end.stops)
    decreases |cmds|
  {
    hide Sound, Mirrors, Step, TakersFit, Replayable, ApplyEvent, KeepsStopOrder;
    if cmds != [] {
      var c := cmds[0];
      var (live1, events) := Step(cfg, live, c);
      var (end, more) := Run(cfg, live1, cmds[1..]);
      ReplayConcat(rep, events, more);
      StepMirrors(cfg, live, rep, used, c);
      StepStaysSound(cfg, live, rep, used, c);
      if TakersFit(cfg, live, c) {
        ReplayEqualsLive(cfg, live1, ReplayAll(rep, events).value, Used(used, c), cmds[1..]);
      }
    }
  }

  lemma StepStaysSound(cfg: EngineConfig, live: EngineState, rep: EngineState, used: UsedIds, c: Command)
    requires Sound(live) && Mirrors(live, rep, used) && Replayable(live, used, c) && cfg.lotSize > 0
    ensures Sound(Step(cfg, live, c).0)
  {
    hide Sound, Step;
    if c.NewOrder? {
      FreshEverywhere(live, rep, used, c.orderId);
    }
    StepSound(cfg, live, c);
  }

  // From boot: the engine starts empty, and so does its replay.
  lemma BootReplaysRun(cfg: EngineConfig, cmds: seq<Command>)
    requires cfg.lotSize > 0 && ReplayableRun(cfg, EMPTY_ENGINE, NO_IDS, cmds)
    ensures var (end, log) := Run(cfg, EMPTY_ENGINE, cmds);
      var r := ReplayAll(EMPTY_ENGINE, log);
      && (r.Ok? <==> AllTakersFit(cfg, EMPTY_ENGINE, cmds))
      && (r.Ok? ==> Mirrors(end, r.value, AllUsed(NO_IDS, cmds)))
      && (r.Ok? ==> (ExpiryAgrees(end, r.value) <==>
                       forall id :: id in AllUsed(NO_IDS, cmds).dated ==> !Holds(end, id)))
      && (r.Ok? && AllKeepStopOrder(cfg, EMPTY_ENGINE, cmds) ==> r.value.stops == end.stops)
  {
    EmptyMirrors();
    hide Mirrors, Sound;
    ReplayEqualsLive(cfg, EMPTY_ENGINE, EMPTY_ENGINE, NO_IDS, cmds);
    var (end, log) := Run(cfg, EMPTY_ENGINE, cmds);
    if ReplayAll(EMPTY_ENGINE, log).Ok? {
      ExpiryAgreesIff(end, ReplayAll(EMPTY_ENGINE, log).value, AllUsed(NO_IDS, cmds));
    }
  }

  lemma EmptyMirrors()
    ensures Sound(EMPTY_ENGINE) && Mirrors(EMPTY_ENGINE, EMPTY_ENGINE, NO_IDS)
  {
  }
}
