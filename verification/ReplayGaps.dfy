// Commands that no replay of their events can follow.
module ReplayGaps {
  import opened Common
  import opened Arrivals
  import opened Priority
  import opened OrderBooks
  import opened Matcher
  import opened MatchTheorems
  import opened Reach
  import opened EngineSpec
  import opened EngineInvariants
  import opened TakerReplay
  import opened FiredReplay
  import opened EngineReplay

  // An iceberg whose whole visible slice trades: its fills say that nothing
  // remains, so replay drops it. Either the next slice rests live and is missing
  // on replay, or its cancel is logged and replay refuses that.
  lemma NextSliceLost(live: EngineState, rep: EngineState, used: UsedIds, o: Order)
    requires Sound(live) && Mirrors(live, rep, used) && o.orderId !in used.all && Told(o) && o.orderType.Iceberg?
    requires o.remaining > 0 && o.hiddenQty > 0 && o.visibleQty.value > 0
    requires MayTake(live.arr, o) && ReachOf(live.arr, o) >= o.remaining
    ensures var r := ReplayAll(rep, PlaceStep(live, o).1);
      if o.tif.Gtc? || o.tif.Gtd?
      then r.Ok? && !HasId(r.value.arr, o.orderId) && HasId(PlaceStep(live, o).0.arr, o.orderId)
      else r == Err(UnknownOrder(o.orderId))
  {
    hide Match, ApplyEvent, Distinct, AllPositive, Fillable, FillEvents, ReplayAll, PlaceStep, MakersLogged, ApplyFills,
         Sound, Mirrors, TakerOf, HasId, Refill, AcceptedEvent, MayTake, ReachOf;
    var m := Match(live.arr, o);
    var accepted := AcceptedEvent(o, o.symbol, o.timestamp);
    var fills := FillEvents(m.arr, m.fills, o.symbol, o.timestamp, 0);
    var tail := if o.tif.Gtc? || o.tif.Gtd? then []
                else [CanceledEvent(Refill(m.taker, o.timestamp), o.userId, o.symbol, o.timestamp)];
    FreshEverywhere(live, rep, used, o.orderId);
    Mirrored(live, rep, used);
    SoundParts(live);
    SliceGone(live, o);
    AcceptedReplays(rep, o);
    var rep1 := rep.(arr := live.arr + [o], seen := rep.seen + {o.orderId},
                     heap := if o.tif.Gtd? then rep.heap + multiset{(o.timestamp + DAY, o.orderId)}
                             else rep.heap);
    MatchAsFills(live.arr, o);
    MatchIds(live.arr, o, o.orderId);
    FinalMakers(live.arr, m.fills);
    ReplayFills(rep1, live.arr, o, m.fills, m.arr, o.symbol, o.timestamp, 0);
    var rep2 := rep1.(arr := m.arr + TakerTail(o, 0, |m.fills|));
    assert rep2.arr == m.arr;
    ReplayConcat(rep, [accepted], fills + tail);
    ReplayConcat(rep1, fills, tail);
    NothingLeftToCancel(rep2, Refill(m.taker, o.timestamp), o, tail);
  }

  // The live side: filled to the end of the slice, then refilled.
  lemma SliceGone(live: EngineState, o: Order)
    requires AllPositive(live.arr) && o.orderType.Iceberg? && Told(o)
    requires o.remaining > 0 && o.hiddenQty > 0 && o.visibleQty.value > 0
    requires MayTake(live.arr, o) && ReachOf(live.arr, o) >= o.remaining
    ensures var m := Match(live.arr, o);
      var left := Refill(m.taker, o.timestamp);
      && !m.rejected && m.taker.remaining == 0 && m.fills != [] && left.orderId == o.orderId
      && PlaceStep(live, o).1 == [AcceptedEvent(o, o.symbol, o.timestamp)]
           + (FillEvents(m.arr, m.fills, o.symbol, o.timestamp, 0)
              + (if o.tif.Gtc? || o.tif.Gtd? then []
                 else [CanceledEvent(left, o.userId, o.symbol, o.timestamp)]))
      && (o.tif.Gtc? || o.tif.Gtd? ==> HasId(PlaceStep(live, o).0.arr, o.orderId))
  {
    var m := Match(live.arr, o);
    MayTakeIff(live.arr, o);
    FilledByReach(live.arr, o);
    TakerKept(live.arr, o);
    NoSum();
    hide Match, FillEvents, MayTake, ReachOf, FillSum;
    var left := Refill(m.taker, o.timestamp);
    assert left.remaining > 0 && left.orderId == o.orderId;
    var fills := FillEvents(m.arr, m.fills, o.symbol, o.timestamp, 0);
    assert fills + [] == fills;
    assert o.tif.Gtc? || o.tif.Gtd? ==> PlaceStep(live, o).0.arr[|m.arr|] == left;
  }

  lemma NothingLeftToCancel(rep: EngineState, left: Order, o: Order, tail: seq<Event>)
    requires left.orderId == o.orderId && !HasId(rep.arr, o.orderId) && !HasId(rep.stops, o.orderId)
    requires tail == [] || tail == [CanceledEvent(left, o.userId, o.symbol, o.timestamp)]
    ensures ReplayAll(rep, tail) == if tail == [] then Ok(rep) else Err(UnknownOrder(o.orderId))
  {
    NotFound(rep.stops, o.orderId);
    if tail != [] { ReplayOne(rep, tail[0]); }
  }

  // A cancel by someone else moves the live order behind all others, and is
  // logged as a rejection, which replay passes over.
  lemma WrongOwnerMoves(live: EngineState, rep: EngineState, used: UsedIds, id: OrderId, user: UserId, ts: Micros)
    requires Sound(live) && Mirrors(live, rep, used)
    requires HasId(live.arr, id) && Lookup(live.arr, id).value.userId != user
    ensures ReplayAll(rep, CancelStep(live, id, user, ts).1) == Ok(rep)
    ensures rep.arr == CancelStep(live, id, user, ts).0.arr <==> live.arr[|live.arr| - 1].orderId == id
  {
    ReplayOne(rep, CancelStep(live, id, user, ts).1[0]);
    SoundParts(live);
    Mirrored(live, rep, used);
    assert live.arr != [];
    if live.arr[|live.arr| - 1].orderId == id { BackAgain(live.arr, id); }
    var moved := Keep(live.arr, NotId(id)) + [Lookup(live.arr, id).value];
    assert moved[|moved| - 1].orderId == id;
  }
}
