// Runs from the empty engine on which replay and the live engine part.
module ReplayExamples {
  import opened Common
  import opened Arrivals
  import opened Priority
  import opened OrderBooks
  import opened Matcher
  import opened MatchTheorems
  import opened EngineSpec
  import opened EngineInvariants
  import opened TakerReplay
  import opened FiredReplay
  import opened EngineReplay
  import opened StopReplay

  function Sell(id: OrderId, qty: int): Command {
    NewOrder(id, 1, 1, Side.Sell, Limit, Gtc, Some(100), qty, None, None, None, false, None, 0)
  }

  function Ask(id: OrderId, qty: int): Order {
    Order(id, 1, 1, Side.Sell, 100, qty, qty, Limit, Gtc, false, 0, None, 0, None, None, None, None, None)
  }

  lemma ThreeSteps(cfg: EngineConfig, st: EngineState, a: Command, b: Command, c: Command)
    ensures var (st1, es) := Step(cfg, st, a);
      var (st2, fs) := Step(cfg, st1, b);
      var (st3, gs) := Step(cfg, st2, c);
      && Run(cfg, st, [a, b, c]) == (st3, (es + fs) + gs)
      && (AllTakersFit(cfg, st, [a, b, c]) <==>
            TakersFit(cfg, st, a) && TakersFit(cfg, st1, b) && TakersFit(cfg, st2, c))
      && (ReplayableRun(cfg, st, NO_IDS, [a, b, c]) <==>
            Replayable(st, NO_IDS, a) && Replayable(st1, Used(NO_IDS, a), b)
            && Replayable(st2, Used(Used(NO_IDS, a), b), c))
  {
    hide Step, TakersFit, Replayable;
    assert [a, b, c][1..] == [b, c] && [b, c][1..] == [c] && [c][1..] == [];
    var st1 := Step(cfg, st, a).0;
    var st2 := Step(cfg, st1, b).0;
    var (st3, gs) := Step(cfg, st2, c);
    assert Run(cfg, st3, []) == (st3, []) && gs + [] == gs;
    assert Run(cfg, st2, [c]) == (st3, gs);
    assert Run(cfg, st1, [b, c]).1 == Step(cfg, st1, b).1 + gs;
    assert Step(cfg, st, a).1 + (Step(cfg, st1, b).1 + gs) == (Step(cfg, st, a).1 + Step(cfg, st1, b).1) + gs;
    assert AllTakersFit(cfg, st3, []) && ReplayableRun(cfg, st3, Used(Used(Used(NO_IDS, a), b), c), []);
    assert AllTakersFit(cfg, st2, [c]) <==> TakersFit(cfg, st2, c);
    assert ReplayableRun(cfg, st2, Used(Used(NO_IDS, a), b), [c]) <==> Replayable(st2, Used(Used(NO_IDS, a), b), c);
  }

  // ── A book of asks ────────────────────────────────────────────────────

  lemma NoBids(arr: seq<Order>)
    requires forall x :: x in arr ==> x.side == Side.Sell
    ensures Queue(arr, Side.Buy) == []
  {
    QueueSorted(arr, Side.Buy);
    var q := Queue(arr, Side.Buy);
    assert forall x :: x !in q;
  }

  // An ask over asks rests whole.
  lemma AskRests(cfg: EngineConfig, st: EngineState, id: OrderId, qty: int)
    requires qty > 0 && !HasId(st.arr, id) && forall x :: x in st.arr ==> x.side == Side.Sell
    ensures Step(cfg, st, Sell(id, qty)).0 == st.(arr := st.arr + [Ask(id, qty)])
    ensures Match(st.arr, Ask(id, qty)) == Outcome(st.arr, Ask(id, qty), [], false)
  {
    NoBids(st.arr);
  }

  function AskTwice(): EngineState {
    EMPTY_ENGINE.(arr := [Ask(1, 5), Ask(2, 10)])
  }

  lemma TwoAsks(cfg: EngineConfig)
    ensures var st1 := Step(cfg, EMPTY_ENGINE, Sell(1, 5)).0;
      && st1 == EMPTY_ENGINE.(arr := [Ask(1, 5)]) && Step(cfg, st1, Sell(2, 10)).0 == AskTwice()
      && TakersFit(cfg, EMPTY_ENGINE, Sell(1, 5)) && TakersFit(cfg, st1, Sell(2, 10))
  {
    hide Step, Match, HasId;
    assert !HasId([], 1) by { NoId(); }
    AskRests(cfg, EMPTY_ENGINE, 1, 5);
    assert [] + [Ask(1, 5)] == [Ask(1, 5)] && [Ask(1, 5)] + [Ask(2, 10)] == [Ask(1, 5), Ask(2, 10)];
    assert !HasId([Ask(1, 5)], 2) by { NoId(); }
    AskRests(cfg, EMPTY_ENGINE.(arr := [Ask(1, 5)]), 2, 10);
  }

  lemma NoId()
    ensures !HasId([], 1) && !HasId([Ask(1, 5)], 2) && !HasId([Ask(1, 5)], 3)
  {
  }

  // ── A log the engine wrote and replay refuses ─────────────────────────
  // A buy of 16 takes asks of 5 and 10 and rests with 1. Its second leg of 10
  // no longer fits.

  function BuySixteen(): Command {
    NewOrder(3, 2, 1, Side.Buy, Limit, Gtc, Some(100), 16, None, None, None, false, None, 0)
  }

  lemma TwoAsksQueue()
    ensures Queue([Ask(1, 5), Ask(2, 10)], Side.Sell) == [Ask(1, 5), Ask(2, 10)]
  {
    assert [Ask(1, 5), Ask(2, 10)][..1] == [Ask(1, 5)] && [Ask(1, 5)][..0] == [];
    assert Queue([Ask(1, 5)], Side.Sell) == [Ask(1, 5)];
    assert [Ask(1, 5)][1..] == [];
    assert Place([Ask(1, 5)], Ask(2, 10)) == [Ask(1, 5)] + Place([], Ask(2, 10));
  }

  lemma SixteenWalk()
    ensures var o := BuildOrder(BuySixteen(), 100, 0);
      Walk([Ask(1, 5), Ask(2, 10)], o) == [FillOf(Ask(1, 5), o), FillOf(Ask(2, 10), Less(o, 5))]
      && FillSum(Walk([Ask(1, 5), Ask(2, 10)], o)) == 15
  {
    var o := BuildOrder(BuySixteen(), 100, 0);
    assert [Ask(1, 5), Ask(2, 10)][1..] == [Ask(2, 10)] && [Ask(2, 10)][1..] == [];
    assert Walk([], Less(Less(o, 5), 10)) == [];
    assert Walk([Ask(2, 10)], Less(o, 5)) == [FillOf(Ask(2, 10), Less(o, 5))];
    var f, g := FillOf(Ask(1, 5), o), FillOf(Ask(2, 10), Less(o, 5));
    FillSumCons(f, [g]);
    FillSumCons(g, []);
    assert [g] + [] == [g] && [f] + [g] == [f, g];
  }

  lemma SixteenDoesNotFit(cfg: EngineConfig)
    ensures !TakersFit(cfg, AskTwice(), BuySixteen())
  {
    var o := BuildOrder(BuySixteen(), 100, 0);
    TwoAsksQueue();
    SixteenWalk();
    MatchWalks(AskTwice().arr, o);
    hide Match, Queue, Walk;
    assert Match(AskTwice().arr, o).fills[1].qty == 10;
  }

  lemma ReplayCanFail(cfg: EngineConfig)
    requires cfg.lotSize > 0
    ensures var cmds := [Sell(1, 5), Sell(2, 10), BuySixteen()];
      ReplayableRun(cfg, EMPTY_ENGINE, NO_IDS, cmds) && ReplayAll(EMPTY_ENGINE, Run(cfg, EMPTY_ENGINE, cmds).1).Err?
  {
    TwoAsks(cfg);
    SixteenDoesNotFit(cfg);
    hide Step, TakersFit, ReplayAll, Run, ReplayableRun, AllTakersFit, Mirrors;
    ThreeSteps(cfg, EMPTY_ENGINE, Sell(1, 5), Sell(2, 10), BuySixteen());
    BootReplaysRun(cfg, [Sell(1, 5), Sell(2, 10), BuySixteen()]);
  }

  // ── A size decrease that makes the log unbootable ─────────────────────
  // It is logged as an acceptance, of an id that replay has on the book.

  function Shrink(): Command {
    AmendOrder(1, 1, 1, None, Some(3), 0)
  }

  lemma ShrinkRefused(cfg: EngineConfig)
    requires cfg.lotSize > 0
    ensures var cmds := [Sell(1, 5), Shrink()];
      && ReplayableRun(cfg, EMPTY_ENGINE, NO_IDS, cmds)
      && Run(cfg, EMPTY_ENGINE, cmds).0.arr == [Ask(1, 5).(remaining := 3)]
      && ReplayAll(EMPTY_ENGINE, Run(cfg, EMPTY_ENGINE, cmds).1).Err?
  {
    var cmds := [Sell(1, 5), Shrink()];
    var st := EMPTY_ENGINE.(arr := [Ask(1, 5)]);
    TwoAsks(cfg);
    ShrinksInPlace(cfg, st);
    hide Step, TakersFit, Replayable, ReplayAll, Mirrors;
    assert cmds[1..] == [Shrink()] && [Shrink()][1..] == [];
    var end := Step(cfg, st, Shrink()).0;
    assert ReplayableRun(cfg, end, Used(Used(NO_IDS, Sell(1, 5)), Shrink()), []);
    assert ReplayableRun(cfg, st, Used(NO_IDS, Sell(1, 5)), [Shrink()]);
    assert !AllTakersFit(cfg, st, [Shrink()]);
    assert Run(cfg, end, []).0 == end && Run(cfg, st, [Shrink()]).0 == end;
    BootReplaysRun(cfg, cmds);
  }

  lemma ShrinksInPlace(cfg: EngineConfig, st: EngineState)
    requires st == EMPTY_ENGINE.(arr := [Ask(1, 5)])
    ensures Replayable(EMPTY_ENGINE, NO_IDS, Sell(1, 5)) && Replayable(st, Used(NO_IDS, Sell(1, 5)), Shrink())
    ensures !TakersFit(cfg, st, Shrink()) && Step(cfg, st, Shrink()).0.arr == [Ask(1, 5).(remaining := 3)]
  {
    assert Lookup([Ask(1, 5)], 1) == Some(Ask(1, 5));
    assert [Ask(1, 5)][1..] == [];
    assert SetQty([Ask(1, 5)], 1, 3) == [Ask(1, 5).(remaining := 3)] + SetQty([], 1, 3);
  }

  // ── A fired stop that does not trade ──────────────────────────────────
  // It leaves no event: the live engine drops it, replay keeps it.

  function StopBuy(): Command {
    NewOrder(1, 1, 1, Side.Buy, StopMarket, Gtc, None, 5, Some(100), None, None, false, None, 0)
  }

  function MarkAt(price: int): Command {
    UpdateMarkPrice(1, price, price, 0)
  }

  lemma UnfilledStopStays(cfg: EngineConfig)
    ensures var (end, log) := Run(cfg, EMPTY_ENGINE, [StopBuy(), MarkAt(100)]);
      && end.stops == []
      && ReplayAll(EMPTY_ENGINE, log).Ok? && |ReplayAll(EMPTY_ENGINE, log).value.stops| == 1
  {
    var o := BuildOrder(StopBuy(), DECIMAL_MAX, 0);
    var st1 := EMPTY_ENGINE.(stops := [o]);
    assert Step(cfg, EMPTY_ENGINE, StopBuy()) == (st1, [AcceptedEvent(o, 1, 0)]) by {
      assert [] + [o] == [o];
    }
    FiresAlone(cfg, o);
    var cmds := [StopBuy(), MarkAt(100)];
    assert cmds[1..] == [MarkAt(100)] && [MarkAt(100)][1..] == [];
    var log := [AcceptedEvent(o, 1, 0)] + [MarkPriceUpdate(1, 100, 100, 0)];
    assert Run(cfg, EMPTY_ENGINE, cmds).1 == log;
    ReplayConcat(EMPTY_ENGINE, [AcceptedEvent(o, 1, 0)], [MarkPriceUpdate(1, 100, 100, 0)]);
    ReplayOne(EMPTY_ENGINE, AcceptedEvent(o, 1, 0));
    MarkReplays(ApplyEvent(EMPTY_ENGINE, AcceptedEvent(o, 1, 0)).value, 1, 100, 100, 0);
  }

  lemma FiresAlone(cfg: EngineConfig, o: Order)
    requires o == BuildOrder(StopBuy(), DECIMAL_MAX, 0)
    ensures Step(cfg, EMPTY_ENGINE.(stops := [o]), MarkAt(100))
         == (EMPTY_ENGINE.(mark := 100, index := 100), [MarkPriceUpdate(1, 100, 100, 0)])
  {
    FiredAlone(o);
    assert Match([], Promote(o)).fills == [];
    assert [o][..0] == [];
    assert TriggerAll([], [], 0) == ([], []);
    assert TriggerAll([], [o], 0) == ([], []);
    MarkOutcome(EMPTY_ENGINE.(stops := [o]), 1, 100, 100, 0);
    assert [MarkPriceUpdate(1, 100, 100, 0)] + [] == [MarkPriceUpdate(1, 100, 100, 0)];
  }

  lemma FiredAlone(o: Order)
    requires Fires(o, 100) && !o.orderType.TrailingStop?
    ensures PeakedAll([o], 100) == [o] && Sweep([o], 0, FiredBy(100)) == ([], [o])
  {
    assert SwapRemove([o], 0) == [];
    assert Sweep([], 0, FiredBy(100)) == ([], []);
    assert FiredBy(100).Picks([o][0]);
    assert [o] + [] == [o];
  }

  // ── A fired stop with an expiry time ──────────────────────────────────
  // Replay lists it for expiry when it is accepted, the live engine never; so
  // once it has fired and rests, only the replayed order would expire.

  function GtdStop(): Command {
    NewOrder(2, 2, 1, Side.Buy, StopLimit, Gtd, Some(100), 7, Some(100), None, None, false, None, 0)
  }

  lemma GtdStopTrades(o: Order)
    requires o == BuildOrder(GtdStop(), 100, 0)
    ensures var m := Match([Ask(1, 5)], Promote(o));
      && |m.fills| == 1 && !m.rejected && m.arr == [] && m.taker == Promote(o).(remaining := 2)
  {
    var t := Promote(o);
    assert [Ask(1, 5)][..0] == [] && [Ask(1, 5)][1..] == [];
    assert Queue([Ask(1, 5)], Side.Sell) == [Ask(1, 5)];
    assert Walk([], Less(t, 5)) == [];
    assert Walk([Ask(1, 5)], t) == [FillOf(Ask(1, 5), t)];
    FillSumCons(FillOf(Ask(1, 5), t), []);
    assert [FillOf(Ask(1, 5), t)] + [] == [FillOf(Ask(1, 5), t)];
    assert [FillOf(Ask(1, 5), t)][..0] == [];
    MatchWalks([Ask(1, 5)], t);
    assert Lookup([Ask(1, 5)], 1) == Some(Ask(1, 5));
  }

  lemma GtdStopListedOnReplay(cfg: EngineConfig)
    ensures var (end, log) := Run(cfg, EMPTY_ENGINE, [Sell(1, 5), GtdStop(), MarkAt(100)]);
      var r := ReplayAll(EMPTY_ENGINE, log);
      && HasId(end.arr, 2) && end.heap == multiset{}
      && r.Ok? && r.value.heap == multiset{(DAY, 2)}
  {
    var o := BuildOrder(GtdStop(), 100, 0);
    var st1 := EMPTY_ENGINE.(arr := [Ask(1, 5)]);
    var st2 := st1.(stops := [o]);
    var a1, a2 := AcceptedEvent(Ask(1, 5), 1, 0), AcceptedEvent(o, 1, 0);
    FirstTwo(cfg, o);
    var rep2 := st2.(seen := {1, 2}, heap := multiset{(DAY, 2)});
    AcceptedTwo(o);
    GtdMark(cfg, o, st2, rep2);
    hide Step, ReplayAll, HasId, BuildOrder, Run;
    ThreeSteps(cfg, EMPTY_ENGINE, Sell(1, 5), GtdStop(), MarkAt(100));
    ReplayConcat(EMPTY_ENGINE, [a1] + [a2], Step(cfg, st2, MarkAt(100)).1);
  }

  lemma FirstTwo(cfg: EngineConfig, o: Order)
    requires o == BuildOrder(GtdStop(), 100, 0)
    ensures var st1 := EMPTY_ENGINE.(arr := [Ask(1, 5)]);
      && Step(cfg, EMPTY_ENGINE, Sell(1, 5)) == (st1, [AcceptedEvent(Ask(1, 5), 1, 0)])
      && Step(cfg, st1, GtdStop()) == (st1.(stops := [o]), [AcceptedEvent(o, 1, 0)])
  {
    NoBids([]);
    assert [] + [Ask(1, 5)] == [Ask(1, 5)] && [] + [o] == [o];
    assert Match([], Ask(1, 5)) == Outcome([], Ask(1, 5), [], false);
    assert [AcceptedEvent(Ask(1, 5), 1, 0)] + [] == [AcceptedEvent(Ask(1, 5), 1, 0)];
  }

  lemma AcceptedTwo(o: Order)
    requires o == BuildOrder(GtdStop(), 100, 0)
    ensures ReplayAll(EMPTY_ENGINE, [AcceptedEvent(Ask(1, 5), 1, 0)] + [AcceptedEvent(o, 1, 0)])
         == Ok(EMPTY_ENGINE.(arr := [Ask(1, 5)], stops := [o], seen := {1, 2}, heap := multiset{(DAY, 2)}))
  {
    var a1, a2 := AcceptedEvent(Ask(1, 5), 1, 0), AcceptedEvent(o, 1, 0);
    var rep1 := EMPTY_ENGINE.(arr := [Ask(1, 5)], seen := {1});
    assert [] + [Ask(1, 5)] == [Ask(1, 5)] && [] + [o] == [o];
    ReplayConcat(EMPTY_ENGINE, [a1], [a2]);
    ReplayOne(EMPTY_ENGINE, a1);
    assert {} + {1} == {1} && {1} + {2} == {1, 2};
    assert ReplayedOrder(a1) == Ask(1, 5) && ReplayedOrder(a2) == o;
    assert ApplyEvent(EMPTY_ENGINE, a1) == Ok(rep1);
    ReplayOne(rep1, a2);
    assert !HasId(rep1.arr, 2) && multiset{} + multiset{(DAY, 2)} == multiset{(DAY, 2)};
    assert ApplyEvent(rep1, a2)
        == Ok(EMPTY_ENGINE.(arr := [Ask(1, 5)], stops := [o], seen := {1, 2}, heap := multiset{(DAY, 2)}));
  }

  lemma GtdMark(cfg: EngineConfig, o: Order, st: EngineState, rep: EngineState)
    requires o == BuildOrder(GtdStop(), 100, 0)
    requires st == EMPTY_ENGINE.(arr := [Ask(1, 5)], stops := [o])
    requires rep == st.(seen := {1, 2}, heap := multiset{(DAY, 2)})
    ensures var (end, es) := Step(cfg, st, MarkAt(100));
      && HasId(end.arr, 2) && end.heap == multiset{}
      && ReplayAll(rep, es).Ok? && ReplayAll(rep, es).value.heap == rep.heap
  {
    FiredAlone(o);
    var (arr, events) := TriggerAll(st.arr, [o], 0);
    GtdFires(o, rep.arr);
    MarkOutcome(st, 1, 100, 100, 0);
    var passive := MarkPassive(rep, 100, 100);
    GtdPending(o, passive);
    MarkReplays(rep, 1, 100, 100, 0);
    MarkIsStep(cfg, st, MarkAt(100));
    hide Step, ApplyEvent, Pending, AllFilled, AllPass, TriggerAll, DropAll, ReplayAll, HasId, MarkStep, Sweep,
         PeakedAll, BuildOrder;
    TriggersReplay(passive, [o], 0);
    ReplayConcat(rep, [MarkPriceUpdate(1, 100, 100, 0)], events);
  }

  lemma GtdFires(o: Order, arr: seq<Order>)
    requires o == BuildOrder(GtdStop(), 100, 0) && arr == [Ask(1, 5)]
    ensures HasId(TriggerAll(arr, [o], 0).0, 2) && AllFilled(arr, [o], 0) && AllPass(arr, [o], 0)
  {
    GtdStopTrades(o);
    hide Match, FillEvents;
    assert [o][..0] == [];
    assert TriggerAll(arr, [], 0) == (arr, []);
    assert TriggerAll(arr, [o], 0).0[0].orderId == 2;
    assert AllFilled(arr, [], 0) && AllPass(arr, [], 0);
  }

  lemma GtdPending(o: Order, rep: EngineState)
    requires o == BuildOrder(GtdStop(), 100, 0)
    requires rep.arr == [Ask(1, 5)] && rep.stops == [o] && rep.seen == {1, 2}
    ensures Pending(rep, [o])
  {
  }
}
