// The life of a stop order: which mark fires it, and where a trailing peak stands.
module TrailingStops {
  import opened Common
  import opened Arrivals
  import opened OrderBooks
  import opened Matcher
  import opened EngineSpec
  import opened Triggers
  import opened EngineInvariants

  // After a mark update the sweep has taken exactly the orders whose condition
  // the new mark meets, peaks moved first, and none of those is left.
  lemma MarkSweepComplete(st: EngineState, symbol: SymbolId, mark: int, index: int, ts: Micros)
    ensures var st' := MarkStep(st, symbol, mark, index, ts).0;
      var taken := Sweep(PeakedAll(st.stops, mark), 0, FiredBy(mark)).1;
      && multiset(st'.stops) + multiset(taken) == multiset(PeakedAll(st.stops, mark))
      && (forall o :: o in taken ==> Fires(o, mark))
      && (forall o :: o in st'.stops ==> !Fires(o, mark))
  {
    hide Sweep, TriggerAll;
    var test := FiredBy(mark);
    SweepSplits(PeakedAll(st.stops, mark), 0, test);
    forall o | o in MarkStep(st, symbol, mark, index, ts).0.stops ensures !Fires(o, mark) {
      assert !test.Picks(o);
    }
    forall o | o in Sweep(PeakedAll(st.stops, mark), 0, test).1 ensures Fires(o, mark) {
      assert test.Picks(o);
    }
  }

  // ── The peak of a trailing stop ───────────────────────────────────────

  function Further(side: Side, peak: int, mark: int): int {
    if side.Sell? then Max(mark, peak) else Min(mark, peak)
  }

  function PeakAfter(side: Side, peak: int, marks: seq<int>): int
    decreases |marks|
  {
    if marks == [] then peak else PeakAfter(side, Further(side, peak, marks[0]), marks[1..])
  }

  // The peak is the highest (sell) or lowest (buy) of the first peak and all marks.
  lemma {:induction false} PeakIsExtreme(side: Side, peak: int, marks: seq<int>)
    ensures var p := PeakAfter(side, peak, marks);
      && (p == peak || p in marks)
      && (if side.Sell? then peak <= p else p <= peak)
      && (forall m :: m in marks ==> if side.Sell? then m <= p else p <= m)
    decreases |marks|
  {
    if marks != [] {
      PeakIsExtreme(side, Further(side, peak, marks[0]), marks[1..]);
      forall m | m in marks ensures m == marks[0] || m in marks[1..] {}
    }
  }

  predicate Retraces(side: Side, peak: int, delta: int, mark: int) {
    if side.Buy? then mark >= peak + delta else mark <= peak - delta
  }

  // Some mark stands delta away from the peak reached by then.
  ghost predicate Retraced(side: Side, peak: int, delta: int, marks: seq<int>) {
    exists i :: 0 <= i < |marks| && Retraces(side, PeakAfter(side, peak, marks[..i + 1]), delta, marks[i])
  }

  lemma RetracedCons(side: Side, peak: int, delta: int, marks: seq<int>)
    requires marks != []
    ensures var p := Further(side, peak, marks[0]);
      Retraced(side, peak, delta, marks) <==>
        Retraces(side, p, delta, marks[0]) || Retraced(side, p, delta, marks[1..])
  {
    var p := Further(side, peak, marks[0]);
    assert marks[..1] == [marks[0]] && [marks[0]][1..] == [];
    assert PeakAfter(side, peak, marks[..1]) == p;
    forall i | 0 <= i < |marks| - 1
      ensures PeakAfter(side, peak, marks[..i + 2]) == PeakAfter(side, p, marks[1..][..i + 1])
      ensures marks[1..][i] == marks[i + 1]
    {
      assert marks[..i + 2][1..] == marks[1..][..i + 1];
    }
    if Retraced(side, peak, delta, marks) {
      var i :| 0 <= i < |marks| && Retraces(side, PeakAfter(side, peak, marks[..i + 1]), delta, marks[i]);
      if i > 0 {
        assert PeakAfter(side, peak, marks[..(i - 1) + 2]) == PeakAfter(side, p, marks[1..][..(i - 1) + 1]);
      }
    }
    if Retraced(side, p, delta, marks[1..]) {
      var i :| 0 <= i < |marks[1..]| &&
               Retraces(side, PeakAfter(side, p, marks[1..][..i + 1]), delta, marks[1..][i]);
      assert Retraces(side, PeakAfter(side, peak, marks[..(i + 1) + 1]), delta, marks[i + 1]);
    }
  }

  function MarksOf(cmds: seq<Command>): seq<int> {
    if cmds == [] then []
    else if cmds[0].UpdateMarkPrice? then [cmds[0].markPrice] + MarksOf(cmds[1..])
    else MarksOf(cmds[1..])
  }

  // A command that does not cancel the order and does not reuse its id.
  predicate Spares(c: Command, o: Order) {
    && !(c.CancelOrder? && c.orderId == o.orderId && c.userId == o.userId)
    && !(c.CancelAllOrders? && c.userId == o.userId && c.symbol == o.symbol)
    && !(c.NewOrder? && c.orderId == o.orderId)
  }

  ghost predicate IsTrailing(o: Order) {
    o.orderType.TrailingStop? && o.trailingDelta.Some? && o.trailingPeak.Some?
  }

  lemma StopStays(cfg: EngineConfig, st: EngineState, c: Command, o: Order)
    requires Sound(st) && o in st.stops && Spares(c, o) && !c.UpdateMarkPrice?
    ensures o in Step(cfg, st, c).0.stops
  {
    hide Distinct, AllLimit, AllPositive, Match;
    match c
    case NewOrder(_, _, _, _, _, _, _, _, _, _, _, _, _, _) =>
    case CancelOrder(id, user, _, ts) =>
      var i := IndexOf(st.stops, id);
      if i < |st.stops| {
        var others := st.stops[..i] + st.stops[i + 1..];
        var k :| 0 <= k < |st.stops| && st.stops[k] == o;
        if k != i {
          assert others[if k < i then k else k - 1] == o;
        }
      }
    case AmendOrder(_, _, _, _, _, _) =>
    case CancelAllOrders(user, symbol, ts) =>
      SweepMembers(st.stops, OwnedBy(user, symbol));
    case ComputeFunding(symbol, ts) =>
    case AdminCredit(_, _, _, _) =>
  }

  lemma MarkStops(cfg: EngineConfig, st: EngineState, c: Command)
    requires c.UpdateMarkPrice?
    ensures Step(cfg, st, c).0.stops == Sweep(PeakedAll(st.stops, c.markPrice), 0, FiredBy(c.markPrice)).0
  {
    hide Sweep, TriggerAll;
  }

  lemma MarkMoves(cfg: EngineConfig, st: EngineState, c: Command, o: Order)
    requires Sound(st) && o in st.stops && IsTrailing(o) && c.UpdateMarkPrice?
    ensures var p := Further(o.side, o.trailingPeak.value, c.markPrice);
      if Retraces(o.side, p, o.trailingDelta.value, c.markPrice)
      then !HasId(Step(cfg, st, c).0.stops, o.orderId)
      else o.(trailingPeak := Some(p)) in Step(cfg, st, c).0.stops
  {
    MarkStops(cfg, st, c);
    PeaksSound(st, c.markPrice);
    PeakedMember(st.stops, c.markPrice, o);
    hide Apart, Sweep, Step, HasId, Sound, AllPositive, PeakedAll;
    SweepOne(PeakedAll(st.stops, c.markPrice), st.arr, FiredBy(c.markPrice), Peaked(o, c.markPrice));
  }

  lemma PeakedMember(stops: seq<Order>, mark: int, o: Order)
    requires o in stops
    ensures Peaked(o, mark) in PeakedAll(stops, mark)
  {
    var k :| 0 <= k < |stops| && stops[k] == o;
    assert PeakedAll(stops, mark)[k] == Peaked(o, mark);
  }

  lemma SweepOne(stops: seq<Order>, arr: seq<Order>, test: StopTest, o: Order)
    requires Apart(stops, arr) && o in stops
    ensures if test.Picks(o) then !HasId(Sweep(stops, 0, test).0, o.orderId) else o in Sweep(stops, 0, test).0
  {
    hide Apart, Sweep, HasId;
    SweepMembers(stops, test);
    SweepSound(stops, arr, test);
  }

  lemma GoneStays(cfg: EngineConfig, st: EngineState, c: Command, id: OrderId)
    requires !HasId(st.stops, id) && !(c.NewOrder? && c.orderId == id)
    ensures !HasId(Step(cfg, st, c).0.stops, id)
  {
    hide Match, Sweep, TriggerAll, FillEvents;
    match c
    case NewOrder(_, _, _, _, _, _, _, _, _, _, _, _, _, _) =>
    case CancelOrder(i, user, _, ts) => GoneAfterCancel(st, i, user, ts, id);
    case AmendOrder(_, _, _, _, _, _) =>
    case CancelAllOrders(user, symbol, ts) =>
      SweepMembers(st.stops, OwnedBy(user, symbol));
      NotInPart(st.stops, Sweep(st.stops, 0, OwnedBy(user, symbol)).0, id);
    case UpdateMarkPrice(symbol, mark, index, ts) =>
      assert !HasId(PeakedAll(st.stops, mark), id);
      SweepMembers(PeakedAll(st.stops, mark), FiredBy(mark));
      NotInPart(PeakedAll(st.stops, mark), Sweep(PeakedAll(st.stops, mark), 0, FiredBy(mark)).0, id);
    case ComputeFunding(symbol, ts) =>
    case AdminCredit(_, _, _, _) =>
  }

  lemma GoneAfterCancel(st: EngineState, i: OrderId, user: UserId, ts: Micros, id: OrderId)
    requires !HasId(st.stops, id)
    ensures !HasId(CancelStep(st, i, user, ts).0.stops, id)
  {
    var stops := CancelStep(st, i, user, ts).0.stops;
    forall o | o in stops ensures o in st.stops {}
    NotInPart(st.stops, stops, id);
  }

  lemma {:induction false} GoneForGood(cfg: EngineConfig, st: EngineState, cmds: seq<Command>, id: OrderId)
    requires !HasId(st.stops, id)
    requires forall c :: c in cmds ==> !(c.NewOrder? && c.orderId == id)
    ensures !HasId(Run(cfg, st, cmds).0.stops, id)
    decreases |cmds|
  {
    hide Step, HasId;
    if cmds != [] {
      assert cmds[0] in cmds && forall c :: c in cmds[1..] ==> c in cmds;
      GoneStays(cfg, st, cmds[0], id);
      GoneForGood(cfg, Step(cfg, st, cmds[0]).0, cmds[1..], id);
    }
  }

  // Over any run that leaves the order alone: it is still waiting, with its
  // peak at the extreme of all marks since, iff no mark has yet retraced by
  // delta from the peak of that moment. The first that does fires it.
  lemma {:induction false} TrailingStopLife(cfg: EngineConfig, st: EngineState, cmds: seq<Command>, o: Order)
    requires Sound(st) && FreshRun(cfg, st, cmds) && cfg.lotSize > 0
    requires o in st.stops && IsTrailing(o) && forall c :: c in cmds ==> Spares(c, o)
    ensures var st', marks := Run(cfg, st, cmds).0, MarksOf(cmds);
      var peak, delta := o.trailingPeak.value, o.trailingDelta.value;
      if Retraced(o.side, peak, delta, marks) then !HasId(st'.stops, o.orderId)
      else o.(trailingPeak := Some(PeakAfter(o.side, peak, marks))) in st'.stops
    decreases |cmds|
  {
    hide Sound, Step, FreshId, HasId, Retraces, Retraced;
    var marks := MarksOf(cmds);
    if cmds == [] {
      NothingRetraced(o);
    } else {
      var c, rest := cmds[0], cmds[1..];
      var st1 := Step(cfg, st, c).0;
      assert c in cmds && forall x :: x in rest ==> x in cmds;
      StepSound(cfg, st, c);
      if c.UpdateMarkPrice? {
        var p := Further(o.side, o.trailingPeak.value, c.markPrice);
        assert marks[0] == c.markPrice && marks[1..] == MarksOf(rest);
        RetracedCons(o.side, o.trailingPeak.value, o.trailingDelta.value, marks);
        MarkMoves(cfg, st, c, o);
        if Retraces(o.side, p, o.trailingDelta.value, c.markPrice) {
          GoneForGood(cfg, st1, rest, o.orderId);
        } else {
          TrailingStopLife(cfg, st1, rest, o.(trailingPeak := Some(p)));
        }
      } else {
        StopStays(cfg, st, c, o);
        TrailingStopLife(cfg, st1, rest, o);
      }
    }
  }

  lemma NothingRetraced(o: Order)
    requires IsTrailing(o)
    ensures !Retraced(o.side, o.trailingPeak.value, o.trailingDelta.value, [])
  {
  }
}
