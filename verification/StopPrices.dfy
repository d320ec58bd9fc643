// Stop-loss and take-profit orders: which price each waits for, and from which
// side.
module StopPrices {
  import opened Common
  import opened Arrivals
  import opened EngineSpec
  import opened Triggers
  import opened EngineInvariants
  import opened TrailingStops

  predicate IsStop(o: Order) {
    o.orderType.StopMarket? || o.orderType.StopLimit?
  }

  predicate IsTakeProfit(o: Order) {
    o.orderType.TakeProfitMarket? || o.orderType.TakeProfitLimit?
  }

  function StopPriceOf(o: Order): int {
    if o.stopPrice.Some? then o.stopPrice.value else 0
  }

  // A stop sells into a falling market and buys into a rising one; a take-profit
  // sells at a high and buys at a low.
  predicate WaitsForFall(o: Order) {
    (IsStop(o) && o.side.Sell?) || (IsTakeProfit(o) && o.side.Buy?)
  }

  predicate WaitsForRise(o: Order) {
    (IsStop(o) && o.side.Buy?) || (IsTakeProfit(o) && o.side.Sell?)
  }

  // ── One mark ──────────────────────────────────────────────────────────

  // After a mark no order waits whose price it reached, in the order's own
  // direction; and every order whose price it did not reach still waits.
  lemma MarkReaches(cfg: EngineConfig, st: EngineState, c: Command)
    requires Sound(st) && c.UpdateMarkPrice?
    ensures var st1 := Step(cfg, st, c).0;
      && (forall o :: o in st1.stops && IsStop(o) && o.side.Sell? ==> c.markPrice > StopPriceOf(o))
      && (forall o :: o in st1.stops && IsStop(o) && o.side.Buy? ==> c.markPrice < StopPriceOf(o))
      && (forall o :: o in st1.stops && IsTakeProfit(o) && o.side.Sell? ==> c.markPrice < StopPriceOf(o))
      && (forall o :: o in st1.stops && IsTakeProfit(o) && o.side.Buy? ==> c.markPrice > StopPriceOf(o))
      && (forall o :: o in st.stops && WaitsForFall(o) && c.markPrice > StopPriceOf(o) ==> o in st1.stops)
      && (forall o :: o in st.stops && WaitsForRise(o) && c.markPrice < StopPriceOf(o) ==> o in st1.stops)
  {
    SweptByPrice(cfg, st, c);
    hide Step, Fires;
    forall o | o in Step(cfg, st, c).0.stops
      ensures IsStop(o) && o.side.Sell? ==> c.markPrice > StopPriceOf(o)
      ensures IsStop(o) && o.side.Buy? ==> c.markPrice < StopPriceOf(o)
      ensures IsTakeProfit(o) && o.side.Sell? ==> c.markPrice < StopPriceOf(o)
      ensures IsTakeProfit(o) && o.side.Buy? ==> c.markPrice > StopPriceOf(o)
    {
      FiresAtPrice(o, c.markPrice);
    }
    forall o | o in st.stops
      ensures WaitsForFall(o) && c.markPrice > StopPriceOf(o) ==> o in Step(cfg, st, c).0.stops
      ensures WaitsForRise(o) && c.markPrice < StopPriceOf(o) ==> o in Step(cfg, st, c).0.stops
    {
      FiresAtPrice(o, c.markPrice);
    }
  }

  lemma FiresAtPrice(o: Order, mark: int)
    ensures IsStop(o) && o.side.Sell? ==> (Fires(o, mark) <==> mark <= StopPriceOf(o)) && WaitsForFall(o)
    ensures IsStop(o) && o.side.Buy? ==> (Fires(o, mark) <==> mark >= StopPriceOf(o)) && WaitsForRise(o)
    ensures IsTakeProfit(o) && o.side.Sell? ==> (Fires(o, mark) <==> mark >= StopPriceOf(o)) && WaitsForRise(o)
    ensures IsTakeProfit(o) && o.side.Buy? ==> (Fires(o, mark) <==> mark <= StopPriceOf(o)) && WaitsForFall(o)
    ensures WaitsForFall(o) ==> (Fires(o, mark) <==> mark <= StopPriceOf(o))
    ensures WaitsForRise(o) ==> (Fires(o, mark) <==> mark >= StopPriceOf(o))
  {
  }

  lemma SweptByPrice(cfg: EngineConfig, st: EngineState, c: Command)
    requires c.UpdateMarkPrice?
    ensures var stops := Step(cfg, st, c).0.stops;
      && (forall o :: o in stops ==> !Fires(o, c.markPrice))
      && (forall o :: o in st.stops && !o.orderType.TrailingStop? && !Fires(o, c.markPrice) ==> o in stops)
  {
    var peaked, test := PeakedAll(st.stops, c.markPrice), FiredBy(c.markPrice);
    MarkStops(cfg, st, c);
    SweepMembers(peaked, test);
    hide Sweep, Step, Fires;
    forall o | o in Sweep(peaked, 0, test).0 ensures !Fires(o, c.markPrice) {
      assert !test.Picks(o);
    }
    forall o | o in st.stops && !o.orderType.TrailingStop? && !Fires(o, c.markPrice)
      ensures o in Sweep(peaked, 0, test).0
    {
      PeakedMember(st.stops, c.markPrice, o);
      assert !test.Picks(o);
    }
  }

  // One order: a mark takes it exactly when it reaches the order's price.
  lemma MarkTakes(cfg: EngineConfig, st: EngineState, c: Command, o: Order)
    requires Sound(st) && c.UpdateMarkPrice? && o in st.stops && (WaitsForFall(o) || WaitsForRise(o))
    ensures var gone := if WaitsForFall(o) then c.markPrice <= StopPriceOf(o) else c.markPrice >= StopPriceOf(o);
      if gone then !HasId(Step(cfg, st, c).0.stops, o.orderId) else o in Step(cfg, st, c).0.stops
  {
    MarkStops(cfg, st, c);
    PeaksSound(st, c.markPrice);
    PeakedMember(st.stops, c.markPrice, o);
    assert Peaked(o, c.markPrice) == o;
    hide Apart, Sweep, Step, HasId, Sound, AllPositive, PeakedAll;
    SweepOne(PeakedAll(st.stops, c.markPrice), st.arr, FiredBy(c.markPrice), o);
  }

  // ── Its life ──────────────────────────────────────────────────────────

  ghost predicate FellTo(marks: seq<int>, price: int) {
    exists i :: 0 <= i < |marks| && marks[i] <= price
  }

  ghost predicate RoseTo(marks: seq<int>, price: int) {
    exists i :: 0 <= i < |marks| && marks[i] >= price
  }

  lemma ReachedCons(mark: int, rest: seq<int>, price: int)
    ensures FellTo([mark] + rest, price) <==> mark <= price || FellTo(rest, price)
    ensures RoseTo([mark] + rest, price) <==> mark >= price || RoseTo(rest, price)
  {
    var marks := [mark] + rest;
    assert marks[0] == mark && forall i :: 0 <= i < |rest| ==> marks[i + 1] == rest[i];
    if FellTo(marks, price) && mark > price {
      var i :| 0 <= i < |marks| && marks[i] <= price;
      assert rest[i - 1] <= price;
    }
    if RoseTo(marks, price) && mark < price {
      var i :| 0 <= i < |marks| && marks[i] >= price;
      assert rest[i - 1] >= price;
    }
  }

  // Over any run that leaves the order alone: it is gone if some mark fell, or
  // rose, to its stop price, and otherwise waits unchanged.
  lemma {:induction false} StopLife(cfg: EngineConfig, st: EngineState, cmds: seq<Command>, o: Order)
    requires Sound(st) && FreshRun(cfg, st, cmds) && cfg.lotSize > 0
    requires o in st.stops && (WaitsForFall(o) || WaitsForRise(o)) && forall c :: c in cmds ==> Spares(c, o)
    ensures var st', marks := Run(cfg, st, cmds).0, MarksOf(cmds);
      if (if WaitsForFall(o) then FellTo(marks, StopPriceOf(o)) else RoseTo(marks, StopPriceOf(o)))
      then !HasId(st'.stops, o.orderId)
      else o in st'.stops
    decreases |cmds|
  {
    hide Sound, Step, FreshId, HasId, FellTo, RoseTo, WaitsForFall, WaitsForRise;
    if cmds == [] {
      NothingReached(StopPriceOf(o));
    } else {
      var c, rest := cmds[0], cmds[1..];
      var st1 := Step(cfg, st, c).0;
      assert c in cmds && forall x :: x in rest ==> x in cmds;
      StepSound(cfg, st, c);
      if c.UpdateMarkPrice? {
        ReachedCons(c.markPrice, MarksOf(rest), StopPriceOf(o));
        MarkTakes(cfg, st, c, o);
        if o in st1.stops {
          NotHeld(st1.stops, o);
          StopLife(cfg, st1, rest, o);
        } else {
          GoneForGood(cfg, st1, rest, o.orderId);
        }
      } else {
        StopStays(cfg, st, c, o);
        StopLife(cfg, st1, rest, o);
      }
    }
  }

  lemma NotHeld(stops: seq<Order>, o: Order)
    requires o in stops
    ensures HasId(stops, o.orderId)
  {
    var k :| 0 <= k < |stops| && stops[k] == o;
  }

  lemma NothingReached(price: int)
    ensures !FellTo([], price) && !RoseTo([], price)
  {
  }
}
