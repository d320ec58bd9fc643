// The mark and index prices: the last ones given, on both sides of the exchange.
module Marks {
  import opened Common
  import opened Arrivals
  import opened Matcher
  import opened EngineSpec
  import opened EngineInvariants
  import opened TakerReplay
  import opened StopReplay
  import opened TrailingStops
  import opened PostTradeSpec
  import opened PostTradeReplay

  // Only a mark update moves mark and index, only a funding command the rate.
  lemma StepMarks(cfg: EngineConfig, st: EngineState, c: Command)
    ensures var st1 := Step(cfg, st, c).0;
      && (if c.UpdateMarkPrice? then st1.mark == c.markPrice && st1.index == c.indexPrice
          else st1.mark == st.mark && st1.index == st.index)
      && (!c.ComputeFunding? ==> st1.rate == st.rate)
  {
    hide Match, Sweep, TriggerAll, FillEvents;
  }

  // After a run the mark is the last one given.
  lemma {:induction false} RunMarks(cfg: EngineConfig, st: EngineState, cmds: seq<Command>)
    ensures var marks := MarksOf(cmds);
      Run(cfg, st, cmds).0.mark == if marks == [] then st.mark else marks[|marks| - 1]
    decreases |cmds|
  {
    hide Step;
    if cmds != [] {
      StepMarks(cfg, st, cmds[0]);
      RunMarks(cfg, Step(cfg, st, cmds[0]).0, cmds[1..]);
    }
  }

  // ── Post-trade sees the same mark ─────────────────────────────────────

  ghost predicate NoMarks(es: seq<Event>) {
    forall e :: e in es ==> !e.MarkPriceUpdate?
  }

  lemma {:induction false} Unmarked(mark: int, es: seq<Event>)
    requires NoMarks(es)
    ensures Marked(mark, es) == mark
  {
    if es != [] {
      assert es[|es| - 1] in es;
      Unmarked(mark, es[..|es| - 1]);
    }
  }

  lemma {:induction false} MarkedConcat(mark: int, a: seq<Event>, b: seq<Event>)
    ensures Marked(mark, a + b) == Marked(Marked(mark, a), b)
  {
    if b == [] {
      assert a + b == a;
    } else {
      var n := |b| - 1;
      assert (a + b)[..|a + b| - 1] == a + b[..n];
      MarkedConcat(mark, a, b[..n]);
    }
  }

  lemma FillsAreNoMarks(arr: seq<Order>, t: Order, symbol: SymbolId, ts: Micros)
    ensures var m := Match(arr, t); NoMarks(FillEvents(m.arr, m.fills, symbol, ts, m.taker.remaining))
  {
    var m := Match(arr, t);
    hide Match;
    FillEventsOnly(m.arr, m.fills, symbol, ts, m.taker.remaining);
    hide FillEvents;
  }

  lemma PlaceHasNoMarks(st: EngineState, o: Order)
    ensures NoMarks(PlaceStep(st, o).1)
  {
    FillsAreNoMarks(st.arr, o, o.symbol, o.timestamp);
    hide Match, FillEvents;
  }

  lemma AmendHasNoMarks(st: EngineState, c: Command)
    requires c.AmendOrder?
    ensures NoMarks(AmendStep(st, c).1)
  {
    hide Reprice;
    var found := Lookup(st.arr, c.orderId);
    if found.Some? { RepriceHasNoMarks(st, c, found.value); }
  }

  lemma RepriceHasNoMarks(st: EngineState, c: Command, o: Order)
    requires c.AmendOrder?
    ensures NoMarks(Reprice(st, c, o).1)
  {
    var arr := Keep(st.arr, NotId(c.orderId));
    var price := if c.newPrice.Some? then c.newPrice.value else o.price;
    var qty := if c.newQuantity.Some? then c.newQuantity.value else o.remaining;
    FillsAreNoMarks(arr, o.(price := price, remaining := qty, original := qty, timestamp := c.timestamp), c.symbol,
                    c.timestamp);
    hide Match, FillEvents, Keep;
  }

  lemma MarkIsFirst(st: EngineState, symbol: SymbolId, mark: int, index: int, ts: Micros, before: int)
    ensures Marked(before, MarkStep(st, symbol, mark, index, ts).1) == mark
  {
    var taken := Sweep(PeakedAll(st.stops, mark), 0, FiredBy(mark)).1;
    var events := TriggerAll(st.arr, taken, ts).1;
    TriggerEventsOnly(st.arr, taken, ts);
    hide Sweep, TriggerAll, PeakedAll;
    var first := MarkPriceUpdate(symbol, mark, index, ts);
    assert [first][..0] == [];
    MarkedConcat(before, [first], events);
    Unmarked(mark, events);
  }

  // What a command's events do to post-trade's mark is what it did to the
  // engine's.
  lemma StepMarked(cfg: EngineConfig, st: EngineState, c: Command)
    ensures Marked(st.mark, Step(cfg, st, c).1) == Step(cfg, st, c).0.mark
  {
    StepMarks(cfg, st, c);
    hide PlaceStep, AmendStep, MarkStep, Marked;
    match c
    case NewOrder(_, _, _, _, _, _, _, _, _, _, _, _, _, _) =>
      var price := EffectivePrice(c.orderType, c.side, c.price);
      if price.Some? && IcebergOk(cfg, c.orderType, c.visibleQuantity) {
        PlaceHasNoMarks(st, BuildOrder(c, price.value, st.mark));
      }
      Unmarked(st.mark, Step(cfg, st, c).1);
    case AmendOrder(_, _, _, _, _, _) =>
      AmendHasNoMarks(st, c);
      Unmarked(st.mark, Step(cfg, st, c).1);
    case UpdateMarkPrice(symbol, mark, index, ts) => MarkIsFirst(st, symbol, mark, index, ts, st.mark);
    case _ => Unmarked(st.mark, Step(cfg, st, c).1);
  }
}
