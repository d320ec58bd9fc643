// Open interest: fills come in equal and opposite pairs, so the positions they
// project to net to nothing.
module OpenInterest {
  import opened Common
  import opened Positions
  import opened PostTradeSpec
  import opened FillFlows

  lemma FillNet(a: seq<Event>, e: Event, symbol: SymbolId)
    ensures NetFill(a + [e], symbol) == NetFill(a, symbol) + SignedFill(e, symbol)
  {
    NetConcat(a, [e], symbol);
    assert [e][1..] == [];
    assert NetFill([e], symbol) == SignedFill(e, symbol);
  }

  // A batch moves a symbol's net open interest by what its fills net to,
  // through flips, exact closes and self-trades alike.
  lemma {:induction false} BatchMovesOpenInterest(ps: PositionMap, events: seq<Event>, symbol: SymbolId)
    requires Open(ps) && forall e :: e in events && e.OrderFilled? ==> e.fillQty > 0
    ensures Open(Projected(ps, events))
    ensures NetOpenInterest(Projected(ps, events), symbol) == NetOpenInterest(ps, symbol) + NetFill(events, symbol)
  {
    hide FillPosition, NetOpenInterest, Open;
    if events != [] {
      var n := |events| - 1;
      var e := events[n];
      assert e in events;
      BatchMovesOpenInterest(ps, events[..n], symbol);
      assert events == events[..n] + [e];
      FillNet(events[..n], e, symbol);
      if e.OrderFilled? {
        var k := PositionKey(e.userId, e.symbol);
        FillMovesOpenInterest(Projected(ps, events[..n]), k, e.side, e.fillQty, e.fillPrice, symbol);
        FillMovesSignedSize(Projected(ps, events[..n]), k, e.side, e.fillQty, e.fillPrice, k);
      }
    }
  }

  ghost predicate NetFlat(ps: PositionMap) {
    forall symbol: SymbolId :: NetOpenInterest(ps, symbol) == 0
  }

  // A complete engine batch leaves no net open interest in any symbol.
  lemma BatchKeepsFlat(ps: PositionMap, events: seq<Event>)
    requires Open(ps) && NetFlat(ps) && Balanced(events)
    ensures Open(Projected(ps, events)) && NetFlat(Projected(ps, events))
  {
    hide NetOpenInterest, Projected, NetFill;
    BatchMovesOpenInterest(ps, events, 0);
    forall symbol: SymbolId ensures NetOpenInterest(Projected(ps, events), symbol) == 0 {
      BatchMovesOpenInterest(ps, events, symbol);
    }
  }
}
