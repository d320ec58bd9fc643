// The post-trade processor: positions, ledger, mark price and the two counters,
// updated in place as engine events arrive.
module PostTrade {
  import opened Common
  import opened LedgerSpec
  import opened LedgerObject
  import opened LedgerChecks
  import opened Positions
  import opened PostTradeSpec
  import opened PostTradeSafety

  class PostTradeProcessor {
    const positions: PositionManager
    const ledger: LedgerBook
    var markPrice: int
    var fundingPeriodId: nat
    var pnlSeq: nat

    ghost function View(): PostState
      reads this, positions, ledger
    {
      PostState(positions.positions, markPrice, Money(ledger.View(), pnlSeq, fundingPeriodId))
    }

    // The ledger passes its own check at all times.
    ghost predicate Valid()
      reads ledger
    {
      Verifies(ledger.View())
    }

    constructor ()
      ensures Valid() && View() == EMPTY_POST_STATE
      ensures fresh(positions) && fresh(ledger)
    {
      positions := new PositionManager();
      ledger := new LedgerBook();
      markPrice, fundingPeriodId, pnlSeq := 0, 0, 0;
      new;
      EmptyVerifies();
    }

    // Open the account, then settle a capped amount; the account is known, so
    // this cannot fail.
    method SettleCapped(u: UserId, signed: int, key: Key, ts: Micros) returns (moved: int)
      requires Valid()
      modifies ledger
      ensures Valid() && (ledger.View(), moved) == Settle(old(ledger.View()), u, signed, key, ts)
    {
      hide LedgerBook.View, Verifies, Ledger.Opened, Apply;
      SettleVerifies(ledger.View(), u, signed, key, ts);
      SettleCannotFail(ledger.View(), u, signed, key, ts);
      ApplyCapped(ledger.View().Opened(u), u, signed, key, ts);
      ledger.GetOrCreateAccount(u);
      var r := ledger.SettleRealizedPnlCapped(u, signed, key, ts);
      assert r.Ok?;
      moved := r.value;
    }

    // A fill in the position's direction increases it; an opposite one reduces,
    // closes or flips it. Returns the profit realized.
    method ApplyFillToPosition(user: UserId, symbol: SymbolId, side: Side, qty: int, price: int)
      returns (pnl: int)
      modifies positions
      ensures var k := PositionKey(user, symbol);
        && positions.positions == FillPosition(old(positions.positions), k, side, qty, price)
        && pnl == FillPnl(old(positions.positions), k, side, qty, price)
    {
      hide PnlOf, OpenOrIncrease;
      var fillSide := OpeningSide(side);
      var cur := positions.GetPosition(user, symbol);
      if cur.None? || cur.value.side == fillSide || cur.value.size == 0 {
        var _ := positions.OpenOrIncreasePosition(user, symbol, fillSide, qty, price, SCALE);
        return 0;
      }
      var reduceQty := Min(qty, cur.value.size);
      var r := positions.ReduceOrClosePosition(user, symbol, reduceQty, price);
      assert r.Ok?;
      pnl := r.value.0;
      var leftover := qty - reduceQty;
      if leftover > 0 {
        var _ := positions.OpenOrIncreasePosition(user, symbol, fillSide, leftover, price, SCALE);
      }
    }

    // Settle a realized profit or loss. A loss against an empty wallet is not
    // attempted, so that it takes no key.
    method SettleRealizedPnl(u: UserId, symbol: SymbolId, pnl: int, seqTag: nat, ts: Micros) returns (moved: int)
      requires Valid()
      modifies ledger
      ensures Valid()
      ensures (ledger.View(), moved)
              == if pnl == 0 || (pnl < 0 && old(ledger.View()).Bal(u, Funding).available == 0)
                 then (old(ledger.View()), 0)
                 else Settle(old(ledger.View()), u, pnl, PnlKey(seqTag, u, symbol), ts)
    {
      hide LedgerBook.View, Verifies, Settle, Ledger.Bal;
      if pnl == 0 { return 0; }
      if pnl < 0 {
        var b := ledger.GetBalance(u, Funding);
        var available := if b.Some? then b.value.available else 0;
        if available == 0 { return 0; }
      }
      moved := SettleCapped(u, pnl, PnlKey(seqTag, u, symbol), ts);
    }

    // The live reaction to one fill.
    method ConsumeFill(user: UserId, symbol: SymbolId, side: Side, qty: int, price: int, ts: Micros)
      returns (out: seq<Event>)
      requires Valid()
      modifies this`pnlSeq, positions, ledger
      ensures Valid()
      ensures var before := old(View()); var k := PositionKey(user, symbol);
        var (m, facts) := SettlePnl(before.money, user, symbol, FillPnl(before.positions, k, side, qty, price), ts);
        && View() == before.(positions := FillPosition(before.positions, k, side, qty, price), money := m)
        && out == facts
    {
      hide LedgerBook.View, Verifies, Settle, Ledger.Bal, FillPosition, FillPnl;
      var pnl := ApplyFillToPosition(user, symbol, side, qty, price);
      out := [];
      if pnl != 0 {
        var nextSeq := pnlSeq + 1;
        var moved := SettleRealizedPnl(user, symbol, pnl, nextSeq, ts);
        if moved != 0 {
          pnlSeq := nextSeq;
          out := [RealizedPnl(user, symbol, moved, ts)];
        }
      }
    }

    // The open positions in whatever order the map yields them.
    method SnapshotRows() returns (rows: seq<PositionKey>, snapshot: seq<Position>)
      ensures Enumerates(rows, positions.positions)
      ensures |snapshot| == |rows|
      ensures forall i :: 0 <= i < |rows| ==> snapshot[i] == positions.positions[rows[i]]
    {
      rows, snapshot := [], [];
      var left := positions.positions.Keys;
      while left != {}
        invariant left <= positions.positions.Keys && |snapshot| == |rows|
        invariant forall k :: k in rows <==> k in positions.positions && k !in left && positions.positions[k].size != 0
        invariant forall i, j :: 0 <= i < j < |rows| ==> rows[i] != rows[j]
        invariant forall i :: 0 <= i < |rows| ==> snapshot[i] == positions.positions[rows[i]]
        decreases |left|
      {
        var k :| k in left;
        var p := positions.positions[k];
        if p.size != 0 {
          rows, snapshot := rows + [k], snapshot + [p];
        }
        left := left - {k};
      }
    }

    // One funding tick over the open positions, in the order the map yields them.
    method SettleFunding(rate: int, ts: Micros) returns (out: seq<Event>, ghost rows: seq<PositionKey>)
      requires Valid()
      modifies this`fundingPeriodId, ledger
      ensures Valid() && Enumerates(rows, positions.positions)
      ensures var before := old(View());
        var (m, facts) := SettleTick(before.money, before.positions, rows, before.mark, rate, ts);
        View() == before.(money := m) && out == facts
    {
      hide LedgerBook.View, Verifies, Settle, SettleRow, Enumerates, PaymentOf;
      out := [];
      var keys, snapshot := SnapshotRows();
      EnumeratesKnown(keys, positions.positions);
      rows := keys;
      if |keys| != 0 && markPrice == 0 { return; }
      fundingPeriodId := fundingPeriodId + 1;
      var period, mark := fundingPeriodId, markPrice;
      ghost var l := ledger.View();
      for i := 0 to |keys|
        invariant Valid() && fundingPeriodId == period && markPrice == mark
        invariant (ledger.View(), out) == SettleRows(l, positions.positions, keys[..i], mark, rate, period, ts)
      {
        assert keys[..i + 1][..i] == keys[..i];
        assert keys[i] in keys;
        var more := SettlePosition(keys[i], snapshot[i], mark, rate, period, ts);
        out := out + more;
      }
      assert keys[..|keys|] == keys;
      var bad := VerifyAllInvariants(ledger);
      assert bad.None?;
    }

    // One row of a funding tick.
    method SettlePosition(k: PositionKey, p: Position, mark: int, rate: int, period: nat, ts: Micros)
      returns (out: seq<Event>)
      requires Valid()
      modifies ledger
      ensures Valid()
      ensures (ledger.View(), out) == SettleRow(old(ledger.View()), k, PaymentOf(p, mark, rate), period, ts)
    {
      hide LedgerBook.View, Verifies, Settle, Mul;
      var notional := Mul(p.size, mark);
      var signedRate := match p.side {
        case Long => rate
        case Both => rate
        case Short => -rate
      };
      var payment := Mul(notional, signedRate);
      if payment == 0 { return []; }
      var moved := SettleCapped(k.user, -payment, FundingKey(period, k.user, k.symbol), ts);
      if moved == 0 { return []; }
      return [FundingSettled(k.user, k.symbol, period, -moved, ts)];
    }

    // The live path over a batch of engine events. `rows` records the order in
    // which the position map was walked at each funding tick.
    method Consume(events: seq<Event>, ts: Micros) returns (out: seq<Event>, ghost rows: seq<seq<PositionKey>>)
      requires Valid()
      modifies this, positions, ledger
      ensures Valid() && RowsFit(old(View()).positions, events, rows)
      ensures (View(), out) == PostTradeSpec.Consume(old(View()), events, rows, ts)
    {
      out, rows := [], [];
      ghost var st := View();
      for i := 0 to |events|
        invariant Valid() && RowsFit(st.positions, events[..i], rows)
        invariant View().positions == Projected(st.positions, events[..i])
        invariant (View(), out) == PostTradeSpec.Consume(st, events[..i], rows, ts)
      {
        hide PostTradeProcessor.View, PostTradeProcessor.Valid, PostTradeSpec.ConsumeOne, Project, RowsFit;
        ghost var before := View();
        var more, row := ConsumeEvent(events[i], ts);
        ConsumeSnoc(st, events[..i], rows, events[i], row, ts);
        assert events[..i + 1] == events[..i] + [events[i]];
        out, rows := out + more, rows + [row];
      }
      assert events[..|events|] == events;
    }

    method ConsumeEvent(e: Event, ts: Micros) returns (out: seq<Event>, ghost row: seq<PositionKey>)
      requires Valid()
      modifies this, positions, ledger
      ensures Valid() && (e.FundingRateUpdate? ==> Enumerates(row, old(View()).positions))
      ensures (View(), out) == ConsumeOne(old(View()), e, row, ts)
    {
      hide LedgerBook.View, Verifies, SettlePnl, SettleTick, Enumerates, FillPosition, FillPnl;
      out, row := [], [];
      match e {
        case OrderFilled(_, userId, symbol, side, fillPrice, fillQty, _, _, _) =>
          out := ConsumeFill(userId, symbol, side, fillQty, fillPrice, ts);
        case MarkPriceUpdate(_, mark, _, _) =>
          markPrice := mark;
        case FundingRateUpdate(_, fundingRate, _) =>
          out, row := SettleFunding(fundingRate, ts);
        case _ =>
      }
    }

    // Admin credit; the handler in front refuses amounts that are not positive.
    method HandleAdminCredit(u: UserId, amount: int, key: Key, ts: Micros) returns (out: seq<Event>)
      requires Valid() && amount > 0
      modifies ledger
      ensures Valid()
      ensures var (m, facts) := Credit(old(View()).money, u, amount, key, ts);
        View() == old(View()).(money := m) && out == facts
    {
      hide LedgerBook.View, Verifies, Ledger.Opened, Apply;
      DepositVerifies(ledger.View(), u, amount, key, ts);
      ApplyDeposit(ledger.View().Opened(u), u, amount, key, ts);
      ledger.GetOrCreateAccount(u);
      var r := ledger.Deposit(u, amount, key, ts);
      assert r.Ok?;
      return [AdminCredited(u, amount, key, ts)];
    }

    // Replay of one logged event: positions from fills, money only from facts.
    method ApplyEvent(e: Event)
      requires Valid()
      modifies this, positions, ledger
      ensures Valid() && View() == ApplyLogged(old(View()), e)
    {
      hide LedgerBook.View, Verifies, Ledger.Opened, Apply, Settle, FillPosition, FillPnl;
      match e {
        case OrderFilled(_, userId, symbol, side, fillPrice, fillQty, _, _, _) =>
          var _ := ApplyFillToPosition(userId, symbol, side, fillQty, fillPrice);
        case MarkPriceUpdate(_, mark, _, _) =>
          markPrice := mark;
        case AdminCredited(u, amount, key, ts) =>
          DepositVerifies(ledger.View(), u, amount, key, ts);
          ApplyDeposit(ledger.View().Opened(u), u, amount, key, ts);
          ledger.GetOrCreateAccount(u);
          var _ := ledger.Deposit(u, amount, key, ts);
        case RealizedPnl(u, symbol, amount, ts) =>
          pnlSeq := pnlSeq + 1;
          var _ := SettleCapped(u, amount, PnlKey(pnlSeq, u, symbol), ts);
        case FundingSettled(u, symbol, period, amount, ts) =>
          var _ := SettleCapped(u, -amount, FundingKey(period, u, symbol), ts);
          if period > fundingPeriodId {
            fundingPeriodId := period;
          }
        case _ =>
      }
    }
  }

  lemma EnumeratesKnown(rows: seq<PositionKey>, ps: PositionMap)
    requires Enumerates(rows, ps)
    ensures forall k :: k in rows ==> k in ps
  {
  }

  lemma ApplyCapped(l: Ledger, u: UserId, signed: int, key: Key, ts: Micros)
    ensures Apply(l, OpSettleCapped(u, signed), key, ts)
            == Checked(l, OpSettleCapped(u, signed), key, AfterCapped(l.Keyed(key), u, signed, key, ts))
  {
  }

  lemma ApplyDeposit(l: Ledger, u: UserId, amount: int, key: Key, ts: Micros)
    ensures Apply(l, OpDeposit(u, amount), key, ts)
            == Checked(l, OpDeposit(u, amount), key, (AfterDeposit(l.Keyed(key), u, amount, key, ts), Ok(0)))
  {
  }

  lemma ConsumeSnoc(st: PostState, events: seq<Event>, rows: seq<seq<PositionKey>>, e: Event, row: seq<PositionKey>,
                    ts: Micros)
    requires RowsFit(st.positions, events, rows)
    requires e.FundingRateUpdate? ==> Enumerates(row, Projected(st.positions, events))
    ensures RowsFit(st.positions, events + [e], rows + [row])
    ensures Projected(st.positions, events + [e]) == Project(Projected(st.positions, events), e)
    ensures var (s, facts) := PostTradeSpec.Consume(st, events, rows, ts);
      var (s', more) := ConsumeOne(s, e, row, ts);
      && PostTradeSpec.Consume(st, events + [e], rows + [row], ts) == (s', facts + more)
      && s'.positions == Project(s.positions, e)
  {
    hide ConsumeOne, Project, Enumerates;
    var n := |events|;
    assert (events + [e])[..n] == events && (rows + [row])[..n] == rows;
    forall i | 0 <= i <= n && (events + [e])[i].FundingRateUpdate?
      ensures Enumerates((rows + [row])[i], Projected(st.positions, (events + [e])[..i]))
    {
      assert i < n ==> (events + [e])[..i] == events[..i];
    }
    ConsumeOneProjects(PostTradeSpec.Consume(st, events, rows, ts).0, e, row, ts);
  }

  lemma ConsumeOneProjects(s: PostState, e: Event, row: seq<PositionKey>, ts: Micros)
    ensures ConsumeOne(s, e, row, ts).0.positions == Project(s.positions, e)
    ensures ConsumeOne(s, e, row, ts).0.mark == MarkAfter(s.mark, e)
  {
  }
}
