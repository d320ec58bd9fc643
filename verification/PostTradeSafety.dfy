// Post-trade never breaks the ledger's own check: it only deposits and settles
// capped amounts.
module PostTradeSafety {
  import opened Common
  import opened LedgerSpec
  import opened LedgerTotals
  import opened Conservation
  import opened Solvency
  import opened LedgerChecks
  import opened PostTradeSpec
  import Positions

  // A capped settlement for an opened account cannot fail.
  lemma SettleCannotFail(l: Ledger, u: UserId, signed: int, key: Key, ts: Micros)
    ensures Apply(l.Opened(u), OpSettleCapped(u, signed), key, ts).1.Ok?
  {
  }

  lemma OpenedVerifies(l: Ledger, u: UserId)
    requires Verifies(l)
    ensures Verifies(l.Opened(u))
  {
    hide NonNegative, UserTotal, SystemTotal, Ledger.Bal;
    GapOpened(l, u);
    OpenedSame(l, u);
  }

  lemma OpenedSame(l: Ledger, u: UserId)
    ensures forall v, w :: l.Opened(u).Bal(v, w) == l.Bal(v, w)
    ensures forall w :: l.Opened(u).Sys(w) == l.Sys(w)
    ensures l.Opened(u).journal == l.journal
  {
  }

  lemma NoEscrow(l: Ledger, op: LedgerOp, key: Key, ts: Micros)
    requires op.OpDeposit? || op.OpSettleCapped?
    ensures EscrowPnl(Apply(l, op, key, ts).0.journal) == EscrowPnl(l.journal)
  {
    var j' := Apply(l, op, key, ts).0.journal;
    if j' != l.journal {
      assert j'[..|j'| - 1] == l.journal;
    }
  }

  lemma StepVerifies(l: Ledger, op: LedgerOp, key: Key, ts: Micros)
    requires op.OpDeposit? || op.OpSettleCapped?
    requires Verifies(l)
    ensures Verifies(Apply(l, op, key, ts).0)
  {
    hide Solvent, Apply, UserTotal, SystemTotal, NetExternal, EscrowPnl;
    StepSolvent(l, op, key, ts);
    StepConserves(l, op, key, ts);
    NoEscrow(l, op, key, ts);
  }

  lemma SettleVerifies(l: Ledger, u: UserId, signed: int, key: Key, ts: Micros)
    requires Verifies(l)
    ensures Verifies(Settle(l, u, signed, key, ts).0)
  {
    hide Verifies, Apply, Ledger.Opened;
    OpenedVerifies(l, u);
    StepVerifies(l.Opened(u), OpSettleCapped(u, signed), key, ts);
  }

  lemma DepositVerifies(l: Ledger, u: UserId, amount: int, key: Key, ts: Micros)
    requires Verifies(l)
    ensures Verifies(Apply(l.Opened(u), OpDeposit(u, amount), key, ts).0)
  {
    hide Verifies, Apply, Ledger.Opened;
    OpenedVerifies(l, u);
    StepVerifies(l.Opened(u), OpDeposit(u, amount), key, ts);
  }

  lemma EmptyVerifies()
    ensures Verifies(EMPTY_LEDGER)
  {
    RunConserves([]);
  }

  lemma FactVerifies(m: Money, e: Event)
    requires Verifies(m.ledger)
    ensures Verifies(ApplyFact(m, e).ledger)
  {
    hide Verifies, Apply, Settle, Ledger.Opened;
    match e {
      case AdminCredited(u, amount, key, ts) => DepositVerifies(m.ledger, u, amount, key, ts);
      case RealizedPnl(u, symbol, amount, ts) =>
        SettleVerifies(m.ledger, u, amount, PnlKey(m.pnlSeq + 1, u, symbol), ts);
      case FundingSettled(u, symbol, period, amount, ts) =>
        SettleVerifies(m.ledger, u, -amount, FundingKey(period, u, symbol), ts);
      case _ =>
    }
  }

  // Whatever events are replayed, in whatever order, the boot check on the
  // ledger passes: also after every prefix of a log.
  lemma {:induction false} ReplayVerifies(log: seq<Event>)
    ensures Verifies(Replay(EMPTY_POST_STATE, log).money.ledger)
  {
    if log == [] {
      EmptyVerifies();
    } else {
      hide Verifies, ApplyFact, Project, MarkAfter;
      ReplayVerifies(log[..|log| - 1]);
      FactVerifies(Replay(EMPTY_POST_STATE, log[..|log| - 1]).money, log[|log| - 1]);
    }
  }

  lemma PnlVerifies(m: Money, u: UserId, symbol: SymbolId, pnl: int, ts: Micros)
    requires Verifies(m.ledger)
    ensures Verifies(SettlePnl(m, u, symbol, pnl, ts).0.ledger)
  {
    hide Verifies, Settle, Ledger.Bal;
    SettleVerifies(m.ledger, u, pnl, PnlKey(m.pnlSeq + 1, u, symbol), ts);
  }

  lemma RowVerifies(l: Ledger, k: Positions.PositionKey, payment: int, period: nat, ts: Micros)
    requires Verifies(l)
    ensures Verifies(SettleRow(l, k, payment, period, ts).0)
  {
    hide Verifies, Settle;
    SettleVerifies(l, k.user, -payment, FundingKey(period, k.user, k.symbol), ts);
  }

  lemma {:induction false} RowsVerify(l: Ledger, ps: Positions.PositionMap, rows: seq<Positions.PositionKey>, mark: int,
                                      rate: int, period: nat, ts: Micros)
    requires Verifies(l)
    ensures Verifies(SettleRows(l, ps, rows, mark, rate, period, ts).0)
  {
    hide Verifies, SettleRow, Payment;
    if rows != [] {
      var n := |rows| - 1;
      RowsVerify(l, ps, rows[..n], mark, rate, period, ts);
      RowVerifies(SettleRows(l, ps, rows[..n], mark, rate, period, ts).0, rows[n], Payment(ps, rows[n], mark, rate),
                  period, ts);
    }
  }
}
