// Conservation: no ledger operation creates or destroys money. Over every run
// the users and the pools together hold deposits minus withdrawals, plus the
// profit and loss that closes settle against the escrow pool without moving it.
module Conservation {
  import opened Common
  import opened LedgerSpec
  import opened LedgerTotals

  lemma MovesConserve(l: Ledger, op: LedgerOp, key: Key, ts: Micros)
    requires op.OpDeposit? || op.OpWithdraw? || op.OpFreeze? || op.OpUnfreeze? || op.OpSettleCapped?
    ensures Gap(Execute(l, op, key, ts).0) == Gap(l)
  {
    hide Ledger.Bal, Ledger.Sys, Ledger.Keyed, Ledger.Unkeyed, Ledger.Touched, Ledger.WithBal,
         Ledger.AddSys, Ledger.Post, Gap;
    var u := op.user;
    match op {
      case OpDeposit(_, a) =>
        var b := l.Bal(u, Funding);
        var b' := b.(available := b.available + a);
        GapWithBal(l, u, Funding, b');
        GapPost(l.WithBal(u, Funding, b'), Slot(SYSTEM, Funding, Available), Slot(u, Funding, Available), a,
                Deposit, key, ts);
      case OpWithdraw(_, a) =>
        var b := l.Bal(u, Funding);
        var b' := b.(available := b.available - a);
        GapTouched(l, u, Funding, key);
        GapWithBal(l, u, Funding, b');
        GapPost(l.WithBal(u, Funding, b'), Slot(u, Funding, Available), Slot(SYSTEM, Funding, Available), a,
                Withdrawal, key, ts);
      case OpFreeze(_, w, a) =>
        var b := l.Bal(u, w);
        var b' := b.(available := b.available - a, frozen := b.frozen + a);
        GapTouched(l, u, w, key);
        GapWithBal(l, u, w, b');
        GapPost(l.WithBal(u, w, b'), Slot(u, w, Available), Slot(u, w, Frozen), a, OrderFreeze, key, ts);
      case OpUnfreeze(_, w, a) =>
        var b := l.Bal(u, w);
        var b' := b.(frozen := b.frozen - a, available := b.available + a);
        GapTouched(l, u, w, key);
        GapWithBal(l, u, w, b');
        GapPost(l.WithBal(u, w, b'), Slot(u, w, Frozen), Slot(u, w, Available), a, OrderUnfreeze, key, ts);
      case OpSettleCapped(_, s) => CappedConserves(l, u, s, key, ts);
    }
  }

  lemma GapTouched(l: Ledger, u: UserId, w: WalletType, key: Key)
    ensures Gap(l.Touched(u, w).Unkeyed(key)) == Gap(l)
    ensures Gap(l.Unkeyed(key)) == Gap(l)
  {
    hide Ledger.Touched;
    GapKeys(l, key, u, w);
    GapKeys(l.Touched(u, w), key, u, w);
  }

  lemma CappedConserves(l: Ledger, u: UserId, signed: int, key: Key, ts: Micros)
    ensures Gap(AfterCapped(l, u, signed, key, ts).0) == Gap(l)
  {
    hide Ledger.Bal, Ledger.Sys, Ledger.WithBal, Ledger.AddSys, Ledger.Post, Gap;
    var b := l.Bal(u, Funding);
    var mine, pool := Slot(u, Funding, Available), Slot(SYSTEM, Funding, Available);
    var delta := if signed > 0 then signed else -Min(-signed, b.available);
    var b' := b.(available := b.available + delta);
    var l1 := l.WithBal(u, Funding, b');
    GapWithBal(l, u, Funding, b');
    GapAddSys(l1, Funding, -delta);
    GapPost(l1.AddSys(Funding, -delta), pool, mine, signed, FundingPayment, key, ts);
    GapPost(l1.AddSys(Funding, -delta), mine, pool, -delta, FundingPayment, key, ts);
  }

  lemma TransferConserves(l: Ledger, u: UserId, from: WalletType, to: WalletType, a: int, key: Key, ts: Micros)
    ensures Gap(AfterTransfer(l, u, from, to, a, key, ts).0) == Gap(l)
  {
    hide Ledger.Bal, Ledger.Unkeyed, Ledger.Touched, Ledger.WithBal, Ledger.Post, Gap;
    var b := l.Bal(u, from);
    var b' := b.(available := b.available - a);
    GapTouched(l, u, from, key);
    GapWithBal(l, u, from, b');
    var l1 := l.WithBal(u, from, b');
    var c := l1.Bal(u, to);
    var c' := c.(available := c.available + a);
    GapWithBal(l1, u, to, c');
    GapPost(l1.WithBal(u, to, c'), Slot(u, from, Available), Slot(u, to, Available), a, Transfer, key, ts);
  }

  lemma GapFee(l: Ledger, u: UserId, f: Field, fee: int, key: Key, ts: Micros)
    requires fee >= 0
    ensures Gap(AddFee(l, fee)) == Gap(l) + fee
    ensures Gap(PostFee(l, u, f, fee, key, ts)) == Gap(l)
  {
    hide Ledger.AddSys, Ledger.Post, Gap;
    GapAddSys(l, FeeCollection, fee);
    GapPost(l, Slot(u, Futures, f), Slot(SYSTEM, FeeCollection, Available), fee, TradeFee, LegKey(key, "fee"), ts);
  }

  lemma OpenConserves(l: Ledger, u: UserId, m: int, fee: int, key: Key, ts: Micros)
    requires fee >= 0
    ensures Gap(AfterOpen(l, u, m, fee, key, ts).0) == Gap(l)
  {
    hide Ledger.Bal, Ledger.Unkeyed, Ledger.Touched, Ledger.WithBal, Ledger.AddSys, Ledger.Post, Gap, AddFee,
         PostFee;
    var b := l.Bal(u, Futures);
    GapTouched(l, u, Futures, key);
    var b' := b.(frozen := b.frozen - (m + fee), margin := b.margin + m);
    GapWithBal(l, u, Futures, b');
    var l0 := l.WithBal(u, Futures, b');
    GapFee(l0, u, Frozen, fee, key, ts);
    var l1 := AddFee(l0, fee);
    GapPost(l1, Slot(u, Futures, Frozen), Slot(u, Futures, Margin), m, PositionOpen, key, ts);
    var l2 := l1.Post(Slot(u, Futures, Frozen), Slot(u, Futures, Margin), m, PositionOpen, key, ts);
    GapFee(l2, u, Frozen, fee, key, ts);
  }

  // The three journal lines of a close, against `other`.
  lemma GapCloseLines(l: Ledger, u: UserId, m: int, pnl: int, fee: int, other: Slot, key: Key, ts: Micros)
    requires fee >= 0
    ensures Gap(PostFee(PostPnl(PostRelease(l, u, m, key, ts), u, pnl, other, key, ts), u, Available, fee, key, ts))
            == Gap(l) - (if other == Slot(SYSTEM, Escrow, Available) then pnl else 0)
  {
    hide Ledger.Post, Gap, PostFee;
    var mine := Slot(u, Futures, Available);
    GapPost(l, Slot(u, Futures, Margin), mine, m, PositionClose, key, ts);
    var l1 := PostRelease(l, u, m, key, ts);
    GapPost(l1, other, mine, pnl, PositionClose, LegKey(key, "pnl"), ts);
    GapPost(l1, mine, other, -pnl, PositionClose, LegKey(key, "pnl"), ts);
    GapFee(PostPnl(l1, u, pnl, other, key, ts), u, Available, fee, key, ts);
  }

  lemma GapReleased(l: Ledger, u: UserId, m: int, pnl: int, fee: int)
    ensures Gap(Released(l, u, m, pnl, fee)) == Gap(l) + pnl - fee
  {
    hide Ledger.Bal, Ledger.WithBal, Gap;
    var b := l.Bal(u, Futures);
    GapWithBal(l, u, Futures, b.(margin := b.margin - m, available := b.available + (m + pnl - fee)));
  }

  lemma CloseConserves(l: Ledger, u: UserId, m: int, pnl: int, fee: int, cp: UserId, key: Key, ts: Micros)
    requires fee >= 0
    ensures Gap(AfterClose(l, u, m, pnl, fee, cp, key, ts).0) == Gap(l)
  {
    hide Ledger.Bal, Ledger.Unkeyed, Ledger.WithBal, Ledger.AddSys, Ledger.Post, Gap, AddFee, PostFee,
         PostPnl, PostRelease, Released;
    GapTouched(l, u, Futures, key);
    GapReleased(l, u, m, pnl, fee);
    var l1 := Released(l, u, m, pnl, fee);
    var c := l1.Bal(cp, Futures);
    var c' := c.(margin := c.margin - pnl);
    GapWithBal(l1, cp, Futures, c');
    var l2 := if pnl == 0 then l1 else l1.WithBal(cp, Futures, c');
    GapFee(l2, u, Available, fee, key, ts);
    GapCloseLines(AddFee(l2, fee), u, m, pnl, fee, Slot(cp, Futures, Margin), key, ts);
  }

  lemma CloseSettledConserves(l: Ledger, u: UserId, m: int, pnl: int, fee: int, key: Key, ts: Micros)
    requires fee >= 0
    ensures Gap(AfterCloseSettled(l, u, m, pnl, fee, key, ts).0) == Gap(l)
  {
    hide Ledger.Bal, Ledger.Unkeyed, Ledger.WithBal, Ledger.AddSys, Ledger.Post, Gap, AddFee, PostFee,
         PostPnl, PostRelease, Released;
    GapTouched(l, u, Futures, key);
    GapReleased(l, u, m, pnl, fee);
    GapFee(Released(l, u, m, pnl, fee), u, Available, fee, key, ts);
    GapCloseLines(AddFee(Released(l, u, m, pnl, fee), fee), u, m, pnl, fee, Slot(SYSTEM, Escrow, Available),
                  key, ts);
  }

  lemma LiquidateConserves(l: Ledger, u: UserId, m: int, surplus: int, key: Key, ts: Micros)
    ensures Gap(AfterLiquidate(l, u, m, surplus, key, ts).0) == Gap(l)
  {
    hide Ledger.Bal, Ledger.Sys, Ledger.Unkeyed, Ledger.WithBal, Ledger.AddSys, Ledger.Post, Gap;
    GapTouched(l, u, Futures, key);
    var b := l.Bal(u, Futures);
    var b' := b.(margin := b.margin - m);
    GapWithBal(l, u, Futures, b');
    GapAddSys(l.WithBal(u, Futures, b'), Escrow, m);
    var l1 := l.WithBal(u, Futures, b').AddSys(Escrow, m);
    GapAddSys(l1, Escrow, -surplus);
    GapAddSys(l1.AddSys(Escrow, -surplus), InsuranceFund, surplus);
    GapAddSys(l1, InsuranceFund, surplus);
    GapAddSys(l1.AddSys(InsuranceFund, surplus), Escrow, -surplus);
    var l2 := if surplus > 0 then l1.AddSys(Escrow, -surplus).AddSys(InsuranceFund, surplus)
              else if surplus < 0 then l1.AddSys(InsuranceFund, surplus).AddSys(Escrow, -surplus)
              else l1;
    var escrow, fund := Slot(SYSTEM, Escrow, Available), Slot(SYSTEM, InsuranceFund, Available);
    GapPost(l2, Slot(u, Futures, Margin), escrow, m, Liquidation, key, ts);
    var l3 := l2.Post(Slot(u, Futures, Margin), escrow, m, Liquidation, key, ts);
    GapPost(l3, escrow, fund, surplus, InsuranceFundContribution, LegKey(key, "surplus"), ts);
    GapPost(l3, fund, escrow, -surplus, Liquidation, LegKey(key, "deficit"), ts);
  }

  lemma FundingConserves(l: Ledger, u: UserId, p: int, key: Key, ts: Micros)
    ensures Gap(AfterFunding(l, u, p, key, ts).0) == Gap(l)
  {
    hide Ledger.Bal, Ledger.Sys, Ledger.Unkeyed, Ledger.Touched, Ledger.WithBal, Ledger.AddSys, Ledger.Post, Gap;
    var b := l.Bal(u, Futures);
    var mine, pool := Slot(u, Futures, Available), Slot(SYSTEM, Futures, Available);
    GapTouched(l, u, Futures, key);
    var fromAvailable := if p > 0 then Min(p, b.available) else p;
    var fromMargin := p - fromAvailable;
    var b' := b.(available := b.available - fromAvailable,
                  margin := b.margin - (if fromMargin > 0 then fromMargin else 0));
    GapWithBal(l, u, Futures, b');
    GapAddSys(l.WithBal(u, Futures, b'), Funding, p);
    var l1 := l.WithBal(u, Futures, b').AddSys(Funding, p);
    GapPost(l1, pool, mine, -p, FundingPayment, key, ts);
    GapPost(l1, mine, pool, fromAvailable, FundingPayment, key, ts);
    var l2 := if fromAvailable > 0 then l1.Post(mine, pool, fromAvailable, FundingPayment, key, ts) else l1;
    GapPost(l2, Slot(u, Futures, Margin), pool, fromMargin, FundingPayment, LegKey(key, "margin"), ts);
  }

  // Every operation, successful or not, keeps the total where the journal says
  // it is.
  lemma StepConserves(l: Ledger, op: LedgerOp, key: Key, ts: Micros)
    ensures Gap(Apply(l, op, key, ts).0) == Gap(l)
  {
    hide Gap, AfterDeposit, AfterWithdraw, AfterTransfer, AfterFreeze, AfterUnfreeze, AfterOpen, AfterClose,
         AfterCloseSettled, AfterLiquidate, AfterFunding, AfterCapped, Ledger.Keyed;
    GapKeys(l, key, op.user, Funding);
    if BadArguments(op) { return; }
    var k := l.Keyed(key);
    match op {
      case OpTransfer(u, from, to, a) => TransferConserves(k, u, from, to, a, key, ts);
      case OpOpenPosition(u, m, fee) => OpenConserves(k, u, m, fee, key, ts);
      case OpClosePosition(u, m, pnl, fee, cp) => CloseConserves(k, u, m, pnl, fee, cp, key, ts);
      case OpCloseSettled(u, m, pnl, fee) => CloseSettledConserves(k, u, m, pnl, fee, key, ts);
      case OpLiquidate(u, m, surplus) => LiquidateConserves(k, u, m, surplus, key, ts);
      case OpSettleFunding(u, p) => FundingConserves(k, u, p, key, ts);
      case OpDeposit(_, _) => MovesConserve(k, op, key, ts);
      case OpWithdraw(_, _) => MovesConserve(k, op, key, ts);
      case OpFreeze(_, _, _) => MovesConserve(k, op, key, ts);
      case OpUnfreeze(_, _, _) => MovesConserve(k, op, key, ts);
      case OpSettleCapped(_, _) => MovesConserve(k, op, key, ts);
    }
  }

  datatype LedgerCall = LedgerCall(op: LedgerOp, key: Key, ts: Micros)

  // The ledger after a run of calls.
  function LedgerAfter(calls: seq<LedgerCall>): Ledger {
    if calls == [] then EMPTY_LEDGER
    else
      var c := calls[|calls| - 1];
      Apply(LedgerAfter(calls[..|calls| - 1]), c.op, c.key, c.ts).0
  }

  lemma {:induction false} RunConserves(calls: seq<LedgerCall>)
    ensures Conserved(LedgerAfter(calls))
  {
    if calls == [] {
      assert UserTotals(map[]) == map[];
    } else {
      hide Apply, UserTotal, SystemTotal, NetExternal, EscrowPnl;
      var c := calls[|calls| - 1];
      RunConserves(calls[..|calls| - 1]);
      StepConserves(LedgerAfter(calls[..|calls| - 1]), c.op, c.key, c.ts);
    }
  }
}
