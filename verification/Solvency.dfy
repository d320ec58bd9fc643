// Solvency: which operations can leave a user or a pool with less than nothing.
module Solvency {
  import opened Common
  import opened LedgerSpec
  import opened Conservation

  predicate NonNegative(b: Balance) {
    b.available >= 0 && b.frozen >= 0 && b.margin >= 0
  }

  ghost predicate UsersSolvent(l: Ledger) {
    forall u, w :: NonNegative(l.Bal(u, w))
  }

  // The pools that must not go negative; the funding pool may.
  predicate PoolsSolvent(l: Ledger) {
    l.Sys(InsuranceFund) >= 0 && l.Sys(FeeCollection) >= 0 && l.Sys(Escrow) >= 0
  }

  ghost predicate Solvent(l: Ledger) {
    UsersSolvent(l) && PoolsSolvent(l)
  }

  // A close that goes through although its net credit takes available below
  // zero, or although the user is his own counterparty and his margin cannot
  // both be released and pay the profit.
  predicate Overdraws(l: Ledger, op: LedgerOp, key: Key) {
    !BadArguments(op) && key !in l.keys && op.user in l.accounts && OverdrawingClose(l, op)
  }

  predicate OverdrawingClose(l: Ledger, op: LedgerOp) {
    match op
    case OpClosePosition(u, m, pnl, fee, cp) =>
      var b := l.Bal(u, Futures);
      && b.margin >= m
      && (pnl > 0 ==> cp in l.accounts && l.Bal(cp, Futures).margin >= pnl)
      && (b.available + m + pnl - fee < 0 || (u == cp && b.margin < m + pnl))
    case OpCloseSettled(u, m, pnl, fee) =>
      var b := l.Bal(u, Futures);
      b.margin >= m && b.available + m + pnl - fee < 0
    case _ => false
  }

  // ── Primitive updates ─────────────────────────────────────────────────

  lemma UsersWithBal(l: Ledger, u: UserId, w: WalletType, b: Balance)
    requires UsersSolvent(l)
    ensures UsersSolvent(l.WithBal(u, w, b)) <==> NonNegative(b)
  {
    var l' := l.WithBal(u, w, b);
    assert l'.Bal(u, w) == b;
    forall v, x ensures l'.Bal(v, x) == (if v == u && x == w then b else l.Bal(v, x)) {}
  }

  lemma UsersTwoBals(l: Ledger, u: UserId, b: Balance, v: UserId, c: Balance)
    requires UsersSolvent(l)
    ensures UsersSolvent(l.WithBal(u, Futures, b).WithBal(v, Futures, c))
            <==> NonNegative(c) && (u != v ==> NonNegative(b))
  {
    hide Ledger.Bal, NonNegative;
    BalTwo(l, u, b, v, c);
    var l' := l.WithBal(u, Futures, b).WithBal(v, Futures, c);
    assert l'.Bal(v, Futures) == c;
    assert u != v ==> l'.Bal(u, Futures) == b;
  }

  lemma BalTwo(l: Ledger, u: UserId, b: Balance, v: UserId, c: Balance)
    ensures forall x, w :: l.WithBal(u, Futures, b).WithBal(v, Futures, c).Bal(x, w)
              == (if x == v && w == Futures then c else if x == u && w == Futures then b else l.Bal(x, w))
  {
  }

  lemma UsersUnmoved(l: Ledger, key: Key, u: UserId, w: WalletType)
    requires UsersSolvent(l)
    ensures UsersSolvent(l.Keyed(key)) && UsersSolvent(l.Unkeyed(key)) && UsersSolvent(l.Touched(u, w))
    ensures UsersSolvent(l.Touched(u, w).Unkeyed(key))
  {
    hide NonNegative;
    SameBals(l, l.Keyed(key));
    SameBals(l, l.Unkeyed(key));
    assert NonNegative(l.Bal(u, w));
    UsersWithBal(l, u, w, l.Bal(u, w));
    SameBals(l.Touched(u, w), l.Touched(u, w).Unkeyed(key));
  }

  lemma SameBals(l: Ledger, l': Ledger)
    requires l.accounts == l'.accounts
    ensures UsersSolvent(l) <==> UsersSolvent(l')
  {
    hide NonNegative;
    forall u, w ensures l.Bal(u, w) == l'.Bal(u, w) {}
  }

  // ── Operations ────────────────────────────────────────────────────────

  lemma MovesSolvent(l: Ledger, op: LedgerOp, key: Key, ts: Micros)
    requires op.OpDeposit? || op.OpWithdraw? || op.OpFreeze? || op.OpUnfreeze? || op.OpSettleCapped?
    requires UsersSolvent(l) && !BadArguments(op)
    ensures UsersSolvent(Execute(l, op, key, ts).0)
  {
    hide Ledger.WithBal, Ledger.Touched, Ledger.Unkeyed, UsersSolvent;
    var u := op.user;
    var w := if op.OpFreeze? || op.OpUnfreeze? then op.wallet else Funding;
    var b := l.Bal(u, w);
    UsersUnmoved(l, key, u, w);
    BalSolvent(l, u, w);
    var b' := match op
      case OpDeposit(_, a) => b.(available := b.available + a)
      case OpWithdraw(_, a) => b.(available := b.available - a)
      case OpFreeze(_, _, a) => b.(available := b.available - a, frozen := b.frozen + a)
      case OpUnfreeze(_, _, a) => b.(frozen := b.frozen - a, available := b.available + a)
      case OpSettleCapped(_, s) => b.(available := b.available + if s > 0 then s else -Min(-s, b.available));
    UsersWithBal(l, u, w, b');
    var l' := Execute(l, op, key, ts).0;
    if l'.accounts == l.WithBal(u, w, b').accounts {
      SameBals(l.WithBal(u, w, b'), l');
    }
  }

  lemma BalSolvent(l: Ledger, u: UserId, w: WalletType)
    requires UsersSolvent(l)
    ensures NonNegative(l.Bal(u, w))
  {
  }

  lemma TransferSolvent(l: Ledger, u: UserId, from: WalletType, to: WalletType, a: int, key: Key, ts: Micros)
    requires UsersSolvent(l) && a > 0
    ensures UsersSolvent(AfterTransfer(l, u, from, to, a, key, ts).0)
  {
    hide Ledger.Bal, Ledger.WithBal, Ledger.Touched, Ledger.Unkeyed, UsersSolvent;
    UsersUnmoved(l, key, u, from);
    var b := l.Bal(u, from);
    BalSolvent(l, u, from);
    if b.available >= a {
      var b' := b.(available := b.available - a);
      UsersWithBal(l, u, from, b');
      var l1 := l.WithBal(u, from, b');
      var c := l1.Bal(u, to);
      BalSolvent(l1, u, to);
      var c' := c.(available := c.available + a);
      UsersWithBal(l1, u, to, c');
      SameBals(l1.WithBal(u, to, c'), AfterTransfer(l, u, from, to, a, key, ts).0);
    }
  }

  lemma OpenSolvent(l: Ledger, u: UserId, m: int, fee: int, key: Key, ts: Micros)
    requires UsersSolvent(l) && m > 0 && fee >= 0
    ensures UsersSolvent(AfterOpen(l, u, m, fee, key, ts).0)
  {
    hide Ledger.Bal, Ledger.WithBal, Ledger.Touched, Ledger.Unkeyed, UsersSolvent;
    UsersUnmoved(l, key, u, Futures);
    var b := l.Bal(u, Futures);
    BalSolvent(l, u, Futures);
    if b.frozen >= m + fee {
      var b' := b.(frozen := b.frozen - (m + fee), margin := b.margin + m);
      UsersWithBal(l, u, Futures, b');
      SameBals(l.WithBal(u, Futures, b'), AfterOpen(l, u, m, fee, key, ts).0);
    }
  }

  lemma LiquidateSolvent(l: Ledger, u: UserId, m: int, surplus: int, key: Key, ts: Micros)
    requires UsersSolvent(l) && m > 0
    ensures UsersSolvent(AfterLiquidate(l, u, m, surplus, key, ts).0)
  {
    hide Ledger.Bal, Ledger.Sys, Ledger.WithBal, Ledger.Touched, Ledger.Unkeyed, UsersSolvent;
    UsersUnmoved(l, key, u, Futures);
    var b := l.Bal(u, Futures);
    BalSolvent(l, u, Futures);
    if b.margin >= m {
      var b' := b.(margin := b.margin - m);
      UsersWithBal(l, u, Futures, b');
      var r := AfterLiquidate(l, u, m, surplus, key, ts);
      if r.1.Ok? { SameBals(l.WithBal(u, Futures, b'), r.0); }
    }
  }

  lemma FundingSolvent(l: Ledger, u: UserId, x: int, key: Key, ts: Micros)
    requires UsersSolvent(l)
    ensures UsersSolvent(AfterFunding(l, u, x, key, ts).0)
  {
    hide Ledger.Bal, Ledger.Sys, Ledger.WithBal, Ledger.Touched, Ledger.Unkeyed, UsersSolvent;
    UsersUnmoved(l, key, u, Futures);
    var b := l.Bal(u, Futures);
    BalSolvent(l, u, Futures);
    var fromAvailable := if x > 0 then Min(x, b.available) else x;
    var fromMargin := x - fromAvailable;
    var b' := b.(available := b.available - fromAvailable,
                  margin := b.margin - (if fromMargin > 0 then fromMargin else 0));
    if !(x > 0 && fromMargin > 0 && b.margin < fromMargin) {
      UsersWithBal(l, u, Futures, b');
      SameBals(l.WithBal(u, Futures, b'), AfterFunding(l, u, x, key, ts).0);
    }
  }

  lemma CloseSolvent(l: Ledger, u: UserId, m: int, pnl: int, fee: int, cp: UserId, key: Key, ts: Micros)
    requires UsersSolvent(l) && m > 0
    ensures UsersSolvent(AfterClose(l, u, m, pnl, fee, cp, key, ts).0)
            <==> !OverdrawingClose(l, OpClosePosition(u, m, pnl, fee, cp))
  {
    hide Ledger.WithBal, Ledger.Unkeyed, UsersSolvent;
    UsersUnmoved(l, key, u, Futures);
    var b := l.Bal(u, Futures);
    BalSolvent(l, u, Futures);
    BalSolvent(l, cp, Futures);
    var b' := b.(margin := b.margin - m, available := b.available + (m + pnl - fee));
    var l1 := l.WithBal(u, Futures, b');
    var c := l1.Bal(cp, Futures);
    BalAfterOne(l, u, b', cp);
    var c' := c.(margin := c.margin - pnl);
    UsersWithBal(l, u, Futures, b');
    UsersTwoBals(l, u, b', cp, c');
    var r := AfterClose(l, u, m, pnl, fee, cp, key, ts);
    if r.1.Ok? {
      SameBals(if pnl == 0 then l1 else l1.WithBal(cp, Futures, c'), r.0);
    }
  }

  lemma BalAfterOne(l: Ledger, u: UserId, b: Balance, v: UserId)
    ensures l.WithBal(u, Futures, b).Bal(v, Futures) == if u == v then b else l.Bal(v, Futures)
  {
  }

  lemma CloseSettledSolvent(l: Ledger, u: UserId, m: int, pnl: int, fee: int, key: Key, ts: Micros)
    requires UsersSolvent(l) && m > 0
    ensures UsersSolvent(AfterCloseSettled(l, u, m, pnl, fee, key, ts).0)
            <==> !OverdrawingClose(l, OpCloseSettled(u, m, pnl, fee))
  {
    hide Ledger.Bal, Ledger.WithBal, Ledger.Unkeyed, UsersSolvent;
    UsersUnmoved(l, key, u, Futures);
    var b := l.Bal(u, Futures);
    BalSolvent(l, u, Futures);
    var b' := b.(margin := b.margin - m, available := b.available + (m + pnl - fee));
    UsersWithBal(l, u, Futures, b');
    if b.margin >= m {
      SameBals(l.WithBal(u, Futures, b'), AfterCloseSettled(l, u, m, pnl, fee, key, ts).0);
    }
  }

  lemma LinesSystem(l: Ledger, u: UserId, m: int, pnl: int, fee: int, other: Slot, key: Key, ts: Micros)
    ensures PostFee(PostPnl(PostRelease(l, u, m, key, ts), u, pnl, other, key, ts), u, Available, fee, key, ts).system
            == l.system
  {
  }

  lemma FeeSystem(l: Ledger, l': Ledger, fee: int)
    requires l.system == l'.system
    ensures AddFee(l, fee).system == AddFee(l', fee).system
  {
  }

  // A close touches no pool but the fee pool.
  lemma CloseSystem(l: Ledger, u: UserId, m: int, pnl: int, fee: int, cp: UserId, key: Key, ts: Micros)
    ensures var r := AfterClose(l, u, m, pnl, fee, cp, key, ts);
      r.0.system == if r.1.Ok? then AddFee(l, fee).system else l.system
  {
    hide Ledger.Bal, AddFee, PostFee, PostPnl, PostRelease;
    var l1 := Released(l, u, m, pnl, fee);
    var c := l1.Bal(cp, Futures);
    var l2 := if pnl == 0 then l1 else l1.WithBal(cp, Futures, c.(margin := c.margin - pnl));
    FeeSystem(l, l2, fee);
    LinesSystem(AddFee(l2, fee), u, m, pnl, fee, Slot(cp, Futures, Margin), key, ts);
  }

  lemma CloseSettledSystem(l: Ledger, u: UserId, m: int, pnl: int, fee: int, key: Key, ts: Micros)
    ensures var r := AfterCloseSettled(l, u, m, pnl, fee, key, ts);
      r.0.system == if r.1.Ok? then AddFee(l, fee).system else l.system
  {
    hide Ledger.Bal;
  }

  lemma OpenSystem(l: Ledger, u: UserId, m: int, fee: int, key: Key, ts: Micros)
    ensures var r := AfterOpen(l, u, m, fee, key, ts);
      r.0.system == if r.1.Ok? then AddFee(l, fee).system else l.system
  {
    hide Ledger.Bal;
  }

  lemma FeePools(l: Ledger, fee: int, l': Ledger)
    requires PoolsSolvent(l) && fee >= 0 && (l'.system == l.system || l'.system == AddFee(l, fee).system)
    ensures PoolsSolvent(l')
  {
  }

  // These touch no pool that must stay non-negative.
  lemma OtherPools(l: Ledger, op: LedgerOp, key: Key, ts: Micros)
    requires !op.OpOpenPosition? && !op.OpClosePosition? && !op.OpCloseSettled? && !op.OpLiquidate?
    ensures forall w :: w != Funding ==> Execute(l, op, key, ts).0.Sys(w) == l.Sys(w)
  {
    hide Ledger.Bal, AfterOpen, AfterClose, AfterCloseSettled, AfterLiquidate;
    forall w | w != Funding ensures Execute(l, op, key, ts).0.Sys(w) == l.Sys(w) {
    }
  }

  lemma LiquidatePools(l: Ledger, u: UserId, m: int, surplus: int, key: Key, ts: Micros)
    requires PoolsSolvent(l) && m > 0
    ensures PoolsSolvent(AfterLiquidate(l, u, m, surplus, key, ts).0)
  {
    hide Ledger.Bal;
  }

  lemma StepPools(l: Ledger, op: LedgerOp, key: Key, ts: Micros)
    requires PoolsSolvent(l) && !BadArguments(op)
    ensures PoolsSolvent(Execute(l, op, key, ts).0)
  {
    hide Ledger.Bal, AfterOpen, AfterClose, AfterCloseSettled, AfterLiquidate, AfterDeposit, AfterWithdraw,
         AfterTransfer, AfterFreeze, AfterUnfreeze, AfterFunding, AfterCapped;
    match op {
      case OpOpenPosition(u, m, fee) =>
        OpenSystem(l, u, m, fee, key, ts);
        FeePools(l, fee, Execute(l, op, key, ts).0);
      case OpClosePosition(u, m, pnl, fee, cp) =>
        CloseSystem(l, u, m, pnl, fee, cp, key, ts);
        FeePools(l, fee, Execute(l, op, key, ts).0);
      case OpCloseSettled(u, m, pnl, fee) =>
        CloseSettledSystem(l, u, m, pnl, fee, key, ts);
        FeePools(l, fee, Execute(l, op, key, ts).0);
      case OpLiquidate(u, m, surplus) => LiquidatePools(l, u, m, surplus, key, ts);
      case _ => OtherPools(l, op, key, ts);
    }
  }

  lemma ExecuteSolvent(k: Ledger, op: LedgerOp, key: Key, ts: Micros)
    requires UsersSolvent(k) && !BadArguments(op)
    ensures UsersSolvent(Execute(k, op, key, ts).0) <==> !OverdrawingClose(k, op)
  {
    hide Ledger.Bal, UsersSolvent, AfterDeposit, AfterWithdraw, AfterTransfer, AfterFreeze,
         AfterUnfreeze, AfterOpen, AfterClose, AfterCloseSettled, AfterLiquidate, AfterFunding, AfterCapped;
    match op {
      case OpTransfer(u, from, to, a) => TransferSolvent(k, u, from, to, a, key, ts);
      case OpOpenPosition(u, m, fee) => OpenSolvent(k, u, m, fee, key, ts);
      case OpClosePosition(u, m, pnl, fee, cp) => CloseSolvent(k, u, m, pnl, fee, cp, key, ts);
      case OpCloseSettled(u, m, pnl, fee) => CloseSettledSolvent(k, u, m, pnl, fee, key, ts);
      case OpLiquidate(u, m, surplus) => LiquidateSolvent(k, u, m, surplus, key, ts);
      case OpSettleFunding(u, x) => FundingSolvent(k, u, x, key, ts);
      case _ => MovesSolvent(k, op, key, ts);
    }
  }

  // From a solvent ledger, an operation leads to a solvent ledger exactly when
  // it is not an overdrawing close.
  lemma StepSolvent(l: Ledger, op: LedgerOp, key: Key, ts: Micros)
    requires Solvent(l)
    ensures Solvent(Apply(l, op, key, ts).0) <==> !Overdraws(l, op, key)
  {
    hide Execute, BadArguments, Ledger.Keyed, UsersSolvent, PoolsSolvent, OverdrawingClose;
    if BadArguments(op) || NothingToDo(op) || key in l.keys {
      OnlyClosesOverdraw(l, op);
      return;
    }
    UsersUnmoved(l, key, op.user, Futures);
    KeyedSame(l, key);
    KeyedOverdraws(l, key, op);
    StepPools(l.Keyed(key), op, key, ts);
    ExecuteSolvent(l.Keyed(key), op, key, ts);
    OnlyClosesOverdraw(l, op);
  }

  lemma KeyedOverdraws(l: Ledger, key: Key, op: LedgerOp)
    ensures OverdrawingClose(l.Keyed(key), op) <==> OverdrawingClose(l, op)
  {
  }

  lemma OnlyClosesOverdraw(l: Ledger, op: LedgerOp)
    ensures NothingToDo(op) || op.OpDeposit? ==> !OverdrawingClose(l, op)
  {
  }

  lemma KeyedSame(l: Ledger, key: Key)
    ensures l.Keyed(key).accounts == l.accounts
    ensures PoolsSolvent(l.Keyed(key)) <==> PoolsSolvent(l)
  {
  }

  ghost predicate NoOverdraft(calls: seq<LedgerCall>) {
    forall i {:trigger calls[i]} :: 0 <= i < |calls| ==> !Overdraws(LedgerAfter(calls[..i]), calls[i].op, calls[i].key)
  }

  // Solvency holds throughout a run exactly when no close of the run overdraws.
  lemma {:induction false} RunSolvent(calls: seq<LedgerCall>)
    ensures (forall n :: 0 <= n <= |calls| ==> Solvent(LedgerAfter(calls[..n]))) <==> NoOverdraft(calls)
  {
    hide Overdraws, Apply, Solvent;
    if forall n :: 0 <= n <= |calls| ==> Solvent(LedgerAfter(calls[..n])) {
      forall i | 0 <= i < |calls| ensures !Overdraws(LedgerAfter(calls[..i]), calls[i].op, calls[i].key) {
        NextLedger(calls, i);
        assert Solvent(LedgerAfter(calls[..i])) && Solvent(LedgerAfter(calls[..i + 1]));
        StepSolvent(LedgerAfter(calls[..i]), calls[i].op, calls[i].key, calls[i].ts);
      }
    }
    if NoOverdraft(calls) {
      forall n | 0 <= n <= |calls| ensures Solvent(LedgerAfter(calls[..n])) {
        SolventUpTo(calls, n);
      }
    }
  }

  lemma NextLedger(calls: seq<LedgerCall>, i: nat)
    requires i < |calls|
    ensures LedgerAfter(calls[..i + 1]) == Apply(LedgerAfter(calls[..i]), calls[i].op, calls[i].key, calls[i].ts).0
  {
    hide Apply;
    assert calls[..i + 1][..i] == calls[..i];
  }

  lemma {:induction false} SolventUpTo(calls: seq<LedgerCall>, n: nat)
    requires n <= |calls| && NoOverdraft(calls)
    ensures Solvent(LedgerAfter(calls[..n]))
  {
    hide Overdraws, Apply;
    if n > 0 {
      SolventUpTo(calls, n - 1);
      NextLedger(calls, n - 1);
      StepSolvent(LedgerAfter(calls[..n - 1]), calls[n - 1].op, calls[n - 1].key, calls[n - 1].ts);
    }
  }
}
