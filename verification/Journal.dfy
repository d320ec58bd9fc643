// The journal determines the state: folding the postings of the journal gives
// every user balance and every system pool, except for what one flaw leaves
// unposted, which is stated exactly.
module Journal {
  import opened Common
  import opened LedgerSpec
  import opened Conservation

  // A place whose content the journal is to determine.
  datatype Place = InWallet(slot: Slot) | InPool(pool: WalletType)

  predicate OfUser(p: Place) {
    p.InWallet? ==> p.slot.user != SYSTEM
  }

  function Held(l: Ledger, p: Place): int {
    match p
    case InWallet(s) => l.Bal(s.user, s.wallet).At(s.field)
    case InPool(w) => l.Sys(w)
  }

  function Net(debit: Slot, credit: Slot, amount: int, s: Slot): int {
    (if credit == s then amount else 0) - (if debit == s then amount else 0)
  }

  // What one posting moves. Deposits and withdrawals name the funding pool
  // without moving it, closes name the escrow pool without moving it, and
  // funding payments reach the funding pool under either of two names.
  function Moved(d: Slot, c: Slot, a: int, kind: EntryType, p: Place): int {
    match p
    case InWallet(s) => Net(d, c, a, s)
    case InPool(Funding) =>
      if kind.Deposit? || kind.Withdrawal? then 0
      else Net(d, c, a, Slot(SYSTEM, Funding, Available)) + Net(d, c, a, Slot(SYSTEM, Futures, Available))
    case InPool(Escrow) => if kind.PositionClose? then 0 else Net(d, c, a, Slot(SYSTEM, Escrow, Available))
    case InPool(FeeCollection) => Net(d, c, a, Slot(SYSTEM, FeeCollection, Available))
    case InPool(InsuranceFund) => Net(d, c, a, Slot(SYSTEM, InsuranceFund, Available))
    case InPool(_) => 0
  }

  function Folded(journal: seq<JournalEntry>, p: Place): int {
    if journal == [] then 0
    else
      var e := journal[|journal| - 1];
      Folded(journal[..|journal| - 1], p) + Moved(e.debit, e.credit, e.amount, e.kind, p)
  }

  // How far a place is from what the journal says.
  function Off(l: Ledger, p: Place): int {
    Held(l, p) - Folded(l.journal, p)
  }

  // ── Primitive updates ─────────────────────────────────────────────────

  lemma OffWithBal(l: Ledger, u: UserId, w: WalletType, b: Balance, p: Place)
    ensures Off(l.WithBal(u, w, b), p)
            == Off(l, p) + (if p.InWallet? && p.slot.user == u && p.slot.wallet == w
                            then b.At(p.slot.field) - l.Bal(u, w).At(p.slot.field) else 0)
  {
  }

  lemma OffAddSys(l: Ledger, w: WalletType, a: int, p: Place)
    ensures Off(l.AddSys(w, a), p) == Off(l, p) + (if p == InPool(w) then a else 0)
  {
  }

  lemma OffPost(l: Ledger, d: Slot, c: Slot, a: int, kind: EntryType, key: Key, ts: Micros, p: Place)
    ensures Off(l.Post(d, c, a, kind, key, ts), p) == Off(l, p) - Moved(d, c, a, kind, p)
  {
    hide Moved;
    var j' := l.Post(d, c, a, kind, key, ts).journal;
    assert j'[..|j'| - 1] == l.journal;
  }

  lemma OffTouched(l: Ledger, u: UserId, w: WalletType, key: Key, p: Place)
    ensures Off(l.Keyed(key), p) == Off(l, p)
    ensures Off(l.Unkeyed(key), p) == Off(l, p)
    ensures Off(l.Touched(u, w).Unkeyed(key), p) == Off(l, p)
  {
    OffWithBal(l, u, w, l.Bal(u, w), p);
  }

  // ── Operations ────────────────────────────────────────────────────────

  lemma DepositPosts(l: Ledger, u: UserId, a: int, key: Key, ts: Micros, p: Place)
    requires OfUser(p) && u != SYSTEM
    ensures Off(AfterDeposit(l, u, a, key, ts), p) == Off(l, p)
  {
    hide Ledger.Bal, Ledger.WithBal, Ledger.Post, Off;
    var b := l.Bal(u, Funding);
    var b' := b.(available := b.available + a);
    OffWithBal(l, u, Funding, b', p);
    OffPost(l.WithBal(u, Funding, b'), Slot(SYSTEM, Funding, Available), Slot(u, Funding, Available), a, Deposit,
            key, ts, p);
  }

  lemma WithdrawPosts(l: Ledger, u: UserId, a: int, key: Key, ts: Micros, p: Place)
    requires OfUser(p) && u != SYSTEM
    ensures Off(AfterWithdraw(l, u, a, key, ts).0, p) == Off(l, p)
  {
    hide Ledger.Bal, Ledger.WithBal, Ledger.Post, Ledger.Touched, Ledger.Unkeyed, Off;
    OffTouched(l, u, Funding, key, p);
    var b := l.Bal(u, Funding);
    var b' := b.(available := b.available - a);
    OffWithBal(l, u, Funding, b', p);
    OffPost(l.WithBal(u, Funding, b'), Slot(u, Funding, Available), Slot(SYSTEM, Funding, Available), a,
            Withdrawal, key, ts, p);
  }

  lemma TransferPosts(l: Ledger, u: UserId, from: WalletType, to: WalletType, a: int, key: Key, ts: Micros,
                      p: Place)
    requires OfUser(p) && u != SYSTEM
    ensures Off(AfterTransfer(l, u, from, to, a, key, ts).0, p) == Off(l, p)
  {
    hide Ledger.Bal, Ledger.WithBal, Ledger.Post, Ledger.Touched, Ledger.Unkeyed, Off;
    OffTouched(l, u, from, key, p);
    var b := l.Bal(u, from);
    var b' := b.(available := b.available - a);
    OffWithBal(l, u, from, b', p);
    var l1 := l.WithBal(u, from, b');
    var c := l1.Bal(u, to);
    var c' := c.(available := c.available + a);
    OffWithBal(l1, u, to, c', p);
    OffPost(l1.WithBal(u, to, c'), Slot(u, from, Available), Slot(u, to, Available), a, Transfer, key, ts, p);
  }

  lemma FreezePosts(l: Ledger, u: UserId, w: WalletType, a: int, key: Key, ts: Micros, p: Place)
    requires OfUser(p) && u != SYSTEM
    ensures Off(AfterFreeze(l, u, w, a, key, ts).0, p) == Off(l, p)
    ensures Off(AfterUnfreeze(l, u, w, a, key, ts).0, p) == Off(l, p)
  {
    hide Ledger.Bal, Ledger.WithBal, Ledger.Post, Ledger.Touched, Ledger.Unkeyed, Off;
    OffTouched(l, u, w, key, p);
    var b := l.Bal(u, w);
    var free, ice := Slot(u, w, Available), Slot(u, w, Frozen);
    var b1 := b.(available := b.available - a, frozen := b.frozen + a);
    OffWithBal(l, u, w, b1, p);
    OffPost(l.WithBal(u, w, b1), free, ice, a, OrderFreeze, key, ts, p);
    var b2 := b.(frozen := b.frozen - a, available := b.available + a);
    OffWithBal(l, u, w, b2, p);
    OffPost(l.WithBal(u, w, b2), ice, free, a, OrderUnfreeze, key, ts, p);
  }

  lemma OffFee(l: Ledger, u: UserId, f: Field, fee: int, key: Key, ts: Micros, p: Place)
    requires OfUser(p) && u != SYSTEM && fee >= 0
    ensures Off(AddFee(l, fee), p) == Off(l, p) + (if p == InPool(FeeCollection) then fee else 0)
    ensures Off(PostFee(l, u, f, fee, key, ts), p)
            == Off(l, p) - (if p == InPool(FeeCollection) then fee else 0)
               + (if p == InWallet(Slot(u, Futures, f)) then fee else 0)
  {
    hide Ledger.AddSys, Ledger.Post, Off;
    OffAddSys(l, FeeCollection, fee, p);
    OffPost(l, Slot(u, Futures, f), Slot(SYSTEM, FeeCollection, Available), fee, TradeFee, LegKey(key, "fee"), ts, p);
  }

  lemma OpenPosts(l: Ledger, u: UserId, m: int, fee: int, key: Key, ts: Micros, p: Place)
    requires OfUser(p) && u != SYSTEM && fee >= 0
    ensures Off(AfterOpen(l, u, m, fee, key, ts).0, p) == Off(l, p)
  {
    hide Ledger.Bal, Ledger.WithBal, Ledger.AddSys, Ledger.Post, Ledger.Touched, Ledger.Unkeyed, Off, AddFee,
         PostFee;
    OffTouched(l, u, Futures, key, p);
    var b := l.Bal(u, Futures);
    var b' := b.(frozen := b.frozen - (m + fee), margin := b.margin + m);
    OffWithBal(l, u, Futures, b', p);
    var l0 := l.WithBal(u, Futures, b');
    OffFee(l0, u, Frozen, fee, key, ts, p);
    var ice, held := Slot(u, Futures, Frozen), Slot(u, Futures, Margin);
    OffPost(AddFee(l0, fee), ice, held, m, PositionOpen, key, ts, p);
    OffFee(AddFee(l0, fee).Post(ice, held, m, PositionOpen, key, ts), u, Frozen, fee, key, ts, p);
  }

  // What the lines of a close say moved: margin to available, the profit, the fee.
  function CloseLines(u: UserId, m: int, pnl: int, fee: int, other: Slot, p: Place): int {
    var mine := Slot(u, Futures, Available);
    Moved(Slot(u, Futures, Margin), mine, m, PositionClose, p)
    + Moved(other, mine, pnl, PositionClose, p)
    - (if p == InWallet(mine) then fee else 0)
    + (if p == InPool(FeeCollection) then fee else 0)
  }

  lemma OffCloseLines(l: Ledger, u: UserId, m: int, pnl: int, fee: int, other: Slot, key: Key, ts: Micros, p: Place)
    requires OfUser(p) && u != SYSTEM && fee >= 0
    ensures Off(PostFee(PostPnl(PostRelease(l, u, m, key, ts), u, pnl, other, key, ts), u, Available, fee, key, ts), p)
            == Off(l, p) - CloseLines(u, m, pnl, fee, other, p)
  {
    hide Ledger.Post, Off, PostFee;
    var mine := Slot(u, Futures, Available);
    OffPost(l, Slot(u, Futures, Margin), mine, m, PositionClose, key, ts, p);
    var l1 := PostRelease(l, u, m, key, ts);
    OffPost(l1, other, mine, pnl, PositionClose, LegKey(key, "pnl"), ts, p);
    OffPost(l1, mine, other, -pnl, PositionClose, LegKey(key, "pnl"), ts, p);
    OffFee(PostPnl(l1, u, pnl, other, key, ts), u, Available, fee, key, ts, p);
  }

  lemma OffReleased(l: Ledger, u: UserId, m: int, pnl: int, fee: int, p: Place)
    ensures Off(Released(l, u, m, pnl, fee), p)
            == Off(l, p) - (if p == InWallet(Slot(u, Futures, Margin)) then m else 0)
               + (if p == InWallet(Slot(u, Futures, Available)) then m + pnl - fee else 0)
  {
    hide Ledger.Bal, Ledger.WithBal, Off;
    var b := l.Bal(u, Futures);
    OffWithBal(l, u, Futures, b.(margin := b.margin - m, available := b.available + (m + pnl - fee)), p);
  }

  lemma ClosePosts(l: Ledger, u: UserId, m: int, pnl: int, fee: int, cp: UserId, key: Key, ts: Micros, p: Place)
    requires OfUser(p) && u != SYSTEM && cp != SYSTEM && fee >= 0
    ensures Off(AfterClose(l, u, m, pnl, fee, cp, key, ts).0, p) == Off(l, p)
  {
    hide Ledger.Bal, Ledger.WithBal, Ledger.AddSys, Ledger.Post, Ledger.Touched, Ledger.Unkeyed, Off, AddFee,
         PostFee, PostPnl, PostRelease, Released;
    OffTouched(l, u, Futures, key, p);
    OffReleased(l, u, m, pnl, fee, p);
    var l1 := Released(l, u, m, pnl, fee);
    var c := l1.Bal(cp, Futures);
    var c' := c.(margin := c.margin - pnl);
    OffWithBal(l1, cp, Futures, c', p);
    var l2 := if pnl == 0 then l1 else l1.WithBal(cp, Futures, c');
    OffFee(l2, u, Available, fee, key, ts, p);
    OffCloseLines(AddFee(l2, fee), u, m, pnl, fee, Slot(cp, Futures, Margin), key, ts, p);
  }

  lemma CloseSettledPosts(l: Ledger, u: UserId, m: int, pnl: int, fee: int, key: Key, ts: Micros, p: Place)
    requires OfUser(p) && u != SYSTEM && fee >= 0
    ensures Off(AfterCloseSettled(l, u, m, pnl, fee, key, ts).0, p) == Off(l, p)
  {
    hide Ledger.Bal, Ledger.WithBal, Ledger.AddSys, Ledger.Post, Ledger.Touched, Ledger.Unkeyed, Off, AddFee,
         PostFee, PostPnl, PostRelease, Released;
    OffTouched(l, u, Futures, key, p);
    OffReleased(l, u, m, pnl, fee, p);
    OffFee(Released(l, u, m, pnl, fee), u, Available, fee, key, ts, p);
    OffCloseLines(AddFee(Released(l, u, m, pnl, fee), fee), u, m, pnl, fee, Slot(SYSTEM, Escrow, Available),
                  key, ts, p);
  }

  lemma LiquidatePosts(l: Ledger, u: UserId, m: int, surplus: int, key: Key, ts: Micros, p: Place)
    requires OfUser(p) && u != SYSTEM
    ensures Off(AfterLiquidate(l, u, m, surplus, key, ts).0, p) == Off(l, p)
  {
    hide Ledger.Bal, Ledger.Sys, Ledger.WithBal, Ledger.AddSys, Ledger.Post, Ledger.Unkeyed, Off;
    OffTouched(l, u, Futures, key, p);
    var b := l.Bal(u, Futures);
    var b' := b.(margin := b.margin - m);
    OffWithBal(l, u, Futures, b', p);
    OffAddSys(l.WithBal(u, Futures, b'), Escrow, m, p);
    var l1 := l.WithBal(u, Futures, b').AddSys(Escrow, m);
    var l2 := if surplus > 0 then l1.AddSys(Escrow, -surplus).AddSys(InsuranceFund, surplus)
              else if surplus < 0 then l1.AddSys(InsuranceFund, surplus).AddSys(Escrow, -surplus)
              else l1;
    assert Off(l2, p) == Off(l1, p) + (if p == InPool(Escrow) then -surplus
                                       else if p == InPool(InsuranceFund) then surplus else 0) by {
      OffAddSys(l1, Escrow, -surplus, p);
      OffAddSys(l1.AddSys(Escrow, -surplus), InsuranceFund, surplus, p);
      OffAddSys(l1, InsuranceFund, surplus, p);
      OffAddSys(l1.AddSys(InsuranceFund, surplus), Escrow, -surplus, p);
    }
    var escrow, fund := Slot(SYSTEM, Escrow, Available), Slot(SYSTEM, InsuranceFund, Available);
    OffPost(l2, Slot(u, Futures, Margin), escrow, m, Liquidation, key, ts, p);
    var l3 := l2.Post(Slot(u, Futures, Margin), escrow, m, Liquidation, key, ts);
    OffPost(l3, escrow, fund, surplus, InsuranceFundContribution, LegKey(key, "surplus"), ts, p);
    OffPost(l3, fund, escrow, -surplus, Liquidation, LegKey(key, "deficit"), ts, p);
  }

  // Paid out of a negative available balance, a funding payment brings that
  // balance up to zero and posts nothing for it.
  lemma FundingPosts(l: Ledger, u: UserId, x: int, key: Key, ts: Micros, p: Place)
    requires OfUser(p) && u != SYSTEM && x != 0
    ensures var a := l.Bal(u, Futures).available;
      var leak := if x > 0 && a < 0 && l.Bal(u, Futures).margin >= x - a then -a else 0;
      Off(AfterFunding(l, u, x, key, ts).0, p)
      == Off(l, p) + (if p == InWallet(Slot(u, Futures, Available)) then leak else 0)
                   - (if p == InPool(Funding) then leak else 0)
  {
    hide Ledger.Bal, Ledger.WithBal, Ledger.AddSys, Ledger.Post, Ledger.Touched, Ledger.Unkeyed, Off;
    OffTouched(l, u, Futures, key, p);
    var b := l.Bal(u, Futures);
    var mine, held, pool := Slot(u, Futures, Available), Slot(u, Futures, Margin), Slot(SYSTEM, Futures, Available);
    var fromAvailable := if x > 0 then Min(x, b.available) else x;
    var fromMargin := x - fromAvailable;
    var b' := b.(available := b.available - fromAvailable,
                  margin := b.margin - (if fromMargin > 0 then fromMargin else 0));
    OffWithBal(l, u, Futures, b', p);
    OffAddSys(l.WithBal(u, Futures, b'), Funding, x, p);
    var l1 := l.WithBal(u, Futures, b').AddSys(Funding, x);
    OffPost(l1, pool, mine, -x, FundingPayment, key, ts, p);
    OffPost(l1, mine, pool, fromAvailable, FundingPayment, key, ts, p);
    var l2 := if fromAvailable > 0 then l1.Post(mine, pool, fromAvailable, FundingPayment, key, ts) else l1;
    OffPost(l2, held, pool, fromMargin, FundingPayment, LegKey(key, "margin"), ts, p);
  }

  lemma CappedPosts(l: Ledger, u: UserId, signed: int, key: Key, ts: Micros, p: Place)
    requires OfUser(p) && u != SYSTEM && l.Bal(u, Funding).available >= 0
    ensures var l' := AfterCapped(l, u, signed, key, ts).0;
      Held(l', p) - Held(l, p) == Folded(l'.journal, p) - Folded(l.journal, p)
  {
    hide Ledger.Bal, Ledger.WithBal, Ledger.AddSys, Ledger.Post, Held, Folded;
    var b := l.Bal(u, Funding);
    var mine, pool := Slot(u, Funding, Available), Slot(SYSTEM, Funding, Available);
    var delta := if signed > 0 then signed else -Min(-signed, b.available);
    var b' := b.(available := b.available + delta);
    OffWithBal(l, u, Funding, b', p);
    OffAddSys(l.WithBal(u, Funding, b'), Funding, -delta, p);
    var l1 := l.WithBal(u, Funding, b').AddSys(Funding, -delta);
    OffPost(l1, pool, mine, delta, FundingPayment, key, ts, p);
    OffPost(l1, mine, pool, -delta, FundingPayment, key, ts, p);
  }

  // ── Steps and runs ────────────────────────────────────────────────────

  predicate ByUsers(op: LedgerOp) {
    op.user != SYSTEM && (op.OpClosePosition? ==> op.counterparty != SYSTEM)
  }

  // What an operation moves without posting: a funding payment taken from a
  // futures wallet whose available balance is negative and whose margin covers
  // the payment and the shortfall.
  function Leak(l: Ledger, op: LedgerOp, key: Key): nat {
    if op.OpSettleFunding? && op.payment > 0 && key !in l.keys && op.user in l.accounts
       && l.Bal(op.user, Futures).available < 0
       && l.Bal(op.user, Futures).margin >= op.payment - l.Bal(op.user, Futures).available
    then -l.Bal(op.user, Futures).available
    else 0
  }

  ghost predicate FundingSafe(l: Ledger) {
    forall u :: l.Bal(u, Funding).available >= 0
  }

  // The exact effect of every operation on the difference between the books
  // and the balances.
  lemma StepPosts(l: Ledger, op: LedgerOp, key: Key, ts: Micros, p: Place)
    requires ByUsers(op) && OfUser(p) && FundingSafe(l)
    ensures Off(Apply(l, op, key, ts).0, p)
            == Off(l, p) + (if p == InWallet(Slot(op.user, Futures, Available)) then Leak(l, op, key) else 0)
                         - (if p == InPool(Funding) then Leak(l, op, key) else 0)
  {
    hide Held, Folded, AfterDeposit, AfterWithdraw, AfterTransfer, AfterFreeze, AfterUnfreeze, AfterOpen, AfterClose,
         AfterCloseSettled, AfterLiquidate, AfterFunding, AfterCapped, Ledger.Bal, Ledger.Keyed;
    OffTouched(l, op.user, Futures, key, p);
    if BadArguments(op) || NothingToDo(op) { return; }
    var k := l.Keyed(key);
    SameBalances(l, key);
    match op {
      case OpDeposit(u, a) => DepositPosts(k, u, a, key, ts, p);
      case OpWithdraw(u, a) => WithdrawPosts(k, u, a, key, ts, p);
      case OpTransfer(u, from, to, a) => TransferPosts(k, u, from, to, a, key, ts, p);
      case OpFreeze(u, w, a) => FreezePosts(k, u, w, a, key, ts, p);
      case OpUnfreeze(u, w, a) => FreezePosts(k, u, w, a, key, ts, p);
      case OpOpenPosition(u, m, fee) => OpenPosts(k, u, m, fee, key, ts, p);
      case OpClosePosition(u, m, pnl, fee, cp) => ClosePosts(k, u, m, pnl, fee, cp, key, ts, p);
      case OpCloseSettled(u, m, pnl, fee) => CloseSettledPosts(k, u, m, pnl, fee, key, ts, p);
      case OpLiquidate(u, m, surplus) => LiquidatePosts(k, u, m, surplus, key, ts, p);
      case OpSettleFunding(u, x) => FundingPosts(k, u, x, key, ts, p);
      case OpSettleCapped(u, s) => CappedPosts(k, u, s, key, ts, p);
    }
  }

  lemma SameBalances(l: Ledger, key: Key)
    ensures forall u, w :: l.Keyed(key).Bal(u, w) == l.Bal(u, w)
  {
  }

  // The funding wallet is never overdrawn, whatever is called.
  lemma StepFundingSafe(l: Ledger, op: LedgerOp, key: Key, ts: Micros)
    requires FundingSafe(l)
    ensures FundingSafe(Apply(l, op, key, ts).0)
  {
    hide Apply;
    forall u ensures Apply(l, op, key, ts).0.Bal(u, Funding).available >= 0 {
      StepCovered(l, op, key, ts, u);
    }
  }

  predicate Covered(l: Ledger, u: UserId) {
    l.Bal(u, Funding).available >= 0
  }

  lemma CoveredWithBal(l: Ledger, u: UserId, w: WalletType, b: Balance, v: UserId)
    requires Covered(l, v) && (w == Funding ==> b.available >= 0)
    ensures Covered(l.WithBal(u, w, b), v)
  {
  }

  lemma CoveredOtherwise(l: Ledger, v: UserId, key: Key, u: UserId, w: WalletType)
    requires Covered(l, v)
    ensures Covered(l.Keyed(key), v) && Covered(l.Unkeyed(key), v)
    ensures Covered(l.Touched(u, w), v) && Covered(l.Touched(u, w).Unkeyed(key), v)
  {
  }

  lemma MovesCovered(l: Ledger, op: LedgerOp, key: Key, ts: Micros, v: UserId)
    requires op.OpDeposit? || op.OpWithdraw? || op.OpFreeze? || op.OpUnfreeze? || op.OpSettleCapped?
    requires Covered(l, op.user) && Covered(l, v) && !BadArguments(op)
    ensures Covered(Execute(l, op, key, ts).0, v)
  {
    hide Ledger.WithBal, Ledger.Touched, Ledger.Unkeyed;
    var u := op.user;
    var w := if op.OpFreeze? || op.OpUnfreeze? then op.wallet else Funding;
    CoveredOtherwise(l, v, key, u, w);
    var b := l.Bal(u, w);
    match op {
      case OpDeposit(_, a) => CoveredWithBal(l, u, w, b.(available := b.available + a), v);
      case OpWithdraw(_, a) =>
        if b.available >= a { CoveredWithBal(l, u, w, b.(available := b.available - a), v); }
      case OpFreeze(_, _, a) =>
        if b.available >= a {
          CoveredWithBal(l, u, w, b.(available := b.available - a, frozen := b.frozen + a), v);
        }
      case OpUnfreeze(_, _, a) =>
        if b.frozen >= a {
          CoveredWithBal(l, u, w, b.(frozen := b.frozen - a, available := b.available + a), v);
        }
      case OpSettleCapped(_, s) =>
        var delta := if s > 0 then s else -Min(-s, b.available);
        CoveredWithBal(l, u, w, b.(available := b.available + delta), v);
    }
  }

  lemma TransferCovered(l: Ledger, u: UserId, from: WalletType, to: WalletType, a: int, key: Key, ts: Micros,
                        v: UserId)
    requires Covered(l, u) && Covered(l, v) && a > 0
    ensures Covered(AfterTransfer(l, u, from, to, a, key, ts).0, v)
  {
    hide Ledger.WithBal, Ledger.Touched, Ledger.Unkeyed;
    CoveredOtherwise(l, v, key, u, from);
    var b := l.Bal(u, from);
    if b.available >= a {
      var b' := b.(available := b.available - a);
      CoveredWithBal(l, u, from, b', v);
      CoveredWithBal(l, u, from, b', u);
      var c := l.WithBal(u, from, b').Bal(u, to);
      CoveredWithBal(l.WithBal(u, from, b'), u, to, c.(available := c.available + a), v);
    }
  }

  // The other operations write only futures wallets.
  lemma FuturesCovered(l: Ledger, op: LedgerOp, key: Key, ts: Micros, v: UserId)
    requires op.OpOpenPosition? || op.OpClosePosition? || op.OpCloseSettled? || op.OpLiquidate? || op.OpSettleFunding?
    requires Covered(l, v)
    ensures Covered(Execute(l, op, key, ts).0, v)
  {
    hide Ledger.WithBal, Ledger.Touched, Ledger.Unkeyed;
    CoveredOtherwise(l, v, key, op.user, Futures);
    var b := l.Bal(op.user, Futures);
    match op {
      case OpOpenPosition(u, m, fee) =>
        CoveredWithBal(l, u, Futures, b.(frozen := b.frozen - (m + fee), margin := b.margin + m), v);
      case OpClosePosition(u, m, pnl, fee, cp) =>
        CoveredWithBal(l, u, Futures, b.(margin := b.margin - m, available := b.available + (m + pnl - fee)), v);
        var l1 := Released(l, u, m, pnl, fee);
        var c := l1.Bal(cp, Futures);
        CoveredWithBal(l1, cp, Futures, c.(margin := c.margin - pnl), v);
      case OpCloseSettled(u, m, pnl, fee) =>
        CoveredWithBal(l, u, Futures, b.(margin := b.margin - m, available := b.available + (m + pnl - fee)), v);
      case OpLiquidate(u, m, surplus) =>
        CoveredWithBal(l, u, Futures, b.(margin := b.margin - m), v);
      case OpSettleFunding(u, x) =>
        FundingCovered(l, u, x, key, ts, v);
    }
  }

  lemma FundingCovered(l: Ledger, u: UserId, x: int, key: Key, ts: Micros, v: UserId)
    requires Covered(l, v)
    ensures Covered(AfterFunding(l, u, x, key, ts).0, v)
  {
    hide Ledger.WithBal, Ledger.Touched, Ledger.Unkeyed;
    CoveredOtherwise(l, v, key, u, Futures);
    var b := l.Bal(u, Futures);
    var fromAvailable := if x > 0 then Min(x, b.available) else x;
    var fromMargin := x - fromAvailable;
    var b' := b.(available := b.available - fromAvailable,
                  margin := b.margin - (if fromMargin > 0 then fromMargin else 0));
    CoveredWithBal(l, u, Futures, b', v);
  }

  lemma StepCovered(l: Ledger, op: LedgerOp, key: Key, ts: Micros, v: UserId)
    requires FundingSafe(l)
    ensures Covered(Apply(l, op, key, ts).0, v)
  {
    hide Execute, Ledger.Keyed, Ledger.Bal;
    CoveredOtherwise(l, v, key, op.user, Funding);
    CoveredOtherwise(l, op.user, key, op.user, Funding);
    if BadArguments(op) { return; }
    var k := l.Keyed(key);
    match op {
      case OpTransfer(u, from, to, a) => TransferKept(k, u, from, to, a, key, ts, v);
      case OpDeposit(_, _) => MovesCovered(k, op, key, ts, v);
      case OpWithdraw(_, _) => MovesCovered(k, op, key, ts, v);
      case OpFreeze(_, _, _) => MovesCovered(k, op, key, ts, v);
      case OpUnfreeze(_, _, _) => MovesCovered(k, op, key, ts, v);
      case OpSettleCapped(_, _) => MovesCovered(k, op, key, ts, v);
      case _ => FuturesCovered(k, op, key, ts, v);
    }
  }

  lemma TransferKept(k: Ledger, u: UserId, from: WalletType, to: WalletType, a: int, key: Key, ts: Micros,
                     v: UserId)
    requires Covered(k, u) && Covered(k, v) && a > 0
    ensures Covered(Execute(k, OpTransfer(u, from, to, a), key, ts).0, v)
  {
    TransferCovered(k, u, from, to, a, key, ts, v);
  }

  lemma {:induction false} RunFundingSafe(calls: seq<LedgerCall>)
    ensures FundingSafe(LedgerAfter(calls))
  {
    if calls != [] {
      var c := calls[|calls| - 1];
      RunFundingSafe(calls[..|calls| - 1]);
      StepFundingSafe(LedgerAfter(calls[..|calls| - 1]), c.op, c.key, c.ts);
    }
  }

  predicate CalledByUsers(calls: seq<LedgerCall>) {
    forall c :: c in calls ==> ByUsers(c.op)
  }

  // Everything a run moved into u's futures wallet without posting it.
  function Leaked(calls: seq<LedgerCall>, u: UserId): nat {
    if calls == [] then 0
    else
      var c, before := calls[|calls| - 1], calls[..|calls| - 1];
      Leaked(before, u) + (if c.op.user == u then Leak(LedgerAfter(before), c.op, c.key) else 0)
  }

  // After any run, every user balance is what the journal says, plus what
  // leaked into that user's futures wallet.
  lemma {:induction false} RunPosts(calls: seq<LedgerCall>, s: Slot)
    requires CalledByUsers(calls) && s.user != SYSTEM
    ensures var leaked := if s.wallet == Futures && s.field == Available then Leaked(calls, s.user) else 0;
      Held(LedgerAfter(calls), InWallet(s)) == Folded(LedgerAfter(calls).journal, InWallet(s)) + leaked
  {
    if calls != [] {
      hide Apply, Leak, Held, Folded;
      var c, before := calls[|calls| - 1], calls[..|calls| - 1];
      RunPosts(before, s);
      RunFundingSafe(before);
      StepPosts(LedgerAfter(before), c.op, c.key, c.ts, InWallet(s));
    }
  }

  function LeakedAll(calls: seq<LedgerCall>): nat {
    if calls == [] then 0
    else
      var c, before := calls[|calls| - 1], calls[..|calls| - 1];
      LeakedAll(before) + Leak(LedgerAfter(before), c.op, c.key)
  }

  // After any run, every pool is what the journal says, but for the funding
  // pool, which lacks everything that leaked.
  lemma {:induction false} RunPools(calls: seq<LedgerCall>, w: WalletType)
    requires CalledByUsers(calls)
    ensures LedgerAfter(calls).Sys(w)
            == Folded(LedgerAfter(calls).journal, InPool(w)) - (if w == Funding then LeakedAll(calls) else 0)
  {
    if calls != [] {
      hide Apply, Leak, Folded, Ledger.Sys;
      var c, before := calls[|calls| - 1], calls[..|calls| - 1];
      RunPools(before, w);
      RunFundingSafe(before);
      StepPosts(LedgerAfter(before), c.op, c.key, c.ts, InPool(w));
    }
  }

  predicate LeakFree(calls: seq<LedgerCall>) {
    calls == []
    || (var c, before := calls[|calls| - 1], calls[..|calls| - 1];
        LeakFree(before) && Leak(LedgerAfter(before), c.op, c.key) == 0)
  }

  ghost predicate NoneLeaked(calls: seq<LedgerCall>) {
    forall u :: u != SYSTEM ==> Leaked(calls, u) == 0
  }

  lemma {:induction false} LeakedIff(calls: seq<LedgerCall>)
    requires CalledByUsers(calls)
    ensures LeakFree(calls) <==> NoneLeaked(calls)
  {
    if calls != [] {
      hide Leak, LedgerAfter;
      var c, before := calls[|calls| - 1], calls[..|calls| - 1];
      LeakedIff(before);
      var x := Leak(LedgerAfter(before), c.op, c.key);
      forall u ensures Leaked(calls, u) == Leaked(before, u) + (if c.op.user == u then x else 0) {}
      if x != 0 {
        assert Leaked(calls, c.op.user) > 0;
      } else if LeakFree(before) {
        forall u | u != SYSTEM ensures Leaked(calls, u) == 0 {
          assert Leaked(before, u) == 0;
        }
      } else {
        var u :| u != SYSTEM && Leaked(before, u) != 0;
        assert Leaked(calls, u) != 0;
        assert !NoneLeaked(calls);
        assert !LeakFree(calls);
      }
    }
  }

  // The journal determines every user balance exactly when no funding payment
  // of the run was taken from a negative available balance.
  lemma JournalDeterminesUsers(calls: seq<LedgerCall>)
    requires CalledByUsers(calls)
    ensures (forall s: Slot :: s.user != SYSTEM ==>
               Held(LedgerAfter(calls), InWallet(s)) == Folded(LedgerAfter(calls).journal, InWallet(s)))
            <==> LeakFree(calls)
  {
    hide Held, Folded, LeakFree, LedgerAfter;
    LeakedIff(calls);
    if LeakFree(calls) {
      forall s: Slot | s.user != SYSTEM
        ensures Held(LedgerAfter(calls), InWallet(s)) == Folded(LedgerAfter(calls).journal, InWallet(s))
      {
        RunPosts(calls, s);
      }
    } else {
      var u :| u != SYSTEM && Leaked(calls, u) != 0;
      var s := Slot(u, Futures, Available);
      RunPosts(calls, s);
      assert Held(LedgerAfter(calls), InWallet(s)) != Folded(LedgerAfter(calls).journal, InWallet(s));
    }
  }

  // The flaw can be reached: a loss settled beyond available leaves it
  // negative, and the next funding payment is taken from margin.
  function LeakyRun(): seq<LedgerCall> {
    [LedgerCall(OpDeposit(1, 10), AdminKey("a"), 0),
     LedgerCall(OpTransfer(1, Funding, Futures, 10), AdminKey("b"), 0),
     LedgerCall(OpFreeze(1, Futures, 10), AdminKey("c"), 0),
     LedgerCall(OpOpenPosition(1, 10, 0), AdminKey("d"), 0),
     LedgerCall(OpCloseSettled(1, 1, -3, 0), AdminKey("e"), 0),
     LedgerCall(OpSettleFunding(1, 1), AdminKey("f"), 0)]
  }

  lemma LeakReached()
    ensures CalledByUsers(LeakyRun()) && !LeakFree(LeakyRun())
  {
    var calls := LeakyRun();
    var five := calls[..5];
    FiveCalls(five);
  }

  lemma LedgerSnoc(calls: seq<LedgerCall>, c: LedgerCall)
    ensures LedgerAfter(calls + [c]) == Apply(LedgerAfter(calls), c.op, c.key, c.ts).0
  {
    assert (calls + [c])[..|calls|] == calls;
  }

  // User 1's wallets after some of the calls, and the keys taken so far.
  predicate Shows(l: Ledger, funding: int, futures: Balance, keys: set<Key>) {
    1 in l.accounts && l.Bal(1, Funding).available == funding && l.Bal(1, Futures) == futures && l.keys == keys
  }

  lemma FirstTwo()
    ensures var l1 := Apply(EMPTY_LEDGER, OpDeposit(1, 10), AdminKey("a"), 0).0;
      && Shows(l1, 10, ZERO_BALANCE, {AdminKey("a")})
      && Shows(Apply(l1, OpTransfer(1, Funding, Futures, 10), AdminKey("b"), 0).0, 0, Balance(10, 0, 0),
               {AdminKey("a"), AdminKey("b")})
  {
  }

  lemma NextTwo(l2: Ledger)
    requires Shows(l2, 0, Balance(10, 0, 0), {AdminKey("a"), AdminKey("b")})
    ensures var l3 := Apply(l2, OpFreeze(1, Futures, 10), AdminKey("c"), 0).0;
      && Shows(l3, 0, Balance(0, 10, 0), {AdminKey("a"), AdminKey("b"), AdminKey("c")})
      && Shows(Apply(l3, OpOpenPosition(1, 10, 0), AdminKey("d"), 0).0, 0, Balance(0, 0, 10),
               {AdminKey("a"), AdminKey("b"), AdminKey("c"), AdminKey("d")})
  {
  }

  lemma Loss(l4: Ledger)
    requires Shows(l4, 0, Balance(0, 0, 10), {AdminKey("a"), AdminKey("b"), AdminKey("c"), AdminKey("d")})
    ensures Shows(Apply(l4, OpCloseSettled(1, 1, -3, 0), AdminKey("e"), 0).0, 0, Balance(-2, 0, 9),
                  {AdminKey("a"), AdminKey("b"), AdminKey("c"), AdminKey("d"), AdminKey("e")})
  {
  }

  lemma FourCalls(four: seq<LedgerCall>)
    requires four == LeakyRun()[..4]
    ensures Shows(LedgerAfter(four), 0, Balance(0, 0, 10),
                  {AdminKey("a"), AdminKey("b"), AdminKey("c"), AdminKey("d")})
  {
    hide LedgerAfter, Apply;
    var c := LeakyRun();
    LedgerSnoc([], c[0]);
    LedgerSnoc([c[0]], c[1]);
    LedgerSnoc([c[0], c[1]], c[2]);
    LedgerSnoc([c[0], c[1], c[2]], c[3]);
    assert [] + [c[0]] == [c[0]] && [c[0]] + [c[1]] == [c[0], c[1]];
    assert [c[0], c[1]] + [c[2]] == [c[0], c[1], c[2]] && four == [c[0], c[1], c[2]] + [c[3]];
    EmptyBefore();
    FirstTwo();
    NextTwo(LedgerAfter([c[0], c[1]]));
  }

  lemma FiveCalls(five: seq<LedgerCall>)
    requires five == LeakyRun()[..5]
    ensures var l := LedgerAfter(five);
      1 in l.accounts && AdminKey("f") !in l.keys && l.Bal(1, Futures) == Balance(-2, 0, 9)
  {
    hide LedgerAfter, Apply;
    var four := LeakyRun()[..4];
    assert five == four + [LeakyRun()[4]];
    FourCalls(four);
    LedgerSnoc(four, LeakyRun()[4]);
    Loss(LedgerAfter(four));
  }

  lemma EmptyBefore()
    ensures LedgerAfter([]) == EMPTY_LEDGER
  {
  }
}
