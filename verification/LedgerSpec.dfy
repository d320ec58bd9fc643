// The ledger as a value: balances, system pools, journal and idempotency keys,
// and what each money operation does to them.
module LedgerSpec {
  import opened Common

  datatype WalletType = Spot | Futures | Funding | InsuranceFund | FeeCollection | Escrow

  datatype Field = Available | Frozen | Margin

  datatype Balance = Balance(available: int, frozen: int, margin: int) {
    function Total(): int {
      available + frozen + margin
    }

    function At(f: Field): int {
      match f
      case Available => available
      case Frozen => frozen
      case Margin => margin
    }
  }

  const ZERO_BALANCE := Balance(0, 0, 0)

  datatype EntryType =
    | Deposit | Withdrawal | TradeFee | PositionOpen | PositionClose | FundingPayment | Liquidation
    | Transfer | OrderFreeze | OrderUnfreeze | InsuranceFundContribution

  // One place money can be: a user's wallet field, or a system pool under SYSTEM.
  datatype Slot = Slot(user: UserId, wallet: WalletType, field: Field)

  const SYSTEM: UserId := 0

  // A double-entry record: the debit side loses the amount, the credit side gains it.
  datatype JournalEntry = JournalEntry(id: nat, debit: Slot, credit: Slot, amount: int, kind: EntryType,
                                       key: Key, timestamp: Micros)

  datatype LedgerError =
    | InvalidQuantity | AccountNotFound(user: UserId) | InsufficientBalance | InsuranceFundDepleted
    | Panicked

  type Wallets = map<WalletType, Balance>

  function WalletIn(wallets: Wallets, w: WalletType): Balance {
    if w in wallets then wallets[w] else ZERO_BALANCE
  }

  datatype Ledger = Ledger(
    accounts: map<UserId, Wallets>,
    system: map<WalletType, int>,
    journal: seq<JournalEntry>,
    nextId: nat,
    keys: set<Key>)
  {
    // A balance, zero where no wallet exists yet.
    function Bal(u: UserId, w: WalletType): Balance {
      if u in accounts then WalletIn(accounts[u], w) else ZERO_BALANCE
    }

    function Sys(w: WalletType): int {
      if w in system then system[w] else 0
    }

    function Opened(u: UserId): Ledger {
      if u in accounts then this else this.(accounts := accounts[u := map[]])
    }

    function WithBal(u: UserId, w: WalletType, b: Balance): Ledger {
      this.(accounts := accounts[u := (if u in accounts then accounts[u] else map[])[w := b]])
    }

    // A wallet looked up for writing exists from then on.
    function Touched(u: UserId, w: WalletType): Ledger {
      WithBal(u, w, Bal(u, w))
    }

    function AddSys(w: WalletType, amount: int): Ledger {
      this.(system := system[w := Sys(w) + amount])
    }

    function Keyed(key: Key): Ledger {
      this.(keys := keys + {key})
    }

    function Unkeyed(key: Key): Ledger {
      this.(keys := keys - {key})
    }

    function Post(debit: Slot, credit: Slot, amount: int, kind: EntryType, key: Key, ts: Micros): Ledger {
      this.(journal := journal + [JournalEntry(nextId, debit, credit, amount, kind, key, ts)],
            nextId := nextId + 1)
    }
  }

  const EMPTY_LEDGER := Ledger(map[], map[], [], 1, {})

  // ── Operations ────────────────────────────────────────────────────────

  datatype LedgerOp =
    | OpDeposit(user: UserId, amount: int)
    | OpWithdraw(user: UserId, amount: int)
    | OpTransfer(user: UserId, from: WalletType, to: WalletType, amount: int)
    | OpFreeze(user: UserId, wallet: WalletType, amount: int)
    | OpUnfreeze(user: UserId, wallet: WalletType, amount: int)
    | OpOpenPosition(user: UserId, margin: int, fee: int)
    | OpClosePosition(user: UserId, released: int, pnl: int, fee: int, counterparty: UserId)
    | OpCloseSettled(user: UserId, released: int, pnl: int, fee: int)
    | OpLiquidate(user: UserId, seized: int, surplus: int)
    | OpSettleFunding(user: UserId, payment: int)
    | OpSettleCapped(user: UserId, signed: int)

  // What an operation returns: the new ledger, and the amount moved or an error.
  type LedgerResult = (Ledger, Result<int, LedgerError>)

  // Whether the arguments are refused before anything is looked up.
  predicate BadArguments(op: LedgerOp) {
    match op
    case OpDeposit(_, a) => a <= 0
    case OpWithdraw(_, a) => a <= 0
    case OpTransfer(_, _, _, a) => a <= 0
    case OpFreeze(_, _, a) => a <= 0
    case OpUnfreeze(_, _, a) => a <= 0
    case OpOpenPosition(_, m, fee) => m <= 0 || fee < 0
    case OpClosePosition(_, m, _, fee, _) => m <= 0 || fee < 0
    case OpCloseSettled(_, m, _, fee) => m <= 0 || fee < 0
    case OpLiquidate(_, m, _) => m <= 0
    case OpSettleFunding(_, _) => false
    case OpSettleCapped(_, _) => false
  }

  // A zero settlement does nothing, not even consume its key.
  predicate NothingToDo(op: LedgerOp) {
    (op.OpSettleFunding? && op.payment == 0) || (op.OpSettleCapped? && op.signed == 0)
  }

  // The checks every operation begins with: arguments, key, account. A key is
  // taken before the account is looked up.
  function Checked(l: Ledger, op: LedgerOp, key: Key, after: LedgerResult): LedgerResult {
    if BadArguments(op) then (l, Err(InvalidQuantity))
    else if NothingToDo(op) || key in l.keys then (l, Ok(0))
    else if !op.OpDeposit? && op.user !in l.accounts then (l.Keyed(key), Err(AccountNotFound(op.user)))
    else after
  }

  // What the operation does once its key is taken.
  function Execute(k: Ledger, op: LedgerOp, key: Key, ts: Micros): LedgerResult {
    match op
    case OpDeposit(u, a) => (AfterDeposit(k, u, a, key, ts), Ok(0))
    case OpWithdraw(u, a) => AfterWithdraw(k, u, a, key, ts)
    case OpTransfer(u, f, t, a) => AfterTransfer(k, u, f, t, a, key, ts)
    case OpFreeze(u, w, a) => AfterFreeze(k, u, w, a, key, ts)
    case OpUnfreeze(u, w, a) => AfterUnfreeze(k, u, w, a, key, ts)
    case OpOpenPosition(u, m, fee) => AfterOpen(k, u, m, fee, key, ts)
    case OpClosePosition(u, m, pnl, fee, cp) => AfterClose(k, u, m, pnl, fee, cp, key, ts)
    case OpCloseSettled(u, m, pnl, fee) => AfterCloseSettled(k, u, m, pnl, fee, key, ts)
    case OpLiquidate(u, m, surplus) => AfterLiquidate(k, u, m, surplus, key, ts)
    case OpSettleFunding(u, p) => AfterFunding(k, u, p, key, ts)
    case OpSettleCapped(u, s) => AfterCapped(k, u, s, key, ts)
  }

  // One idempotent operation. Its key stays taken on success and on a missing
  // account; the other errors give it back.
  function Apply(l: Ledger, op: LedgerOp, key: Key, ts: Micros): LedgerResult {
    Checked(l, op, key, Execute(l.Keyed(key), op, key, ts))
  }

  // Deposit: external funds to the user's funding wallet.
  function AfterDeposit(l: Ledger, u: UserId, a: int, key: Key, ts: Micros): Ledger {
    var b := l.Bal(u, Funding);
    l.WithBal(u, Funding, b.(available := b.available + a))
     .Post(Slot(SYSTEM, Funding, Available), Slot(u, Funding, Available), a, Deposit, key, ts)
  }

  function AfterWithdraw(l: Ledger, u: UserId, a: int, key: Key, ts: Micros): LedgerResult {
    var b := l.Bal(u, Funding);
    if b.available < a then (l.Touched(u, Funding).Unkeyed(key), Err(InsufficientBalance))
    else
      (l.WithBal(u, Funding, b.(available := b.available - a))
        .Post(Slot(u, Funding, Available), Slot(SYSTEM, Funding, Available), a, Withdrawal, key, ts),
       Ok(0))
  }

  function AfterTransfer(l: Ledger, u: UserId, from: WalletType, to: WalletType, a: int, key: Key,
                         ts: Micros): LedgerResult {
    var b := l.Bal(u, from);
    if b.available < a then (l.Touched(u, from).Unkeyed(key), Err(InsufficientBalance))
    else
      var l1 := l.WithBal(u, from, b.(available := b.available - a));
      var c := l1.Bal(u, to);
      (l1.WithBal(u, to, c.(available := c.available + a))
         .Post(Slot(u, from, Available), Slot(u, to, Available), a, Transfer, key, ts),
       Ok(0))
  }

  // Freeze for a new order: available to frozen.
  function AfterFreeze(l: Ledger, u: UserId, w: WalletType, a: int, key: Key, ts: Micros): LedgerResult {
    var b := l.Bal(u, w);
    if b.available < a then (l.Touched(u, w).Unkeyed(key), Err(InsufficientBalance))
    else
      (l.WithBal(u, w, b.(available := b.available - a, frozen := b.frozen + a))
        .Post(Slot(u, w, Available), Slot(u, w, Frozen), a, OrderFreeze, key, ts),
       Ok(0))
  }

  function AfterUnfreeze(l: Ledger, u: UserId, w: WalletType, a: int, key: Key, ts: Micros): LedgerResult {
    var b := l.Bal(u, w);
    if b.frozen < a then (l.Touched(u, w).Unkeyed(key), Err(InsufficientBalance))
    else
      (l.WithBal(u, w, b.(frozen := b.frozen - a, available := b.available + a))
        .Post(Slot(u, w, Frozen), Slot(u, w, Available), a, OrderUnfreeze, key, ts),
       Ok(0))
  }

  // The fee line shared by opening and closing: to the fee pool, if positive.
  function PostFee(l: Ledger, u: UserId, f: Field, fee: int, key: Key, ts: Micros): Ledger {
    if fee > 0 then
      l.Post(Slot(u, Futures, f), Slot(SYSTEM, FeeCollection, Available), fee, TradeFee,
             LegKey(key, "fee"), ts)
    else l
  }

  function AddFee(l: Ledger, fee: int): Ledger {
    if fee > 0 then l.AddSys(FeeCollection, fee) else l
  }

  // Open: frozen to margin, and the fee out of frozen.
  function AfterOpen(l: Ledger, u: UserId, m: int, fee: int, key: Key, ts: Micros): LedgerResult {
    var b := l.Bal(u, Futures);
    if b.frozen < m + fee then (l.Touched(u, Futures).Unkeyed(key), Err(InsufficientBalance))
    else
      var l1 := AddFee(l.WithBal(u, Futures,
                         b.(frozen := b.frozen - (m + fee), margin := b.margin + m)), fee);
      (PostFee(l1.Post(Slot(u, Futures, Frozen), Slot(u, Futures, Margin), m, PositionOpen, key, ts),
               u, Frozen, fee, key, ts),
       Ok(0))
  }

  // The release both ways of closing begin with.
  function Released(l: Ledger, u: UserId, m: int, pnl: int, fee: int): Ledger {
    var b := l.Bal(u, Futures);
    l.WithBal(u, Futures, b.(margin := b.margin - m, available := b.available + (m + pnl - fee)))
  }

  function PostRelease(l: Ledger, u: UserId, m: int, key: Key, ts: Micros): Ledger {
    l.Post(Slot(u, Futures, Margin), Slot(u, Futures, Available), m, PositionClose, key, ts)
  }

  // The PnL line: from `other` to the user for a profit, the other way for a loss.
  function PostPnl(l: Ledger, u: UserId, pnl: int, other: Slot, key: Key, ts: Micros): Ledger {
    var mine := Slot(u, Futures, Available);
    if pnl > 0 then l.Post(other, mine, pnl, PositionClose, LegKey(key, "pnl"), ts)
    else if pnl < 0 then l.Post(mine, other, -pnl, PositionClose, LegKey(key, "pnl"), ts)
    else l
  }

  // Close against a counterparty, whose margin pays the profit or takes the loss.
  function AfterClose(l: Ledger, u: UserId, m: int, pnl: int, fee: int, cp: UserId, key: Key,
                         ts: Micros): LedgerResult {
    if l.Bal(u, Futures).margin < m then (l.Unkeyed(key), Err(InsufficientBalance))
    else if pnl > 0 && cp !in l.accounts then (l, Err(AccountNotFound(cp)))
    else if pnl > 0 && l.Bal(cp, Futures).margin < pnl then (l.Unkeyed(key), Err(InsufficientBalance))
    else
      var l1 := Released(l, u, m, pnl, fee);
      var c := l1.Bal(cp, Futures);
      var l2 := AddFee(if pnl == 0 then l1 else l1.WithBal(cp, Futures, c.(margin := c.margin - pnl)), fee);
      (PostFee(PostPnl(PostRelease(l2, u, m, key, ts), u, pnl, Slot(cp, Futures, Margin), key, ts),
               u, Available, fee, key, ts),
       Ok(0))
  }

  // Close against the exchange: the PnL line names the escrow pool, whose
  // balance does not move.
  function AfterCloseSettled(l: Ledger, u: UserId, m: int, pnl: int, fee: int, key: Key, ts: Micros): LedgerResult {
    if l.Bal(u, Futures).margin < m then (l.Unkeyed(key), Err(InsufficientBalance))
    else
      var l1 := AddFee(Released(l, u, m, pnl, fee), fee);
      (PostFee(PostPnl(PostRelease(l1, u, m, key, ts), u, pnl, Slot(SYSTEM, Escrow, Available), key, ts),
               u, Available, fee, key, ts),
       Ok(0))
  }

  // Liquidate: margin to escrow, then surplus on to the insurance fund or the
  // deficit out of it.
  function AfterLiquidate(l: Ledger, u: UserId, m: int, surplus: int, key: Key, ts: Micros): LedgerResult {
    var b := l.Bal(u, Futures);
    if b.margin < m then (l.Unkeyed(key), Err(InsufficientBalance))
    else if surplus < 0 && l.Sys(InsuranceFund) < -surplus then (l.Unkeyed(key), Err(InsuranceFundDepleted))
    else if surplus > 0 && l.Sys(Escrow) + m < surplus then (l, Err(Panicked))
    else
      var l1 := l.WithBal(u, Futures, b.(margin := b.margin - m)).AddSys(Escrow, m);
      (PostSeizure(AdjustPools(l1, surplus), u, m, surplus, key, ts), Ok(0))
  }

  // A surplus goes from escrow to the insurance fund, a deficit the other way.
  function AdjustPools(l: Ledger, surplus: int): Ledger {
    if surplus > 0 then l.AddSys(Escrow, -surplus).AddSys(InsuranceFund, surplus)
    else if surplus < 0 then l.AddSys(InsuranceFund, surplus).AddSys(Escrow, -surplus)
    else l
  }

  function PostSeizure(l: Ledger, u: UserId, m: int, surplus: int, key: Key, ts: Micros): Ledger {
    var escrow, fund := Slot(SYSTEM, Escrow, Available), Slot(SYSTEM, InsuranceFund, Available);
    var l1 := l.Post(Slot(u, Futures, Margin), escrow, m, Liquidation, key, ts);
    if surplus > 0 then
      l1.Post(escrow, fund, surplus, InsuranceFundContribution, LegKey(key, "surplus"), ts)
    else if surplus < 0 then l1.Post(fund, escrow, -surplus, Liquidation, LegKey(key, "deficit"), ts)
    else l1
  }

  // Settle a funding payment against the futures wallet: available first, then
  // margin; a negative payment is received.
  function AfterFunding(l: Ledger, u: UserId, p: int, key: Key, ts: Micros): LedgerResult {
    var b := l.Bal(u, Futures);
    var mine, pool := Slot(u, Futures, Available), Slot(SYSTEM, Futures, Available);
    if p > 0 then
      var fromAvailable := Min(p, b.available);
      var fromMargin := p - fromAvailable;
      if fromMargin > 0 && b.margin < fromMargin then (l.Touched(u, Futures).Unkeyed(key), Err(InsufficientBalance))
      else
        var l1 := l.WithBal(u, Futures,
                    b.(available := b.available - fromAvailable,
                       margin := b.margin - (if fromMargin > 0 then fromMargin else 0))).AddSys(Funding, p);
        var l2 := if fromAvailable > 0 then l1.Post(mine, pool, fromAvailable, FundingPayment, key, ts) else l1;
        (if fromMargin > 0 then
           l2.Post(Slot(u, Futures, Margin), pool, fromMargin, FundingPayment, LegKey(key, "margin"), ts)
         else l2,
         Ok(0))
    else
      (l.WithBal(u, Futures, b.(available := b.available - p)).AddSys(Funding, p)
        .Post(pool, mine, -p, FundingPayment, key, ts),
       Ok(0))
  }

  // Settle a signed amount against the funding pool; a debit is capped at what
  // the user has, and the signed amount actually moved is returned.
  function AfterCapped(l: Ledger, u: UserId, signed: int, key: Key, ts: Micros): LedgerResult {
    var b := l.Bal(u, Funding);
    var mine, pool := Slot(u, Funding, Available), Slot(SYSTEM, Funding, Available);
    if signed > 0 then
      (l.WithBal(u, Funding, b.(available := b.available + signed)).AddSys(Funding, -signed)
        .Post(pool, mine, signed, FundingPayment, key, ts),
       Ok(signed))
    else
      var cover := Min(-signed, b.available);
      var l1 := l.WithBal(u, Funding, b.(available := b.available - cover)).AddSys(Funding, cover);
      (if cover > 0 then l1.Post(mine, pool, cover, FundingPayment, key, ts) else l1, Ok(-cover))
  }
}
