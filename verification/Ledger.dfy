// The ledger: accounts, system pools, journal and idempotency keys, updated in
// place one field at a time.
module LedgerObject {
  import opened Common
  import opened LedgerSpec

  class LedgerBook {
    var accounts: map<UserId, Wallets>
    var systemAccounts: map<WalletType, int>
    var journal: seq<JournalEntry>
    var nextJournalId: nat
    var idempotencyKeys: set<Key>

    ghost function View(): Ledger
      reads this
    {
      Ledger(accounts, systemAccounts, journal, nextJournalId, idempotencyKeys)
    }

    constructor ()
      ensures View() == EMPTY_LEDGER
    {
      accounts, systemAccounts, journal, nextJournalId, idempotencyKeys := map[], map[], [], 1, {};
    }

    // ── Helpers ─────────────────────────────────────────────────────────

    method GetOrCreateAccount(u: UserId)
      modifies this`accounts
      ensures View() == old(View()).Opened(u) && u in accounts
      ensures forall w :: View().Bal(u, w) == old(View()).Bal(u, w)
    {
      if u !in accounts {
        accounts := accounts[u := map[]];
      }
    }

    // True if the key was already processed.
    method CheckIdempotency(key: Key) returns (seen: bool)
      modifies this`idempotencyKeys
      ensures seen <==> key in old(idempotencyKeys)
      ensures View() == old(View()).Keyed(key)
    {
      seen := key in idempotencyKeys;
      idempotencyKeys := idempotencyKeys + {key};
    }

    // Give a key back, so that the operation can be retried.
    method ReleaseKey(key: Key)
      modifies this`idempotencyKeys
      ensures View() == old(View()).Unkeyed(key)
    {
      idempotencyKeys := idempotencyKeys - {key};
    }

    // A wallet looked up for writing; created empty if absent.
    method WalletMut(u: UserId, w: WalletType) returns (b: Balance)
      requires u in accounts
      modifies this`accounts
      ensures View() == old(View()).Touched(u, w) && b == old(View()).Bal(u, w)
      ensures accounts.Keys == old(accounts.Keys)
    {
      b := WalletIn(accounts[u], w);
      accounts := accounts[u := accounts[u][w := b]];
    }

    // Write a wallet that was just looked up; the lookup leaves no trace.
    method SetBalance(u: UserId, w: WalletType, b: Balance, ghost before: Ledger)
      requires u in accounts
      requires View() == before.Touched(u, w) || View() == before.Opened(u).Touched(u, w)
      modifies this`accounts
      ensures View() == before.WithBal(u, w, b) && accounts.Keys == old(accounts.Keys)
    {
      SetAfterTouch(before, u, w, b);
      accounts := accounts[u := accounts[u][w := b]];
    }

    method CreditAvailable(u: UserId, w: WalletType, amount: int)
      requires u in accounts
      modifies this`accounts
      ensures var b := old(View()).Bal(u, w);
        View() == old(View()).WithBal(u, w, b.(available := b.available + amount))
      ensures accounts.Keys == old(accounts.Keys)
    {
      hide Ledger.Bal, Ledger.Touched, Ledger.WithBal;
      ghost var before := View();
      var b := WalletMut(u, w);
      SetBalance(u, w, b.(available := b.available + amount), before);
    }

    method AppendJournal(debit: Slot, credit: Slot, amount: int, kind: EntryType, key: Key, ts: Micros)
      modifies this`journal, this`nextJournalId
      ensures View() == old(View()).Post(debit, credit, amount, kind, key, ts)
    {
      var id := nextJournalId;
      nextJournalId := nextJournalId + 1;
      journal := journal + [JournalEntry(id, debit, credit, amount, kind, key, ts)];
    }

    function SystemBalance(w: WalletType): (r: int)
      reads this
      ensures r == View().Sys(w)
    {
      if w in systemAccounts then systemAccounts[w] else 0
    }

    function GetBalance(u: UserId, w: WalletType): (r: Option<Balance>)
      reads this
      ensures View().Bal(u, w) == if r.Some? then r.value else ZERO_BALANCE
    {
      if u in accounts && w in accounts[u] then Some(accounts[u][w]) else None
    }

    function PeekBalance(u: UserId, w: WalletType): (b: Balance)
      reads this
      ensures b == View().Bal(u, w)
    {
      if u in accounts then WalletIn(accounts[u], w) else ZERO_BALANCE
    }

    method AddSystemBalance(w: WalletType, amount: int)
      modifies this`systemAccounts
      ensures View() == old(View()).AddSys(w, amount)
    {
      systemAccounts := systemAccounts[w := SystemBalance(w) + amount];
    }

    // Subtract from a system pool; fails if it holds less.
    method SubSystemBalance(w: WalletType, amount: int) returns (ok: bool)
      modifies this`systemAccounts
      ensures ok <==> old(View()).Sys(w) >= amount
      ensures View() == if ok then old(View()).AddSys(w, -amount) else old(View())
    {
      ok := SystemBalance(w) >= amount;
      if ok {
        systemAccounts := systemAccounts[w := SystemBalance(w) - amount];
      }
    }

    // The checks every operation begins with: arguments, key, account. Returns
    // the answer if they settle it, and otherwise has taken the key.
    method Admit(op: LedgerOp, key: Key) returns (done: Option<Result<int, LedgerError>>)
      modifies this`idempotencyKeys
      ensures done == if BadArguments(op) then Some(Err(InvalidQuantity))
                      else if NothingToDo(op) || key in old(idempotencyKeys) then Some(Ok(0))
                      else if !op.OpDeposit? && op.user !in accounts then Some(Err(AccountNotFound(op.user)))
                      else None
      ensures View() == if BadArguments(op) || NothingToDo(op) || key in old(idempotencyKeys) then old(View())
                        else old(View()).Keyed(key)
    {
      if BadArguments(op) { return Some(Err(InvalidQuantity)); }
      if NothingToDo(op) { return Some(Ok(0)); }
      var seen := CheckIdempotency(key);
      if seen {
        SameKeys(old(View()), key);
        return Some(Ok(0));
      }
      if !op.OpDeposit? && op.user !in accounts { return Some(Err(AccountNotFound(op.user))); }
      return None;
    }

    // ── Operations ──────────────────────────────────────────────────────

    method Deposit(u: UserId, amount: int, key: Key, ts: Micros) returns (r: Result<int, LedgerError>)
      modifies this
      ensures (View(), r) == Checked(old(View()), OpDeposit(u, amount), key,
                                     (AfterDeposit(old(View()).Keyed(key), u, amount, key, ts), Ok(0)))
    {
      hide Ledger.Bal, Ledger.Sys, Ledger.Keyed, Ledger.Unkeyed, Ledger.Opened, Ledger.Touched,
           Ledger.WithBal, Ledger.AddSys, Ledger.Post, Released, PostFee, PostPnl, PostRelease;
      var done := Admit(OpDeposit(u, amount), key);
      if done.Some? { return done.value; }
      ghost var k := View();
      GetOrCreateAccount(u);
      var b := WalletMut(u, Funding);
      SetBalance(u, Funding, b.(available := b.available + amount), k);
      AppendJournal(Slot(SYSTEM, Funding, Available), Slot(u, Funding, Available), amount,
                    EntryType.Deposit, key, ts);
      return Ok(0);
    }

    method Withdraw(u: UserId, amount: int, key: Key, ts: Micros) returns (r: Result<int, LedgerError>)
      modifies this
      ensures (View(), r) == Checked(old(View()), OpWithdraw(u, amount), key,
                                     AfterWithdraw(old(View()).Keyed(key), u, amount, key, ts))
    {
      hide Ledger.Bal, Ledger.Sys, Ledger.Keyed, Ledger.Unkeyed, Ledger.Opened, Ledger.Touched,
           Ledger.WithBal, Ledger.AddSys, Ledger.Post, Released, PostFee, PostPnl, PostRelease;
      var done := Admit(OpWithdraw(u, amount), key);
      if done.Some? { return done.value; }
      ghost var k := View();
      var b := WalletMut(u, Funding);
      if b.available < amount {
        ReleaseKey(key);
        return Err(InsufficientBalance);
      }
      SetBalance(u, Funding, b.(available := b.available - amount), k);
      AppendJournal(Slot(u, Funding, Available), Slot(SYSTEM, Funding, Available), amount, Withdrawal,
                    key, ts);
      return Ok(0);
    }

    // Debit available, if it holds enough.
    method TakeAvailable(u: UserId, w: WalletType, amount: int) returns (ok: bool)
      requires u in accounts
      modifies this`accounts
      ensures var b := old(View()).Bal(u, w);
        && ok == (b.available >= amount)
        && View() == if ok then old(View()).WithBal(u, w, b.(available := b.available - amount))
                     else old(View()).Touched(u, w)
      ensures accounts.Keys == old(accounts.Keys)
    {
      hide Ledger.Bal, Ledger.Touched, Ledger.WithBal;
      ghost var before := View();
      var b := WalletMut(u, w);
      ok := b.available >= amount;
      if ok {
        SetBalance(u, w, b.(available := b.available - amount), before);
      }
    }

    method MoveAvailable(u: UserId, from: WalletType, to: WalletType, amount: int, key: Key, ts: Micros)
      returns (r: Result<int, LedgerError>)
      requires u in accounts
      modifies this
      ensures (View(), r) == AfterTransfer(old(View()), u, from, to, amount, key, ts)
    {
      hide LedgerBook.View, Ledger.Bal, Ledger.Sys, Ledger.Keyed, Ledger.Unkeyed, Ledger.Opened, Ledger.Touched,
           Ledger.WithBal, Ledger.AddSys, Ledger.Post, AfterTransfer;
      TransferDefined(View(), u, from, to, amount, key, ts);
      var ok := TakeAvailable(u, from, amount);
      if !ok {
        ReleaseKey(key);
        return Err(InsufficientBalance);
      }
      ghost var taken := View();
      CreditAvailable(u, to, amount);
      AppendJournal(Slot(u, from, Available), Slot(u, to, Available), amount, EntryType.Transfer, key, ts);
      assert View() == Moved(taken, u, from, to, amount, key, ts);
      return Ok(0);
    }

    method Transfer(u: UserId, from: WalletType, to: WalletType, amount: int, key: Key, ts: Micros)
      returns (r: Result<int, LedgerError>)
      modifies this
      ensures (View(), r) == Checked(old(View()), OpTransfer(u, from, to, amount), key,
                                     AfterTransfer(old(View()).Keyed(key), u, from, to, amount, key, ts))
    {
      hide Ledger.Bal, Ledger.Sys, Ledger.Keyed, Ledger.Unkeyed, Ledger.Opened, Ledger.Touched,
           Ledger.WithBal, Ledger.AddSys, Ledger.Post, Released, PostFee, PostPnl, PostRelease;
      var done := Admit(OpTransfer(u, from, to, amount), key);
      if done.Some? { return done.value; }
      r := MoveAvailable(u, from, to, amount, key, ts);
    }

    method FreezeForOrder(u: UserId, w: WalletType, amount: int, key: Key, ts: Micros)
      returns (r: Result<int, LedgerError>)
      modifies this
      ensures (View(), r) == Checked(old(View()), OpFreeze(u, w, amount), key,
                                     AfterFreeze(old(View()).Keyed(key), u, w, amount, key, ts))
    {
      hide Ledger.Bal, Ledger.Sys, Ledger.Keyed, Ledger.Unkeyed, Ledger.Opened, Ledger.Touched,
           Ledger.WithBal, Ledger.AddSys, Ledger.Post, Released, PostFee, PostPnl, PostRelease;
      var done := Admit(OpFreeze(u, w, amount), key);
      if done.Some? { return done.value; }
      r := FreezeAvailable(u, w, amount, key, ts);
    }

    method FreezeAvailable(u: UserId, w: WalletType, amount: int, key: Key, ts: Micros)
      returns (r: Result<int, LedgerError>)
      requires u in accounts
      modifies this
      ensures (View(), r) == AfterFreeze(old(View()), u, w, amount, key, ts)
    {
      hide Ledger.Bal, Ledger.Sys, Ledger.Keyed, Ledger.Unkeyed, Ledger.Opened, Ledger.Touched,
           Ledger.WithBal, Ledger.AddSys, Ledger.Post, Released, PostFee, PostPnl, PostRelease;
      ghost var k := View();
      var b := WalletMut(u, w);
      if b.available < amount {
        ReleaseKey(key);
        return Err(InsufficientBalance);
      }
      var b' := b.(available := b.available - amount, frozen := b.frozen + amount);
      SetBalance(u, w, b', k);
      AppendJournal(Slot(u, w, Available), Slot(u, w, Frozen), amount, OrderFreeze, key, ts);
      return Ok(0);
    }

    method UnfreezeOrder(u: UserId, w: WalletType, amount: int, key: Key, ts: Micros)
      returns (r: Result<int, LedgerError>)
      modifies this
      ensures (View(), r) == Checked(old(View()), OpUnfreeze(u, w, amount), key,
                                     AfterUnfreeze(old(View()).Keyed(key), u, w, amount, key, ts))
    {
      hide Ledger.Bal, Ledger.Sys, Ledger.Keyed, Ledger.Unkeyed, Ledger.Opened, Ledger.Touched,
           Ledger.WithBal, Ledger.AddSys, Ledger.Post, Released, PostFee, PostPnl, PostRelease;
      var done := Admit(OpUnfreeze(u, w, amount), key);
      if done.Some? { return done.value; }
      r := ReleaseFrozen(u, w, amount, key, ts);
    }

    method ReleaseFrozen(u: UserId, w: WalletType, amount: int, key: Key, ts: Micros)
      returns (r: Result<int, LedgerError>)
      requires u in accounts
      modifies this
      ensures (View(), r) == AfterUnfreeze(old(View()), u, w, amount, key, ts)
    {
      hide Ledger.Bal, Ledger.Sys, Ledger.Keyed, Ledger.Unkeyed, Ledger.Opened, Ledger.Touched,
           Ledger.WithBal, Ledger.AddSys, Ledger.Post, Released, PostFee, PostPnl, PostRelease;
      ghost var k := View();
      var b := WalletMut(u, w);
      if b.frozen < amount {
        ReleaseKey(key);
        return Err(InsufficientBalance);
      }
      var b' := b.(frozen := b.frozen - amount, available := b.available + amount);
      SetBalance(u, w, b', k);
      AppendJournal(Slot(u, w, Frozen), Slot(u, w, Available), amount, OrderUnfreeze, key, ts);
      return Ok(0);
    }

    // Open or increase a position: frozen to margin, the fee out of frozen.
    method OpenPosition(u: UserId, margin: int, fee: int, key: Key, ts: Micros)
      returns (r: Result<int, LedgerError>)
      modifies this
      ensures (View(), r) == Checked(old(View()), OpOpenPosition(u, margin, fee), key,
                                     AfterOpen(old(View()).Keyed(key), u, margin, fee, key, ts))
    {
      hide Ledger.Bal, Ledger.Sys, Ledger.Keyed, Ledger.Unkeyed, Ledger.Opened, Ledger.Touched,
           Ledger.WithBal, Ledger.AddSys, Ledger.Post;
      var done := Admit(OpOpenPosition(u, margin, fee), key);
      if done.Some? { return done.value; }
      ghost var k := View();
      var totalDeduct := margin + fee;
      var b := WalletMut(u, Futures);
      if b.frozen < totalDeduct {
        ReleaseKey(key);
        return Err(InsufficientBalance);
      }
      var b' := b.(frozen := b.frozen - totalDeduct, margin := b.margin + margin);
      SetBalance(u, Futures, b', k);
      if fee > 0 { AddSystemBalance(FeeCollection, fee); }
      AppendJournal(Slot(u, Futures, Frozen), Slot(u, Futures, Margin), margin, PositionOpen, key, ts);
      if fee > 0 {
        AppendJournal(Slot(u, Futures, Frozen), Slot(SYSTEM, FeeCollection, Available), fee, TradeFee,
                      LegKey(key, "fee"), ts);
      }
      return Ok(0);
    }

    // Release margin into available, net of PnL and fee.
    method ReleaseMargin(u: UserId, released: int, pnl: int, fee: int)
      requires u in accounts
      modifies this`accounts
      ensures View() == Released(old(View()), u, released, pnl, fee)
    {
      hide Ledger.Bal, Ledger.Touched, Ledger.WithBal;
      ghost var before := View();
      var b := WalletMut(u, Futures);
      var netCredit := released + pnl - fee;
      SetBalance(u, Futures, b.(margin := b.margin - released, available := b.available + netCredit), before);
    }

    // The counterparty's margin pays a profit or takes a loss.
    method ChargeCounterparty(cp: UserId, pnl: int)
      modifies this`accounts
      ensures var c := old(View()).Bal(cp, Futures);
        View() == old(View()).WithBal(cp, Futures, c.(margin := c.margin - pnl))
    {
      hide Ledger.Bal, Ledger.Opened, Ledger.Touched, Ledger.WithBal;
      ghost var before := View();
      GetOrCreateAccount(cp);
      var c := WalletMut(cp, Futures);
      SetBalance(cp, Futures, c.(margin := c.margin - pnl), before);
    }

    // The journal lines of a close: release, PnL against `other`, fee.
    method JournalClose(u: UserId, released: int, pnl: int, fee: int, other: Slot, key: Key, ts: Micros)
      modifies this`journal, this`nextJournalId
      ensures View() == PostFee(PostPnl(PostRelease(old(View()), u, released, key, ts), u, pnl, other, key, ts),
                                u, Available, fee, key, ts)
    {
      var mine := Slot(u, Futures, Available);
      AppendJournal(Slot(u, Futures, Margin), mine, released, PositionClose, key, ts);
      if pnl > 0 {
        AppendJournal(other, mine, pnl, PositionClose, LegKey(key, "pnl"), ts);
      } else if pnl < 0 {
        AppendJournal(mine, other, -pnl, PositionClose, LegKey(key, "pnl"), ts);
      }
      if fee > 0 {
        AppendJournal(mine, Slot(SYSTEM, FeeCollection, Available), fee, TradeFee, LegKey(key, "fee"), ts);
      }
    }

    // Close a position against a counterparty.
    method ClosePosition(u: UserId, released: int, pnl: int, fee: int, counterparty: UserId, key: Key,
                         ts: Micros)
      returns (r: Result<int, LedgerError>)
      modifies this
      ensures (View(), r) == Checked(old(View()), OpClosePosition(u, released, pnl, fee, counterparty), key,
                                     AfterClose(old(View()).Keyed(key), u, released, pnl, fee, counterparty, key, ts))
    {
      hide Ledger.Bal, Ledger.Sys, Ledger.Keyed, Ledger.Unkeyed, Ledger.Opened, Ledger.Touched,
           Ledger.WithBal, Ledger.AddSys, Ledger.Post, Released, PostFee, PostPnl, PostRelease;
      var done := Admit(OpClosePosition(u, released, pnl, fee, counterparty), key);
      if done.Some? { return done.value; }
      r := CloseAgainst(u, released, pnl, fee, counterparty, key, ts);
    }

    method CloseAgainst(u: UserId, released: int, pnl: int, fee: int, counterparty: UserId, key: Key,
                        ts: Micros)
      returns (r: Result<int, LedgerError>)
      requires u in accounts
      modifies this
      ensures (View(), r) == AfterClose(old(View()), u, released, pnl, fee, counterparty, key, ts)
    {
      hide Ledger.Bal, Ledger.Sys, Ledger.Keyed, Ledger.Unkeyed, Ledger.Opened, Ledger.Touched,
           Ledger.WithBal, Ledger.AddSys, Ledger.Post, Released, PostFee, PostPnl, PostRelease;
      if PeekBalance(u, Futures).margin < released {
        ReleaseKey(key);
        return Err(InsufficientBalance);
      }
      if pnl > 0 {
        if counterparty !in accounts { return Err(AccountNotFound(counterparty)); }
        if PeekBalance(counterparty, Futures).margin < pnl {
          ReleaseKey(key);
          return Err(InsufficientBalance);
        }
      }
      ReleaseMargin(u, released, pnl, fee);
      if pnl != 0 { ChargeCounterparty(counterparty, pnl); }
      if fee > 0 { AddSystemBalance(FeeCollection, fee); }
      JournalClose(u, released, pnl, fee, Slot(counterparty, Futures, Margin), key, ts);
      return Ok(0);
    }

    // Close a position with the exchange as counterparty.
    method ClosePositionSettled(u: UserId, released: int, pnl: int, fee: int, key: Key, ts: Micros)
      returns (r: Result<int, LedgerError>)
      modifies this
      ensures (View(), r) == Checked(old(View()), OpCloseSettled(u, released, pnl, fee), key,
                                     AfterCloseSettled(old(View()).Keyed(key), u, released, pnl, fee, key, ts))
    {
      hide Ledger.Bal, Ledger.Sys, Ledger.Keyed, Ledger.Unkeyed, Ledger.Opened, Ledger.Touched,
           Ledger.WithBal, Ledger.AddSys, Ledger.Post, Released, PostFee, PostPnl, PostRelease;
      var done := Admit(OpCloseSettled(u, released, pnl, fee), key);
      if done.Some? { return done.value; }
      if PeekBalance(u, Futures).margin < released {
        ReleaseKey(key);
        return Err(InsufficientBalance);
      }
      ReleaseMargin(u, released, pnl, fee);
      if fee > 0 { AddSystemBalance(FeeCollection, fee); }
      JournalClose(u, released, pnl, fee, Slot(SYSTEM, Escrow, Available), key, ts);
      return Ok(0);
    }

    // Liquidation: seize margin, then move the surplus to the insurance fund or
    // the deficit out of it. A surplus the escrow cannot pay aborts the process;
    // the state at that point is of no further use and is left as it is.
    method Liquidate(u: UserId, seized: int, surplus: int, key: Key, ts: Micros)
      returns (r: Result<int, LedgerError>)
      modifies this
      ensures var end := Checked(old(View()), OpLiquidate(u, seized, surplus), key,
                                 AfterLiquidate(old(View()).Keyed(key), u, seized, surplus, key, ts));
        r == end.1 && (r != Err(Panicked) ==> View() == end.0)
    {
      hide Ledger.Bal, Ledger.Sys, Ledger.Keyed, Ledger.Unkeyed, Ledger.Opened, Ledger.Touched,
           Ledger.WithBal, Ledger.AddSys, Ledger.Post, Released, PostFee, PostPnl, PostRelease;
      var done := Admit(OpLiquidate(u, seized, surplus), key);
      if done.Some? { return done.value; }
      r := SeizeMargin(u, seized, surplus, key, ts);
    }

    method ShiftPools(surplus: int) returns (ok: bool)
      modifies this`systemAccounts
      ensures ok <==> (surplus > 0 ==> old(View()).Sys(Escrow) >= surplus)
                      && (surplus < 0 ==> old(View()).Sys(InsuranceFund) >= -surplus)
      ensures ok ==> View() == AdjustPools(old(View()), surplus)
    {
      hide Ledger.Sys, Ledger.AddSys;
      ok := true;
      if surplus > 0 {
        ok := SubSystemBalance(Escrow, surplus);
        if ok { AddSystemBalance(InsuranceFund, surplus); }
      } else if surplus < 0 {
        ok := SubSystemBalance(InsuranceFund, -surplus);
        if ok { AddSystemBalance(Escrow, -surplus); }
      }
    }

    method JournalSeizure(u: UserId, seized: int, surplus: int, key: Key, ts: Micros)
      modifies this`journal, this`nextJournalId
      ensures View() == PostSeizure(old(View()), u, seized, surplus, key, ts)
    {
      var escrow, fund := Slot(SYSTEM, Escrow, Available), Slot(SYSTEM, InsuranceFund, Available);
      AppendJournal(Slot(u, Futures, Margin), escrow, seized, Liquidation, key, ts);
      if surplus > 0 {
        AppendJournal(escrow, fund, surplus, InsuranceFundContribution, LegKey(key, "surplus"), ts);
      } else if surplus < 0 {
        AppendJournal(fund, escrow, -surplus, Liquidation, LegKey(key, "deficit"), ts);
      }
    }

    method SeizeMargin(u: UserId, seized: int, surplus: int, key: Key, ts: Micros)
      returns (r: Result<int, LedgerError>)
      requires u in accounts
      modifies this
      ensures var end := AfterLiquidate(old(View()), u, seized, surplus, key, ts);
        r == end.1 && (r != Err(Panicked) ==> View() == end.0)
    {
      hide Ledger.Bal, Ledger.Sys, Ledger.Keyed, Ledger.Unkeyed, Ledger.Opened, Ledger.Touched,
           Ledger.WithBal, Ledger.AddSys, Ledger.Post, PostSeizure, AdjustPools;
      ghost var k := View();
      if PeekBalance(u, Futures).margin < seized {
        ReleaseKey(key);
        return Err(InsufficientBalance);
      }
      if surplus < 0 && SystemBalance(InsuranceFund) < -surplus {
        ReleaseKey(key);
        return Err(InsuranceFundDepleted);
      }
      var b := WalletMut(u, Futures);
      SetBalance(u, Futures, b.(margin := b.margin - seized), k);
      PoolsAfterSeizure(k, u, b.(margin := b.margin - seized), seized);
      AddSystemBalance(Escrow, seized);
      var ok := ShiftPools(surplus);
      if !ok { return Err(Panicked); }
      JournalSeizure(u, seized, surplus, key, ts);
      return Ok(0);
    }

    // Settle a funding payment: out of available, then margin; a negative
    // payment is received.
    method SettleFunding(u: UserId, payment: int, key: Key, ts: Micros) returns (r: Result<int, LedgerError>)
      modifies this
      ensures (View(), r) == Checked(old(View()), OpSettleFunding(u, payment), key,
                                     AfterFunding(old(View()).Keyed(key), u, payment, key, ts))
    {
      hide Ledger.Bal, Ledger.Sys, Ledger.Keyed, Ledger.Unkeyed, Ledger.Opened, Ledger.Touched,
           Ledger.WithBal, Ledger.AddSys, Ledger.Post, Released, PostFee, PostPnl, PostRelease;
      var done := Admit(OpSettleFunding(u, payment), key);
      if done.Some? { return done.value; }
      r := PayFunding(u, payment, key, ts);
    }

    method PayFunding(u: UserId, payment: int, key: Key, ts: Micros)
      returns (r: Result<int, LedgerError>)
      requires u in accounts
      modifies this
      ensures (View(), r) == AfterFunding(old(View()), u, payment, key, ts)
    {
      hide Ledger.Bal, Ledger.Sys, Ledger.Keyed, Ledger.Unkeyed, Ledger.Opened, Ledger.Touched,
           Ledger.WithBal, Ledger.AddSys, Ledger.Post;
      if payment > 0 {
        r := ChargeFunding(u, payment, key, ts);
      } else {
        var mine, pool := Slot(u, Futures, Available), Slot(SYSTEM, Futures, Available);
        var receive := -payment;
        CreditAvailable(u, Futures, receive);
        AddSystemBalance(Funding, payment);
        AppendJournal(pool, mine, receive, FundingPayment, key, ts);
        return Ok(0);
      }
    }

    // A payment comes out of available first, then out of margin.
    method ChargeFunding(u: UserId, payment: int, key: Key, ts: Micros)
      returns (r: Result<int, LedgerError>)
      requires u in accounts && payment > 0
      modifies this
      ensures (View(), r) == AfterFunding(old(View()), u, payment, key, ts)
    {
      hide Ledger.Bal, Ledger.Sys, Ledger.Keyed, Ledger.Unkeyed, Ledger.Opened, Ledger.Touched,
           Ledger.WithBal, Ledger.AddSys, Ledger.Post;
      ghost var k := View();
      var b := WalletMut(u, Futures);
      var mine, pool := Slot(u, Futures, Available), Slot(SYSTEM, Futures, Available);
      var fromAvailable := Min(payment, b.available);
      var fromMargin := payment - fromAvailable;
      if fromMargin > 0 && b.margin < fromMargin {
        ReleaseKey(key);
        return Err(InsufficientBalance);
      }
      b := b.(available := b.available - fromAvailable);
      if fromMargin > 0 {
        b := b.(margin := b.margin - fromMargin);
      }
      SetBalance(u, Futures, b, k);
      AddSystemBalance(Funding, payment);
      if fromAvailable > 0 {
        AppendJournal(mine, pool, fromAvailable, FundingPayment, key, ts);
      }
      if fromMargin > 0 {
        AppendJournal(Slot(u, Futures, Margin), pool, fromMargin, FundingPayment, LegKey(key, "margin"), ts);
      }
      return Ok(0);
    }

    // Settle funding under its structured key; tells whether margin was tapped.
    method SettleFundingChecked(u: UserId, symbol: SymbolId, period: nat, payment: int, ts: Micros)
      returns (r: Result<bool, LedgerError>)
      modifies this
      ensures var (l, res) := Apply(old(View()), OpSettleFunding(u, payment), FundingKey(period, u, symbol), ts);
        && View() == l
        && r == (match res
                 case Err(e) => Err(e)
                 case Ok(_) => Ok(l.Bal(u, Futures).margin < old(View()).Bal(u, Futures).margin))
    {
      var before := GetBalance(u, Futures);
      var res := SettleFunding(u, payment, FundingKey(period, u, symbol), ts);
      if res.Err? { return Err(res.error); }
      var after := GetBalance(u, Futures);
      return Ok((if after.Some? then after.value.margin else 0)
                < (if before.Some? then before.value.margin else 0));
    }

    // Settle a signed amount against the funding pool, a debit capped at what
    // the user has. Returns the signed amount moved.
    method SettleRealizedPnlCapped(u: UserId, signed: int, key: Key, ts: Micros)
      returns (r: Result<int, LedgerError>)
      modifies this
      ensures (View(), r) == Checked(old(View()), OpSettleCapped(u, signed), key,
                                     AfterCapped(old(View()).Keyed(key), u, signed, key, ts))
    {
      hide Ledger.Bal, Ledger.Sys, Ledger.Keyed, Ledger.Unkeyed, Ledger.Opened, Ledger.Touched,
           Ledger.WithBal, Ledger.AddSys, Ledger.Post, Released, PostFee, PostPnl, PostRelease;
      var done := Admit(OpSettleCapped(u, signed), key);
      if done.Some? { return done.value; }
      r := MoveCapped(u, signed, key, ts);
    }

    method MoveCapped(u: UserId, signed: int, key: Key, ts: Micros)
      returns (r: Result<int, LedgerError>)
      requires u in accounts
      modifies this
      ensures (View(), r) == AfterCapped(old(View()), u, signed, key, ts)
    {
      hide Ledger.Bal, Ledger.Sys, Ledger.Keyed, Ledger.Unkeyed, Ledger.Opened, Ledger.Touched,
           Ledger.WithBal, Ledger.AddSys, Ledger.Post, Released, PostFee, PostPnl, PostRelease;
      ghost var k := View();
      var b := WalletMut(u, Funding);
      var mine, pool := Slot(u, Funding, Available), Slot(SYSTEM, Funding, Available);
      if signed > 0 {
        SetBalance(u, Funding, b.(available := b.available + signed), k);
        AddSystemBalance(Funding, -signed);
        AppendJournal(pool, mine, signed, FundingPayment, key, ts);
        return Ok(signed);
      }
      var cover := Min(-signed, b.available);
      SetBalance(u, Funding, b.(available := b.available - cover), k);
      AddSystemBalance(Funding, cover);
      if cover > 0 {
        AppendJournal(mine, pool, cover, FundingPayment, key, ts);
      }
      return Ok(-cover);
    }
  }

  // The second half of a transfer: credit the target and post.
  ghost function Moved(l: Ledger, u: UserId, from: WalletType, to: WalletType, a: int, key: Key, ts: Micros): Ledger {
    var c := l.Bal(u, to);
    l.WithBal(u, to, c.(available := c.available + a))
     .Post(Slot(u, from, Available), Slot(u, to, Available), a, Transfer, key, ts)
  }

  lemma TransferDefined(l: Ledger, u: UserId, from: WalletType, to: WalletType, a: int, key: Key, ts: Micros)
    ensures var b := l.Bal(u, from);
      AfterTransfer(l, u, from, to, a, key, ts)
      == if b.available < a then (l.Touched(u, from).Unkeyed(key), Err(InsufficientBalance))
         else (Moved(l.WithBal(u, from, b.(available := b.available - a)), u, from, to, a, key, ts), Ok(0))
  {
  }

  // Writing a wallet that was only looked up before leaves no trace of the lookup.
  lemma SetAfterTouch(l: Ledger, u: UserId, w: WalletType, b: Balance)
    ensures l.Touched(u, w).WithBal(u, w, b) == l.WithBal(u, w, b)
    ensures l.Opened(u).Touched(u, w).WithBal(u, w, b) == l.WithBal(u, w, b)
    ensures l.Opened(u).Bal(u, w) == l.Bal(u, w)
  {
    var ws: Wallets := if u in l.accounts then l.accounts[u] else map[];
    assert ws[w := l.Bal(u, w)][w := b] == ws[w := b];
  }

  lemma PoolsAfterSeizure(l: Ledger, u: UserId, b: Balance, m: int)
    ensures l.WithBal(u, Futures, b).AddSys(Escrow, m).Sys(Escrow) == l.Sys(Escrow) + m
    ensures l.WithBal(u, Futures, b).AddSys(Escrow, m).Sys(InsuranceFund) == l.Sys(InsuranceFund)
  {
  }

  lemma SameKeys(l: Ledger, key: Key)
    requires key in l.keys
    ensures l.Keyed(key) == l
  {
    assert l.keys + {key} == l.keys;
  }
}
