// Totals over a ledger: what all users and pools hold, and what the journal
// says came in from outside.
module LedgerTotals {
  import opened Common
  import opened Sums
  import opened LedgerSpec

  ghost function WalletTotals(ws: Wallets): map<WalletType, int> {
    map w | w in ws :: ws[w].Total()
  }

  ghost function Holdings(ws: Wallets): int {
    SumMap(WalletTotals(ws))
  }

  ghost function UserTotals(accounts: map<UserId, Wallets>): map<UserId, int> {
    map u | u in accounts :: Holdings(accounts[u])
  }

  ghost function UserTotal(l: Ledger): int {
    SumMap(UserTotals(l.accounts))
  }

  ghost function SystemTotal(l: Ledger): int {
    SumMap(l.system)
  }

  // Deposits minus withdrawals, from the journal.
  function NetExternal(journal: seq<JournalEntry>): int {
    if journal == [] then 0
    else
      var e := journal[|journal| - 1];
      NetExternal(journal[..|journal| - 1])
      + (if e.kind.Deposit? then e.amount else if e.kind.Withdrawal? then -e.amount else 0)
  }

  // Profit minus loss settled against the escrow pool by closes, which journal
  // it there without moving the pool.
  function EscrowPnl(journal: seq<JournalEntry>): int {
    if journal == [] then 0
    else
      var e := journal[|journal| - 1];
      var escrow := Slot(SYSTEM, Escrow, Available);
      EscrowPnl(journal[..|journal| - 1])
      + (if !e.kind.PositionClose? then 0
         else (if e.debit == escrow then e.amount else 0) - (if e.credit == escrow then e.amount else 0))
  }

  ghost predicate Conserved(l: Ledger) {
    UserTotal(l) + SystemTotal(l) == NetExternal(l.journal) + EscrowPnl(l.journal)
  }

  // ── Totals under the primitive updates ────────────────────────────────

  lemma HoldingsSet(ws: Wallets, w: WalletType, b: Balance)
    ensures Holdings(ws[w := b]) == Holdings(ws) + b.Total() - WalletIn(ws, w).Total()
  {
    hide SumMap;
    assert WalletTotals(ws[w := b]) == WalletTotals(ws)[w := b.Total()];
    SumMapSet(WalletTotals(ws), w, b.Total());
  }

  lemma UserTotalsSet(accounts: map<UserId, Wallets>, u: UserId, ws: Wallets)
    ensures SumMap(UserTotals(accounts[u := ws]))
            == SumMap(UserTotals(accounts)) + Holdings(ws) - (if u in accounts then Holdings(accounts[u]) else 0)
  {
    hide SumMap, Holdings;
    assert UserTotals(accounts[u := ws]) == UserTotals(accounts)[u := Holdings(ws)];
    SumMapSet(UserTotals(accounts), u, Holdings(ws));
  }

  lemma UserTotalWithBal(l: Ledger, u: UserId, w: WalletType, b: Balance)
    ensures UserTotal(l.WithBal(u, w, b)) == UserTotal(l) + b.Total() - l.Bal(u, w).Total()
    ensures SystemTotal(l.WithBal(u, w, b)) == SystemTotal(l)
  {
    hide SumMap, UserTotals;
    var ws: Wallets := if u in l.accounts then l.accounts[u] else map[];
    HoldingsSet(ws, w, b);
    UserTotalsSet(l.accounts, u, ws[w := b]);
    NothingHeld();
  }

  lemma NothingHeld()
    ensures Holdings(map[]) == 0
  {
    assert WalletTotals(map[]) == map[];
  }

  lemma SystemTotalAdd(l: Ledger, w: WalletType, a: int)
    ensures SystemTotal(l.AddSys(w, a)) == SystemTotal(l) + a
    ensures UserTotal(l.AddSys(w, a)) == UserTotal(l)
  {
    SumMapSet(l.system, w, l.Sys(w) + a);
  }

  // What one posting adds to the journal's own account of the total.
  function Outside(d: Slot, c: Slot, a: int, kind: EntryType): int {
    var escrow := Slot(SYSTEM, Escrow, Available);
    match kind
    case Deposit => a
    case Withdrawal => -a
    case PositionClose => (if d == escrow then a else 0) - (if c == escrow then a else 0)
    case _ => 0
  }

  // How far a ledger is from conserved.
  ghost function Gap(l: Ledger): int {
    UserTotal(l) + SystemTotal(l) - NetExternal(l.journal) - EscrowPnl(l.journal)
  }

  lemma GapWithBal(l: Ledger, u: UserId, w: WalletType, b: Balance)
    ensures Gap(l.WithBal(u, w, b)) == Gap(l) + b.Total() - l.Bal(u, w).Total()
  {
    UserTotalWithBal(l, u, w, b);
  }

  lemma GapAddSys(l: Ledger, w: WalletType, a: int)
    ensures Gap(l.AddSys(w, a)) == Gap(l) + a
  {
    SystemTotalAdd(l, w, a);
  }

  lemma GapPost(l: Ledger, d: Slot, c: Slot, a: int, kind: EntryType, key: Key, ts: Micros)
    ensures Gap(l.Post(d, c, a, kind, key, ts)) == Gap(l) - Outside(d, c, a, kind)
  {
    var l' := l.Post(d, c, a, kind, key, ts);
    assert l'.journal[..|l'.journal| - 1] == l.journal;
  }

  lemma GapKeys(l: Ledger, key: Key, u: UserId, w: WalletType)
    ensures Gap(l.Keyed(key)) == Gap(l) && Gap(l.Unkeyed(key)) == Gap(l)
    ensures Gap(l.Touched(u, w)) == Gap(l)
  {
    GapWithBal(l, u, w, l.Bal(u, w));
  }

  lemma GapOpened(l: Ledger, u: UserId)
    ensures Gap(l.Opened(u)) == Gap(l)
  {
    if u !in l.accounts {
      UserTotalsSet(l.accounts, u, map[]);
      NothingHeld();
    }
  }
}
