// The ledger's own invariant check, and exactly when it passes.
module LedgerChecks {
  import opened Common
  import opened Sums
  import opened LedgerSpec
  import opened LedgerTotals
  import opened Conservation
  import opened Solvency
  import opened LedgerObject

  // What the check reports.
  datatype Violation =
    | NoSuchAccount(user: UserId)
    | NegativeBalance(user: UserId, wallet: WalletType)
    | NegativePool(pool: WalletType)
    | TotalsDiffer

  // What the check decides, as a property of the ledger.
  ghost predicate Verifies(l: Ledger) {
    Solvent(l) && UserTotal(l) + SystemTotal(l) == NetExternal(l.journal)
  }

  method SumUsers(book: LedgerBook) returns (total: int)
    ensures total == UserTotal(book.View())
  {
    total := 0;
    var left := book.accounts.Keys;
    ghost var rest := UserTotals(book.accounts);
    while left != {}
      invariant left <= book.accounts.Keys && rest.Keys == left
      invariant forall u :: u in left ==> rest[u] == Holdings(book.accounts[u])
      invariant total + SumMap(rest) == UserTotal(book.View())
      decreases |left|
    {
      ghost var some := Pick(left);
      var u :| u in left;
      var held := SumWallets(book.accounts[u]);
      total := total + held;
      SumMapRemove(rest, u);
      left, rest := left - {u}, rest - {u};
    }
  }

  method SumWallets(ws: Wallets) returns (total: int)
    ensures total == Holdings(ws)
  {
    total := 0;
    var left := ws.Keys;
    ghost var rest := WalletTotals(ws);
    while left != {}
      invariant left <= ws.Keys && rest.Keys == left
      invariant forall w :: w in left ==> rest[w] == ws[w].Total()
      invariant total + SumMap(rest) == Holdings(ws)
      decreases |left|
    {
      var w :| w in left;
      total := total + ws[w].Total();
      SumMapRemove(rest, w);
      left, rest := left - {w}, rest - {w};
    }
  }

  method SumPools(book: LedgerBook) returns (total: int)
    ensures total == SystemTotal(book.View())
  {
    total := 0;
    var left := book.systemAccounts.Keys;
    ghost var rest := book.systemAccounts;
    while left != {}
      invariant left <= book.systemAccounts.Keys && rest.Keys == left
      invariant forall w :: w in left ==> rest[w] == book.systemAccounts[w]
      invariant total + SumMap(rest) == SystemTotal(book.View())
      decreases |left|
    {
      var w :| w in left;
      total := total + book.systemAccounts[w];
      SumMapRemove(rest, w);
      left, rest := left - {w}, rest - {w};
    }
  }

  // What users and pools hold must be what the journal says came in.
  method VerifyGlobalInvariant(book: LedgerBook) returns (r: Option<Violation>)
    ensures r == if UserTotal(book.View()) + SystemTotal(book.View()) == NetExternal(book.journal) then None
                 else Some(TotalsDiffer)
  {
    var userTotal := SumUsers(book);
    var systemTotal := SumPools(book);
    var netExternal := 0;
    for i := 0 to |book.journal|
      invariant netExternal == NetExternal(book.journal[..i])
    {
      assert book.journal[..i + 1][..i] == book.journal[..i];
      var e := book.journal[i];
      if e.kind.Deposit? {
        netExternal := netExternal + e.amount;
      } else if e.kind.Withdrawal? {
        netExternal := netExternal - e.amount;
      }
    }
    assert book.journal[..|book.journal|] == book.journal;
    return if userTotal + systemTotal != netExternal then Some(TotalsDiffer) else None;
  }

  // No field of the account may be negative.
  method VerifyAccountInvariant(book: LedgerBook, u: UserId) returns (r: Option<Violation>)
    ensures u !in book.accounts ==> r == Some(NoSuchAccount(u))
    ensures u in book.accounts ==> (r.None? <==> forall w :: NonNegative(book.View().Bal(u, w)))
    ensures r.Some? && u in book.accounts ==>
              r.value.NegativeBalance? && r.value.user == u
              && !NonNegative(book.View().Bal(u, r.value.wallet))
  {
    if u !in book.accounts { return Some(NoSuchAccount(u)); }
    var left := book.accounts[u].Keys;
    while left != {}
      invariant left <= book.accounts[u].Keys
      invariant forall w :: w !in left ==> NonNegative(book.View().Bal(u, w))
      decreases |left|
    {
      var w :| w in left;
      var b := book.accounts[u][w];
      assert book.View().Bal(u, w) == b;
      if b.available < 0 { return Some(NegativeBalance(u, w)); }
      if b.frozen < 0 { return Some(NegativeBalance(u, w)); }
      if b.margin < 0 { return Some(NegativeBalance(u, w)); }
      left := left - {w};
    }
    return None;
  }

  // Every account, then the pools that may not be negative, then the total.
  method VerifyAllInvariants(book: LedgerBook) returns (r: Option<Violation>)
    ensures r.None? <==> Verifies(book.View())
    ensures r.Some? && r.value.NegativePool? ==> book.View().Sys(r.value.pool) < 0
    ensures r.Some? && r.value.NegativeBalance? ==> !NonNegative(book.View().Bal(r.value.user, r.value.wallet))
  {
    hide NonNegative, Ledger.Bal, UserTotal, SystemTotal, NetExternal;
    var left := book.accounts.Keys;
    while left != {}
      invariant left <= book.accounts.Keys
      invariant forall u, w :: u in book.accounts && u !in left ==> NonNegative(book.View().Bal(u, w))
      decreases |left|
    {
      ghost var some := Pick(left);
      var u :| u in left;
      var bad := VerifyAccountInvariant(book, u);
      if bad.Some? { return bad; }
      left := left - {u};
    }
    AbsentSolvent(book.View());
    var pools := [InsuranceFund, FeeCollection, Escrow];
    for i := 0 to 3
      invariant forall j :: 0 <= j < i ==> book.View().Sys(pools[j]) >= 0
    {
      if book.SystemBalance(pools[i]) < 0 { return Some(NegativePool(pools[i])); }
    }
    assert book.View().Sys(pools[0]) >= 0 && book.View().Sys(pools[1]) >= 0 && book.View().Sys(pools[2]) >= 0;
    r := VerifyGlobalInvariant(book);
  }

  lemma AbsentSolvent(l: Ledger)
    ensures forall u, w :: u !in l.accounts ==> NonNegative(l.Bal(u, w))
  {
  }

  // After any run, the check passes exactly when no one is overdrawn and the
  // profit and loss settled against the escrow pool cancel out. The check knows
  // nothing of that pool's unposted side, so any other run with such closes
  // fails it although no money is missing.
  lemma CheckPassesIff(calls: seq<LedgerCall>)
    ensures Verifies(LedgerAfter(calls))
            <==> Solvent(LedgerAfter(calls)) && EscrowPnl(LedgerAfter(calls).journal) == 0
  {
    RunConserves(calls);
  }
}
