// Laws of the ledger's operations: each key works once, what each operation is
// worth to whom, and which operations undo each other.
module LedgerLaws {
  import opened Common
  import opened LedgerSpec
  import opened LedgerTotals
  import opened Conservation

  // ── Idempotency ───────────────────────────────────────────────────────

  // A call under a key already taken changes nothing and answers that nothing
  // moved, unless its arguments are refused before the key is looked at.
  lemma TakenKeyDoesNothing(l: Ledger, op: LedgerOp, key: Key, ts: Micros)
    requires key in l.keys
    ensures Apply(l, op, key, ts) == (l, if BadArguments(op) then Err(InvalidQuantity) else Ok(0))
  {
    hide Execute;
  }

  // No call frees a key that another call took.
  lemma KeysStay(l: Ledger, op: LedgerOp, key: Key, ts: Micros)
    ensures l.keys <= Apply(l, op, key, ts).0.keys <= l.keys + {key}
  {
    hide Ledger.Bal, Ledger.Sys;
  }

  predicate Succeeds(l: Ledger, c: LedgerCall) {
    Apply(l, c.op, c.key, c.ts).1.Ok? && !NothingToDo(c.op)
  }

  lemma SuccessTakesKey(l: Ledger, c: LedgerCall)
    requires Succeeds(l, c)
    ensures c.key in Apply(l, c.op, c.key, c.ts).0.keys
  {
    hide Ledger.Bal, Ledger.Sys;
  }

  lemma {:induction false} KeyKept(calls: seq<LedgerCall>, i: nat, j: nat, key: Key)
    requires i <= j <= |calls| && key in LedgerAfter(calls[..i]).keys
    ensures key in LedgerAfter(calls[..j]).keys
  {
    hide Apply;
    if i < j {
      KeyKept(calls, i, j - 1, key);
      assert calls[..j][..j - 1] == calls[..j - 1];
      KeysStay(LedgerAfter(calls[..j - 1]), calls[j - 1].op, calls[j - 1].key, calls[j - 1].ts);
    }
  }

  // Anywhere in a run: once a call has succeeded, no later call under its key
  // does anything.
  lemma OncePerKey(calls: seq<LedgerCall>, i: nat, j: nat)
    requires i < j < |calls| && calls[i].key == calls[j].key
    requires Succeeds(LedgerAfter(calls[..i]), calls[i])
    ensures LedgerAfter(calls[..j + 1]) == LedgerAfter(calls[..j])
  {
    hide Apply, Succeeds;
    assert calls[..i + 1][..i] == calls[..i] && calls[..j + 1][..j] == calls[..j];
    SuccessTakesKey(LedgerAfter(calls[..i]), calls[i]);
    KeyKept(calls, i + 1, j, calls[j].key);
    TakenKeyDoesNothing(LedgerAfter(calls[..j]), calls[j].op, calls[j].key, calls[j].ts);
  }

  // ── Who is refused, and what becomes of the key ───────────────────────

  // The arguments an operation takes: amounts and margins above zero, fees not
  // below. Settlements take any.
  predicate Sensible(op: LedgerOp) {
    match op
    case OpDeposit(_, a) => a > 0
    case OpWithdraw(_, a) => a > 0
    case OpTransfer(_, _, _, a) => a > 0
    case OpFreeze(_, _, a) => a > 0
    case OpUnfreeze(_, _, a) => a > 0
    case OpOpenPosition(_, m, fee) => m > 0 && fee >= 0
    case OpClosePosition(_, m, _, fee, _) => m > 0 && fee >= 0
    case OpCloseSettled(_, m, _, fee) => m > 0 && fee >= 0
    case OpLiquidate(_, m, _) => m > 0
    case OpSettleFunding(_, _) => true
    case OpSettleCapped(_, _) => true
  }

  // What an operation needs to find before it, in the field it takes from.
  predicate Covered(l: Ledger, op: LedgerOp) {
    var futures := l.Bal(op.user, Futures);
    match op
    case OpWithdraw(u, a) => a <= l.Bal(u, Funding).available
    case OpTransfer(u, from, _, a) => a <= l.Bal(u, from).available
    case OpFreeze(u, w, a) => a <= l.Bal(u, w).available
    case OpUnfreeze(u, w, a) => a <= l.Bal(u, w).frozen
    case OpOpenPosition(_, m, fee) => m + fee <= futures.frozen
    case OpClosePosition(_, m, _, _, _) => m <= futures.margin
    case OpCloseSettled(_, m, _, _) => m <= futures.margin
    case OpLiquidate(_, m, _) => m <= futures.margin
    case _ => true
  }

  // Arguments that make no sense change nothing. A user that is not there costs
  // the key. What is not covered is refused and the key can be used again.
  lemma RefusedCalls(l: Ledger, op: LedgerOp, key: Key, ts: Micros)
    requires key !in l.keys && !NothingToDo(op)
    ensures var (l', r) := Apply(l, op, key, ts);
      && (!Sensible(op) <==> r == Err(InvalidQuantity))
      && (!Sensible(op) ==> l' == l)
      && (Sensible(op) && !op.OpDeposit? && op.user !in l.accounts ==>
            r == Err(AccountNotFound(op.user)) && l' == l.(keys := l.keys + {key}))
      && (Sensible(op) && op.user in l.accounts && !Covered(l, op) ==>
            r == Err(InsufficientBalance) && l'.keys == l.keys && l'.journal == l.journal)
  {
    hide Ledger.Post, PostRelease, PostPnl, PostFee, PostSeizure, Released, AdjustPools, AddFee, Ledger.Sys;
    var k := l.Keyed(key);
    assert k.keys - {key} == l.keys;
    assert k.Bal(op.user, Futures) == l.Bal(op.user, Futures);
  }

  // What is covered goes through, for the operations that need nothing else.
  lemma CoveredCallsSucceed(l: Ledger, op: LedgerOp, key: Key, ts: Micros)
    requires key !in l.keys && Sensible(op) && (op.OpDeposit? || op.user in l.accounts) && Covered(l, op)
    requires op.OpDeposit? || op.OpWithdraw? || op.OpTransfer? || op.OpFreeze? || op.OpUnfreeze? || op.OpOpenPosition?
             || op.OpCloseSettled?
    ensures Apply(l, op, key, ts).1.Ok?
  {
    hide Ledger.Post, PostRelease, PostPnl, PostFee, Released, AddFee, Ledger.Sys, Ledger.WithBal;
    assert l.Keyed(key).Bal(op.user, Futures) == l.Bal(op.user, Futures);
  }

  // ── What an operation is worth ────────────────────────────────────────

  // Everything a user holds, in all wallets and fields.
  ghost function WorthIn(accounts: map<UserId, Wallets>, u: UserId): int {
    if u in accounts then Holdings(accounts[u]) else 0
  }

  ghost function Worth(l: Ledger, u: UserId): int {
    WorthIn(l.accounts, u)
  }

  // What a successful operation gives a user; `moved` is what it answers.
  function Gain(op: LedgerOp, moved: int, u: UserId): int {
    match op
    case OpDeposit(v, a) => if u == v then a else 0
    case OpWithdraw(v, a) => if u == v then -a else 0
    case OpTransfer(_, _, _, _) => 0
    case OpFreeze(_, _, _) => 0
    case OpUnfreeze(_, _, _) => 0
    case OpOpenPosition(v, _, fee) => if u == v then -fee else 0
    case OpClosePosition(v, _, pnl, fee, cp) => (if u == v then pnl - fee else 0) - (if u == cp then pnl else 0)
    case OpCloseSettled(v, _, pnl, fee) => if u == v then pnl - fee else 0
    case OpLiquidate(v, seized, _) => if u == v then -seized else 0
    case OpSettleFunding(v, payment) => if u == v then -payment else 0
    case OpSettleCapped(v, _) => if u == v then moved else 0
  }

  // And what it gives a pool. Deposits and withdrawals pass no pool, and the
  // profit of a close against the exchange comes out of none.
  function PoolGain(op: LedgerOp, moved: int, w: WalletType): int {
    match op
    case OpOpenPosition(_, _, fee) => if w.FeeCollection? then fee else 0
    case OpClosePosition(_, _, _, fee, _) => if w.FeeCollection? then fee else 0
    case OpCloseSettled(_, _, _, fee) => if w.FeeCollection? then fee else 0
    case OpLiquidate(_, seized, surplus) =>
      if w.Escrow? then seized - surplus else if w.InsuranceFund? then surplus else 0
    case OpSettleFunding(_, payment) => if w.Funding? then payment else 0
    case OpSettleCapped(_, _) => if w.Funding? then -moved else 0
    case _ => 0
  }

  lemma WorthWithBal(l: Ledger, u: UserId, w: WalletType, b: Balance, v: UserId)
    ensures Worth(l.WithBal(u, w, b), v) == Worth(l, v) + (if u == v then b.Total() - l.Bal(u, w).Total() else 0)
  {
    hide Holdings;
    var ws: Wallets := if u in l.accounts then l.accounts[u] else map[];
    HoldingsSet(ws, w, b);
    NoHoldings();
  }

  lemma NoHoldings()
    ensures Holdings(map[]) == 0
  {
    assert WalletTotals(map[]) == map[];
  }

  // Journal lines touch neither balances nor pools.
  ghost predicate SameMoneyAs(a: Ledger, b: Ledger) {
    a.accounts == b.accounts && a.system == b.system
  }

  lemma PostsKeep(l: Ledger, v: UserId, m: int, pnl: int, other: Slot, f: Field, fee: int, surplus: int, key: Key,
                  ts: Micros)
    ensures SameMoneyAs(PostRelease(l, v, m, key, ts), l) && SameMoneyAs(PostPnl(l, v, pnl, other, key, ts), l)
    ensures SameMoneyAs(PostFee(l, v, f, fee, key, ts), l)
    ensures SameMoneyAs(PostSeizure(l, v, m, surplus, key, ts), l)
  {
  }

  ghost predicate GainsAs(l: Ledger, r: LedgerResult, op: LedgerOp, u: UserId, w: WalletType) {
    r.1.Ok? ==>
      && Worth(r.0, u) == Worth(l, u) + Gain(op, r.1.value, u)
      && r.0.Sys(w) == l.Sys(w) + PoolGain(op, r.1.value, w)
  }

  lemma SimpleGains(l: Ledger, op: LedgerOp, key: Key, ts: Micros, u: UserId, w: WalletType)
    requires op.OpDeposit? || op.OpWithdraw? || op.OpFreeze? || op.OpUnfreeze?
    ensures GainsAs(l, Execute(l, op, key, ts), op, u, w)
  {
    hide WorthIn, Ledger.Bal;
    var x := if op.OpFreeze? || op.OpUnfreeze? then op.wallet else Funding;
    var b := l.Bal(op.user, x);
    match op
    case OpDeposit(v, a) => WorthWithBal(l, v, x, b.(available := b.available + a), u);
    case OpWithdraw(v, a) => WorthWithBal(l, v, x, b.(available := b.available - a), u);
    case OpFreeze(v, _, a) => WorthWithBal(l, v, x, b.(available := b.available - a, frozen := b.frozen + a), u);
    case OpUnfreeze(v, _, a) => WorthWithBal(l, v, x, b.(frozen := b.frozen - a, available := b.available + a), u);
  }

  // One wallet set and one pool added to.
  lemma WalletAndPool(l: Ledger, v: UserId, x: WalletType, b: Balance, pool: WalletType, a: int, u: UserId,
      w: WalletType)
    ensures var l1 := l.WithBal(v, x, b).AddSys(pool, a);
      && Worth(l1, u) == Worth(l, u) + (if u == v then b.Total() - l.Bal(v, x).Total() else 0)
      && l1.Sys(w) == l.Sys(w) + (if w == pool then a else 0)
  {
    WorthWithBal(l, v, x, b, u);
  }

  lemma Posted(l: Ledger, d: Slot, c: Slot, a: int, kind: EntryType, key: Key, ts: Micros)
    ensures SameMoneyAs(l.Post(d, c, a, kind, key, ts), l)
  {
  }

  lemma SameSys(a: Ledger, b: Ledger, w: WalletType)
    requires SameMoneyAs(a, b)
    ensures a.Sys(w) == b.Sys(w)
  {
  }

  lemma CappedGains(l: Ledger, op: LedgerOp, key: Key, ts: Micros, u: UserId, w: WalletType)
    requires op.OpSettleCapped?
    ensures GainsAs(l, Execute(l, op, key, ts), op, u, w)
  {
    hide WorthIn, Ledger.Bal, Ledger.Sys, Ledger.WithBal, Ledger.AddSys, Ledger.Post;
    var v, s := op.user, op.signed;
    var b := l.Bal(v, Funding);
    var cover := Min(-s, b.available);
    var mine, pool := Slot(v, Funding, Available), Slot(SYSTEM, Funding, Available);
    var up, down := b.(available := b.available + s), b.(available := b.available - cover);
    WalletAndPool(l, v, Funding, up, Funding, -s, u, w);
    WalletAndPool(l, v, Funding, down, Funding, cover, u, w);
    Posted(l.WithBal(v, Funding, up).AddSys(Funding, -s), pool, mine, s, FundingPayment, key, ts);
    Posted(l.WithBal(v, Funding, down).AddSys(Funding, cover), mine, pool, cover, FundingPayment, key, ts);
    var r := Execute(l, op, key, ts).0;
    SameSys(r, if s > 0 then l.WithBal(v, Funding, up).AddSys(Funding, -s)
               else l.WithBal(v, Funding, down).AddSys(Funding, cover), w);
  }

  lemma TransferGains(l: Ledger, op: LedgerOp, key: Key, ts: Micros, u: UserId, w: WalletType)
    requires op.OpTransfer?
    ensures GainsAs(l, Execute(l, op, key, ts), op, u, w)
  {
    hide WorthIn, Ledger.Bal;
    var v, a := op.user, op.amount;
    var b := l.Bal(v, op.from);
    var l1 := l.WithBal(v, op.from, b.(available := b.available - a));
    var c := l1.Bal(v, op.to);
    WorthWithBal(l, v, op.from, b.(available := b.available - a), u);
    WorthWithBal(l1, v, op.to, c.(available := c.available + a), u);
  }

  lemma ReleasedGains(l: Ledger, v: UserId, m: int, pnl: int, fee: int, u: UserId)
    ensures Worth(Released(l, v, m, pnl, fee), u) == Worth(l, u) + (if u == v then pnl - fee else 0)
    ensures Released(l, v, m, pnl, fee).system == l.system
  {
    hide WorthIn, Ledger.Bal;
    var b := l.Bal(v, Futures);
    WorthWithBal(l, v, Futures, b.(margin := b.margin - m, available := b.available + (m + pnl - fee)), u);
  }

  lemma AddFeeGains(l: Ledger, fee: int, w: WalletType)
    requires fee >= 0
    ensures AddFee(l, fee).accounts == l.accounts
    ensures AddFee(l, fee).Sys(w) == l.Sys(w) + (if w.FeeCollection? then fee else 0)
  {
  }

  lemma OpenGains(l: Ledger, op: LedgerOp, key: Key, ts: Micros, u: UserId, w: WalletType)
    requires op.OpOpenPosition? && !BadArguments(op)
    ensures GainsAs(l, Execute(l, op, key, ts), op, u, w)
  {
    hide WorthIn, AddFee, PostFee, Ledger.Bal;
    var v, m, fee := op.user, op.margin, op.fee;
    var b := l.Bal(v, Futures);
    var b' := b.(frozen := b.frozen - (m + fee), margin := b.margin + m);
    WorthWithBal(l, v, Futures, b', u);
    AddFeeGains(l.WithBal(v, Futures, b'), fee, w);
    var l1 := AddFee(l.WithBal(v, Futures, b'), fee);
    var d, c := Slot(v, Futures, Frozen), Slot(v, Futures, Margin);
    PostsKeep(l1.Post(d, c, m, PositionOpen, key, ts), v, m, 0, d, Frozen, fee, 0, key, ts);
  }

  lemma CloseGains(l: Ledger, op: LedgerOp, key: Key, ts: Micros, u: UserId, w: WalletType)
    requires op.OpClosePosition? && !BadArguments(op)
    ensures GainsAs(l, Execute(l, op, key, ts), op, u, w)
  {
    hide WorthIn, AddFee, PostFee, PostPnl, PostRelease, Released, Ledger.Bal;
    var v, m, pnl, fee, cp := op.user, op.released, op.pnl, op.fee, op.counterparty;
    ReleasedGains(l, v, m, pnl, fee, u);
    var l1 := Released(l, v, m, pnl, fee);
    var c := l1.Bal(cp, Futures);
    var c' := c.(margin := c.margin - pnl);
    WorthWithBal(l1, cp, Futures, c', u);
    var l2 := if pnl == 0 then l1 else l1.WithBal(cp, Futures, c');
    AddFeeGains(l2, fee, w);
    ClosePostsKeep(AddFee(l2, fee), v, m, pnl, Slot(cp, Futures, Margin), fee, key, ts);
  }

  lemma ClosePostsKeep(l: Ledger, v: UserId, m: int, pnl: int, other: Slot, fee: int, key: Key, ts: Micros)
    ensures SameMoneyAs(PostFee(PostPnl(PostRelease(l, v, m, key, ts), v, pnl, other, key, ts), v, Available, fee,
        key, ts),
                        l)
  {
    hide PostFee, PostPnl, PostRelease;
    var l1 := PostRelease(l, v, m, key, ts);
    PostsKeep(l, v, m, pnl, other, Available, fee, 0, key, ts);
    PostsKeep(l1, v, m, pnl, other, Available, fee, 0, key, ts);
    PostsKeep(PostPnl(l1, v, pnl, other, key, ts), v, m, pnl, other, Available, fee, 0, key, ts);
  }

  lemma CloseSettledGains(l: Ledger, op: LedgerOp, key: Key, ts: Micros, u: UserId, w: WalletType)
    requires op.OpCloseSettled? && !BadArguments(op)
    ensures GainsAs(l, Execute(l, op, key, ts), op, u, w)
  {
    hide WorthIn, AddFee, PostFee, PostPnl, PostRelease, Released, Ledger.Bal;
    var v, m, pnl, fee := op.user, op.released, op.pnl, op.fee;
    ReleasedGains(l, v, m, pnl, fee, u);
    AddFeeGains(Released(l, v, m, pnl, fee), fee, w);
    ClosePostsKeep(AddFee(Released(l, v, m, pnl, fee), fee), v, m, pnl, Slot(SYSTEM, Escrow, Available), fee, key, ts);
  }

  lemma LiquidateGains(l: Ledger, op: LedgerOp, key: Key, ts: Micros, u: UserId, w: WalletType)
    requires op.OpLiquidate?
    ensures GainsAs(l, Execute(l, op, key, ts), op, u, w)
  {
    hide WorthIn, PostSeizure, Ledger.Bal, AdjustPools;
    var v, m, surplus := op.user, op.seized, op.surplus;
    var b := l.Bal(v, Futures);
    var l0 := l.WithBal(v, Futures, b.(margin := b.margin - m));
    WorthWithBal(l, v, Futures, b.(margin := b.margin - m), u);
    AdjustGains(l0.AddSys(Escrow, m), surplus, w);
    PostsKeep(AdjustPools(l0.AddSys(Escrow, m), surplus), v, m, 0, Slot(v, Futures, Margin), Margin, 0, surplus, key,
        ts);
  }

  lemma AdjustGains(l: Ledger, surplus: int, w: WalletType)
    ensures AdjustPools(l, surplus).accounts == l.accounts
    ensures AdjustPools(l, surplus).Sys(w)
         == l.Sys(w) - (if w.Escrow? then surplus else 0) + (if w.InsuranceFund? then surplus else 0)
  {
  }

  lemma FundingGains(l: Ledger, op: LedgerOp, key: Key, ts: Micros, u: UserId, w: WalletType)
    requires op.OpSettleFunding?
    ensures GainsAs(l, Execute(l, op, key, ts), op, u, w)
  {
    hide WorthIn, Ledger.Bal, Ledger.Sys, Ledger.WithBal, Ledger.AddSys, Ledger.Post;
    var v, p := op.user, op.payment;
    var b := l.Bal(v, Futures);
    var fromAvailable := Min(p, b.available);
    var fromMargin := p - fromAvailable;
    var b' := if p > 0 then b.(available := b.available - fromAvailable,
                               margin := b.margin - (if fromMargin > 0 then fromMargin else 0))
              else b.(available := b.available - p);
    WalletAndPool(l, v, Futures, b', Funding, p, u, w);
    var mine, pool := Slot(v, Futures, Available), Slot(SYSTEM, Futures, Available);
    var l1 := l.WithBal(v, Futures, b').AddSys(Funding, p);
    Posted(l1, pool, mine, -p, FundingPayment, key, ts);
    Posted(l1, mine, pool, fromAvailable, FundingPayment, key, ts);
    var l2 := if fromAvailable > 0 then l1.Post(mine, pool, fromAvailable, FundingPayment, key, ts) else l1;
    Posted(l2, Slot(v, Futures, Margin), pool, fromMargin, FundingPayment, LegKey(key, "margin"), ts);
    if Execute(l, op, key, ts).1.Ok? { SameSys(Execute(l, op, key, ts).0, l1, w); }
  }

  ghost predicate WorthNothing(l: Ledger, r: LedgerResult, u: UserId, w: WalletType) {
    r.1.Err? ==> Worth(r.0, u) == Worth(l, u) && r.0.Sys(w) == l.Sys(w)
  }

  lemma MovesWorthNothing(l: Ledger, op: LedgerOp, key: Key, ts: Micros, u: UserId, w: WalletType)
    requires !op.OpClosePosition? && !op.OpCloseSettled? && !op.OpLiquidate?
    ensures WorthNothing(l, Execute(l, op, key, ts), u, w)
  {
    hide WorthIn, AddFee, PostFee, Ledger.Bal, Ledger.Post, Ledger.AddSys;
    var x := if op.OpFreeze? || op.OpUnfreeze? then op.wallet
             else if op.OpTransfer? then op.from
             else if op.OpWithdraw? then Funding else Futures;
    WorthWithBal(l, op.user, x, l.Bal(op.user, x), u);
  }

  lemma ClosesWorthNothing(l: Ledger, op: LedgerOp, key: Key, ts: Micros, u: UserId, w: WalletType)
    requires op.OpClosePosition? || op.OpCloseSettled? || op.OpLiquidate?
    ensures WorthNothing(l, Execute(l, op, key, ts), u, w)
  {
    hide WorthIn, AddFee, PostFee, PostPnl, PostRelease, Released, PostSeizure, AdjustPools, Ledger.Bal, Ledger.WithBal;
  }

  lemma ExecuteGains(l: Ledger, op: LedgerOp, key: Key, ts: Micros, u: UserId, w: WalletType)
    requires !BadArguments(op)
    ensures GainsAs(l, Execute(l, op, key, ts), op, u, w) && WorthNothing(l, Execute(l, op, key, ts), u, w)
  {
    hide Execute, GainsAs, WorthNothing;
    match op {
      case OpOpenPosition(_, _, _) => OpenGains(l, op, key, ts, u, w);
      case OpClosePosition(_, _, _, _, _) => CloseGains(l, op, key, ts, u, w);
      case OpCloseSettled(_, _, _, _) => CloseSettledGains(l, op, key, ts, u, w);
      case OpLiquidate(_, _, _) => LiquidateGains(l, op, key, ts, u, w);
      case OpSettleFunding(_, _) => FundingGains(l, op, key, ts, u, w);
      case OpSettleCapped(_, _) => CappedGains(l, op, key, ts, u, w);
      case OpTransfer(_, _, _, _) => TransferGains(l, op, key, ts, u, w);
      case _ => SimpleGains(l, op, key, ts, u, w);
    }
    if op.OpClosePosition? || op.OpCloseSettled? || op.OpLiquidate? {
      ClosesWorthNothing(l, op, key, ts, u, w);
    } else {
      MovesWorthNothing(l, op, key, ts, u, w);
    }
  }

  // A successful operation under a new key is worth to every user and to every
  // pool exactly this. One that fails is worth nothing to anyone.
  lemma OperationGains(l: Ledger, op: LedgerOp, key: Key, ts: Micros, u: UserId, w: WalletType)
    requires key !in l.keys && !NothingToDo(op)
    ensures GainsAs(l, Apply(l, op, key, ts), op, u, w) && WorthNothing(l, Apply(l, op, key, ts), u, w)
  {
    hide Execute, WorthIn, Gain, PoolGain;
    if !BadArguments(op) { ExecuteGains(l.Keyed(key), op, key, ts, u, w); }
  }

  // ── Operations that undo each other ───────────────────────────────────

  ghost predicate SameBalances(a: Ledger, b: Ledger) {
    forall u, w :: a.Bal(u, w) == b.Bal(u, w)
  }

  // Money deposited can be withdrawn, money frozen can be unfrozen, and money
  // transferred can be transferred back, each leaving every balance as it was.
  lemma DepositUndone(l: Ledger, u: UserId, a: int, k1: Key, k2: Key, ts: Micros)
    requires k1 !in l.keys && k2 !in l.keys && k1 != k2 && a > 0 && u in l.accounts && l.Bal(u, Funding).available >= 0
    ensures var l1 := Apply(l, OpDeposit(u, a), k1, ts).0;
      var (l2, r) := Apply(l1, OpWithdraw(u, a), k2, ts);
      r.Ok? && SameBalances(l2, l)
  {
  }

  lemma FreezeUndone(l: Ledger, u: UserId, w: WalletType, a: int, k1: Key, k2: Key, ts: Micros)
    requires k1 !in l.keys && k2 !in l.keys && k1 != k2 && u in l.accounts
    requires 0 < a <= l.Bal(u, w).available && l.Bal(u, w).frozen >= 0
    ensures var (l1, r1) := Apply(l, OpFreeze(u, w, a), k1, ts);
      var (l2, r2) := Apply(l1, OpUnfreeze(u, w, a), k2, ts);
      r1.Ok? && r2.Ok? && l1.Bal(u, w).available == l.Bal(u, w).available - a && SameBalances(l2, l)
  {
  }

  lemma TransferUndone(l: Ledger, u: UserId, from: WalletType, to: WalletType, a: int, k1: Key, k2: Key, ts: Micros)
    requires k1 !in l.keys && k2 !in l.keys && k1 != k2 && u in l.accounts && from != to
    requires 0 < a <= l.Bal(u, from).available && l.Bal(u, to).available >= 0
    ensures var (l1, r1) := Apply(l, OpTransfer(u, from, to, a), k1, ts);
      var (l2, r2) := Apply(l1, OpTransfer(u, to, from, a), k2, ts);
      && r1.Ok? && r2.Ok? && SameBalances(l2, l)
      && l1.Bal(u, from).available == l.Bal(u, from).available - a
      && l1.Bal(u, to).available == l.Bal(u, to).available + a
  {
    hide Apply, Ledger.Bal;
    Transferred(l, u, from, to, a, k1, ts);
    var l1 := Apply(l, OpTransfer(u, from, to, a), k1, ts).0;
    Transferred(l1, u, to, from, a, k2, ts);
  }

  lemma Transferred(l: Ledger, u: UserId, from: WalletType, to: WalletType, a: int, key: Key, ts: Micros)
    requires key !in l.keys && u in l.accounts && from != to && 0 < a <= l.Bal(u, from).available
    ensures var (l', r) := Apply(l, OpTransfer(u, from, to, a), key, ts);
      && r.Ok? && u in l'.accounts && l'.keys == l.keys + {key}
      && forall v, w :: l'.Bal(v, w) ==
           if v == u && w == from then l.Bal(v, w).(available := l.Bal(v, w).available - a)
           else if v == u && w == to then l.Bal(v, w).(available := l.Bal(v, w).available + a)
           else l.Bal(v, w)
  {
  }

  // Margin frozen, put into a position and released again: what is left of the
  // round is the profit less both fees, all of it available.
  lemma RoundOfTrading(l: Ledger, u: UserId, m: int, openFee: int, pnl: int, closeFee: int, k1: Key, k2: Key, k3: Key,
                       ts: Micros)
    requires k1 !in l.keys && k2 !in l.keys && k3 !in l.keys && k1 != k2 && k2 != k3 && k1 != k3 && u in l.accounts
    requires m > 0 && openFee >= 0 && closeFee >= 0 && m + openFee <= l.Bal(u, Futures).available
    requires l.Bal(u, Futures).frozen >= 0 && l.Bal(u, Futures).margin >= 0
    ensures var (l1, r1) := Apply(l, OpFreeze(u, Futures, m + openFee), k1, ts);
      var (l2, r2) := Apply(l1, OpOpenPosition(u, m, openFee), k2, ts);
      var (l3, r3) := Apply(l2, OpCloseSettled(u, m, pnl, closeFee), k3, ts);
      var b := l.Bal(u, Futures);
      && r1.Ok? && r2.Ok? && r3.Ok?
      && l2.Bal(u, Futures) == b.(available := b.available - m - openFee, margin := b.margin + m)
      && l3.Bal(u, Futures) == b.(available := b.available - openFee + pnl - closeFee)
  {
    FrozenFor(l, u, m + openFee, k1, ts);
    var l1 := Apply(l, OpFreeze(u, Futures, m + openFee), k1, ts).0;
    OpenedWith(l1, u, m, openFee, k2, ts);
    var l2 := Apply(l1, OpOpenPosition(u, m, openFee), k2, ts).0;
    ClosedWith(l2, u, m, pnl, closeFee, k3, ts);
    hide Apply, Ledger.Bal;
  }

  lemma FrozenFor(l: Ledger, u: UserId, a: int, key: Key, ts: Micros)
    requires key !in l.keys && u in l.accounts && 0 < a <= l.Bal(u, Futures).available
    ensures var (l', r) := Apply(l, OpFreeze(u, Futures, a), key, ts);
      var b := l.Bal(u, Futures);
      && r.Ok? && u in l'.accounts && l'.keys == l.keys + {key}
      && l'.Bal(u, Futures) == b.(available := b.available - a, frozen := b.frozen + a)
  {
  }

  lemma OpenedWith(l: Ledger, u: UserId, m: int, fee: int, key: Key, ts: Micros)
    requires key !in l.keys && u in l.accounts && m > 0 && fee >= 0 && l.Bal(u, Futures).frozen >= m + fee
    ensures var (l', r) := Apply(l, OpOpenPosition(u, m, fee), key, ts);
      var b := l.Bal(u, Futures);
      && r.Ok? && u in l'.accounts && l'.keys == l.keys + {key}
      && l'.Bal(u, Futures) == b.(frozen := b.frozen - m - fee, margin := b.margin + m)
  {
  }

  lemma ClosedWith(l: Ledger, u: UserId, m: int, pnl: int, fee: int, key: Key, ts: Micros)
    requires key !in l.keys && u in l.accounts && m > 0 && fee >= 0 && l.Bal(u, Futures).margin >= m
    ensures var (l', r) := Apply(l, OpCloseSettled(u, m, pnl, fee), key, ts);
      var b := l.Bal(u, Futures);
      r.Ok? && l'.Bal(u, Futures) == b.(margin := b.margin - m, available := b.available + m + pnl - fee)
  {
  }

  // ── Which field pays ──────────────────────────────────────────────────

  // A funding payment is taken from what is available first, then from margin,
  // and refused if both fall short; a negative one is received as available.
  lemma FundingPaidFrom(l: Ledger, u: UserId, payment: int, key: Key, ts: Micros)
    requires key !in l.keys && u in l.accounts && payment != 0
    requires l.Bal(u, Futures).available >= 0 && l.Bal(u, Futures).margin >= 0
    ensures var (l', r) := Apply(l, OpSettleFunding(u, payment), key, ts);
      var b, b' := l.Bal(u, Futures), l'.Bal(u, Futures);
      && (r.Ok? <==> payment <= b.available + b.margin)
      && (payment <= b.available ==> b' == b.(available := b.available - payment))
      && (b.available < payment <= b.available + b.margin ==>
            b' == b.(available := 0, margin := b.margin - (payment - b.available)))
      && (r.Err? ==> r.error == InsufficientBalance && b' == b)
  {
  }

  // A close between two users: the closer's margin is released and the profit
  // joins it; the other's margin pays it, or takes the loss.
  lemma CloseBetween(l: Ledger, u: UserId, m: int, pnl: int, fee: int, other: UserId, key: Key, ts: Micros)
    requires key !in l.keys && u in l.accounts && other in l.accounts && u != other && m > 0 && fee >= 0
    ensures var (l', r) := Apply(l, OpClosePosition(u, m, pnl, fee, other), key, ts);
      var b, c := l.Bal(u, Futures), l.Bal(other, Futures);
      && (r.Ok? <==> b.margin >= m && (pnl > 0 ==> c.margin >= pnl))
      && (r.Ok? ==>
            && l'.Bal(u, Futures) == b.(margin := b.margin - m, available := b.available + m + pnl - fee)
            && l'.Bal(other, Futures) == c.(margin := c.margin - pnl))
      && (r.Err? ==> r.error == InsufficientBalance && l'.Bal(u, Futures) == b && l'.Bal(other, Futures) == c)
  {
    hide PostFee, PostPnl, PostRelease, AddFee, Ledger.Post;
    var l1 := Released(l.Keyed(key), u, m, pnl, fee);
    var c := l1.Bal(other, Futures);
    var l2 := if pnl == 0 then l1 else l1.WithBal(other, Futures, c.(margin := c.margin - pnl));
    AddFeeGains(l2, fee, Futures);
    ClosePostsKeep(AddFee(l2, fee), u, m, pnl, Slot(other, Futures, Margin), fee, key, ts);
  }

  // A liquidation seizes margin. It fails if that is short, or if the insurance
  // fund cannot make up a deficit; a surplus must come out of the escrow pool.
  lemma LiquidationSeizes(l: Ledger, u: UserId, m: int, surplus: int, key: Key, ts: Micros)
    requires key !in l.keys && u in l.accounts && m > 0
    ensures var (l', r) := Apply(l, OpLiquidate(u, m, surplus), key, ts);
      var b := l.Bal(u, Futures);
      && (r.Ok? <==> b.margin >= m && -surplus <= Max(l.Sys(InsuranceFund), 0) && surplus <= Max(l.Sys(Escrow) + m, 0))
      && (r.Ok? ==> l'.Bal(u, Futures) == b.(margin := b.margin - m))
  {
    hide PostSeizure, AdjustPools;
    var l0 := l.Keyed(key).WithBal(u, Futures, l.Bal(u, Futures).(margin := l.Bal(u, Futures).margin - m));
    AdjustGains(l0.AddSys(Escrow, m), surplus, Futures);
    PostsKeep(AdjustPools(l0.AddSys(Escrow, m), surplus), u, m, 0, Slot(u, Futures, Margin), Margin, 0, surplus, key,
        ts);
  }

  // ── The journal's own order ───────────────────────────────────────────

  function BaseOf(key: Key): Key {
    if key.LegKey? then key.base else key
  }

  // What a call adds to the journal: at the end, numbered on, under its own key
  // and time, and positive unless it is a payment that was received.
  ghost predicate Extends(l: Ledger, l': Ledger, key: Key, ts: Micros) {
    && l.journal <= l'.journal && l'.nextId == l.nextId + |l'.journal| - |l.journal|
    && forall i :: |l.journal| <= i < |l'.journal| ==>
         && l'.journal[i].id == l.nextId + i - |l.journal| && l'.journal[i].timestamp == ts
         && (l'.journal[i].key == key || BaseOf(l'.journal[i].key) == key)
  }

  lemma ExtendsPost(l: Ledger, a: Ledger, d: Slot, c: Slot, amount: int, kind: EntryType, legKey: Key, key: Key,
      ts: Micros)
    requires Extends(l, a, key, ts) && (legKey == key || BaseOf(legKey) == key)
    ensures Extends(l, a.Post(d, c, amount, kind, legKey, ts), key, ts)
  {
  }

  ghost predicate SameJournal(a: Ledger, b: Ledger) {
    a.journal == b.journal && a.nextId == b.nextId
  }

  lemma NothingAdded(l: Ledger, a: Ledger, key: Key, ts: Micros)
    requires SameJournal(a, l)
    ensures Extends(l, a, key, ts)
  {
  }

  lemma CloseExtends(l: Ledger, a: Ledger, v: UserId, m: int, pnl: int, other: Slot, f: Field, fee: int, key: Key,
                     ts: Micros)
    requires Extends(l, a, key, ts)
    ensures Extends(l, PostRelease(a, v, m, key, ts), key, ts)
    ensures Extends(l, PostPnl(a, v, pnl, other, key, ts), key, ts)
    ensures Extends(l, PostFee(a, v, f, fee, key, ts), key, ts)
  {
    hide Extends, Ledger.Post;
    ExtendsPost(l, a, Slot(v, Futures, Margin), Slot(v, Futures, Available), m, PositionClose, key, key, ts);
    ExtendsPost(l, a, other, Slot(v, Futures, Available), pnl, PositionClose, LegKey(key, "pnl"), key, ts);
    ExtendsPost(l, a, Slot(v, Futures, Available), other, -pnl, PositionClose, LegKey(key, "pnl"), key, ts);
    ExtendsPost(l, a, Slot(v, Futures, f), Slot(SYSTEM, FeeCollection, Available), fee, TradeFee, LegKey(key, "fee"),
                key, ts);
  }

  lemma SeizureExtends(l: Ledger, a: Ledger, u: UserId, m: int, surplus: int, key: Key, ts: Micros)
    requires Extends(l, a, key, ts)
    ensures Extends(l, PostSeizure(a, u, m, surplus, key, ts), key, ts)
  {
    hide Extends, Ledger.Post;
    var escrow, fund := Slot(SYSTEM, Escrow, Available), Slot(SYSTEM, InsuranceFund, Available);
    ExtendsPost(l, a, Slot(u, Futures, Margin), escrow, m, Liquidation, key, key, ts);
    var a1 := a.Post(Slot(u, Futures, Margin), escrow, m, Liquidation, key, ts);
    ExtendsPost(l, a1, escrow, fund, surplus, InsuranceFundContribution, LegKey(key, "surplus"), key, ts);
    ExtendsPost(l, a1, fund, escrow, -surplus, Liquidation, LegKey(key, "deficit"), key, ts);
  }

  lemma ExecuteExtends(l: Ledger, op: LedgerOp, key: Key, ts: Micros)
    requires op.OpOpenPosition? || op.OpClosePosition? || op.OpCloseSettled? || op.OpLiquidate?
    ensures Extends(l, Execute(l, op, key, ts).0, key, ts)
  {
    hide Extends, PostRelease, PostPnl, PostFee, PostSeizure, Ledger.Bal, Ledger.Post;
    var r := Execute(l, op, key, ts);
    if r.1.Err? {
      NothingAdded(l, r.0, key, ts);
    } else {
      match op
      case OpOpenPosition(u, m, fee) =>
        var b := l.Bal(u, Futures);
        var a := AddFee(l.WithBal(u, Futures, b.(frozen := b.frozen - (m + fee), margin := b.margin + m)), fee);
        var d, c := Slot(u, Futures, Frozen), Slot(u, Futures, Margin);
        NothingAdded(l, a, key, ts);
        ExtendsPost(l, a, d, c, m, PositionOpen, key, key, ts);
        CloseExtends(l, a.Post(d, c, m, PositionOpen, key, ts), u, m, 0, d, Frozen, fee, key, ts);
      case OpClosePosition(u, m, pnl, fee, cp) =>
        var l1 := Released(l, u, m, pnl, fee);
        var c := l1.Bal(cp, Futures);
        var a := AddFee(if pnl == 0 then l1 else l1.WithBal(cp, Futures, c.(margin := c.margin - pnl)), fee);
        NothingAdded(l, a, key, ts);
        ThreePosts(l, a, u, m, pnl, Slot(cp, Futures, Margin), fee, key, ts);
      case OpCloseSettled(u, m, pnl, fee) =>
        var a := AddFee(Released(l, u, m, pnl, fee), fee);
        NothingAdded(l, a, key, ts);
        ThreePosts(l, a, u, m, pnl, Slot(SYSTEM, Escrow, Available), fee, key, ts);
      case OpLiquidate(u, m, surplus) =>
        var b := l.Bal(u, Futures);
        var a := AdjustPools(l.WithBal(u, Futures, b.(margin := b.margin - m)).AddSys(Escrow, m), surplus);
        NothingAdded(l, a, key, ts);
        SeizureExtends(l, a, u, m, surplus, key, ts);
    }
  }

  lemma ThreePosts(l: Ledger, a: Ledger, u: UserId, m: int, pnl: int, other: Slot, fee: int, key: Key, ts: Micros)
    requires Extends(l, a, key, ts)
    ensures Extends(l, PostFee(PostPnl(PostRelease(a, u, m, key, ts), u, pnl, other, key, ts), u, Available, fee, key,
        ts),
                    key, ts)
  {
    hide Extends, PostRelease, PostPnl, PostFee;
    var a1 := PostRelease(a, u, m, key, ts);
    CloseExtends(l, a, u, m, pnl, other, Available, fee, key, ts);
    CloseExtends(l, a1, u, m, pnl, other, Available, fee, key, ts);
    CloseExtends(l, PostPnl(a1, u, pnl, other, key, ts), u, m, pnl, other, Available, fee, key, ts);
  }

  lemma FundingExtends(l: Ledger, op: LedgerOp, key: Key, ts: Micros)
    requires op.OpSettleFunding?
    ensures Extends(l, Execute(l, op, key, ts).0, key, ts)
  {
    hide Extends, Ledger.Bal, Ledger.Post, Ledger.Sys;
    var r := Execute(l, op, key, ts);
    var u, p := op.user, op.payment;
    var b := l.Bal(u, Futures);
    var mine, pool := Slot(u, Futures, Available), Slot(SYSTEM, Futures, Available);
    if r.1.Err? {
      NothingAdded(l, r.0, key, ts);
    } else {
      var fromAvailable := Min(p, b.available);
      var fromMargin := p - fromAvailable;
      var b' := if p > 0 then b.(available := b.available - fromAvailable,
                                 margin := b.margin - (if fromMargin > 0 then fromMargin else 0))
                else b.(available := b.available - p);
      var l1 := l.WithBal(u, Futures, b').AddSys(Funding, p);
      NothingAdded(l, l1, key, ts);
      ExtendsPost(l, l1, pool, mine, -p, FundingPayment, key, key, ts);
      ExtendsPost(l, l1, mine, pool, fromAvailable, FundingPayment, key, key, ts);
      var l2 := if fromAvailable > 0 then l1.Post(mine, pool, fromAvailable, FundingPayment, key, ts) else l1;
      ExtendsPost(l, l2, Slot(u, Futures, Margin), pool, fromMargin, FundingPayment, LegKey(key, "margin"), key, ts);
    }
  }

  // The other operations write one line at most.
  lemma MovesExtend(l: Ledger, op: LedgerOp, key: Key, ts: Micros)
    requires op.OpDeposit? || op.OpWithdraw? || op.OpSettleCapped?
    ensures Extends(l, Execute(l, op, key, ts).0, key, ts)
  {
    hide Ledger.Bal, Ledger.Sys;
  }

  lemma TurnsExtend(l: Ledger, op: LedgerOp, key: Key, ts: Micros)
    requires op.OpTransfer? || op.OpFreeze? || op.OpUnfreeze?
    ensures Extends(l, Execute(l, op, key, ts).0, key, ts)
  {
    hide Ledger.Bal, Ledger.Sys;
  }

  // The journal only ever grows at its end, by lines numbered in order, each
  // under the key and at the time of the call that wrote it.
  lemma JournalGrows(l: Ledger, op: LedgerOp, key: Key, ts: Micros)
    ensures Extends(l, Apply(l, op, key, ts).0, key, ts)
  {
    hide Execute;
    var k := l.Keyed(key);
    if op.OpOpenPosition? || op.OpClosePosition? || op.OpCloseSettled? || op.OpLiquidate? {
      ExecuteExtends(k, op, key, ts);
    } else if op.OpSettleFunding? {
      FundingExtends(k, op, key, ts);
    } else if op.OpTransfer? || op.OpFreeze? || op.OpUnfreeze? {
      TurnsExtend(k, op, key, ts);
    } else {
      MovesExtend(k, op, key, ts);
    }
  }

  // So after any run its lines are numbered from one without a gap.
  lemma {:induction false} JournalNumbered(calls: seq<LedgerCall>)
    ensures var l := LedgerAfter(calls);
      l.nextId == |l.journal| + 1 && forall i :: 0 <= i < |l.journal| ==> l.journal[i].id == i + 1
  {
    if calls != [] {
      hide Apply;
      var n := |calls| - 1;
      var c := calls[n];
      JournalNumbered(calls[..n]);
      JournalGrows(LedgerAfter(calls[..n]), c.op, c.key, c.ts);
    }
  }
}
