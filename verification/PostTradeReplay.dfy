// Replaying the log gives the post-trade state the live run reached, although
// live settles money between fills and replay does not, and although replay
// caps amounts that were capped already.
module PostTradeReplay {
  import opened Common
  import opened LedgerSpec
  import opened Journal
  import opened Positions
  import opened PostTradeSpec
  import opened PostTradeSafety
  import LedgerChecks
  import Solvency

  // ── Runs ──────────────────────────────────────────────────────────────

  datatype PostStep =
    | Batch(events: seq<Event>, rows: seq<seq<PositionKey>>, ts: Micros)
    | AdminStep(user: UserId, amount: int, key: Key, ts: Micros)
    | Restart(kept: nat)

  // One live step on the state and the log: a batch appends its events and then
  // the facts; a restart rebuilds the state from as much of the log as was kept,
  // be it cut in the middle of a batch.
  function LiveStep(st: PostState, log: seq<Event>, step: PostStep): (PostState, seq<Event>)
    requires step.Batch? ==> |step.rows| == |step.events|
  {
    match step
    case Batch(events, rows, ts) =>
      var (s, facts) := Consume(st, events, rows, ts);
      (s, log + (events + facts))
    case AdminStep(u, amount, key, ts) =>
      var (m, facts) := Credit(st.money, u, amount, key, ts);
      (st.(money := m), log + facts)
    case Restart(kept) =>
      var left := log[..Min(kept, |log|)];
      (Replay(EMPTY_POST_STATE, left), left)
  }

  // Engine events carry no facts, and each funding tick walks the open positions
  // once in some order. Admin keys are the caller's own.
  ghost predicate LegalStep(ps: PositionMap, step: PostStep) {
    match step
    case Batch(events, rows, ts) => RowsFit(ps, events, rows) && forall e :: e in events ==> !IsFact(e)
    case AdminStep(u, amount, key, ts) => amount > 0 && key.AdminKey?
    case Restart(_) => true
  }

  predicate WellFormed(steps: seq<PostStep>) {
    forall step :: step in steps && step.Batch? ==> |step.rows| == |step.events|
  }

  function LiveRun(steps: seq<PostStep>): (PostState, seq<Event>)
    requires WellFormed(steps)
  {
    if steps == [] then (EMPTY_POST_STATE, [])
    else
      var (st, log) := LiveRun(steps[..|steps| - 1]);
      LiveStep(st, log, steps[|steps| - 1])
  }

  ghost predicate LegalRun(steps: seq<PostStep>)
    requires WellFormed(steps)
  {
    steps == []
    || (LegalRun(steps[..|steps| - 1])
        && LegalStep(LiveRun(steps[..|steps| - 1]).0.positions, steps[|steps| - 1]))
  }

  // The facts that settling emits.
  predicate Settles(e: Event) {
    e.RealizedPnl? || e.FundingSettled?
  }

  // ── The relation ──────────────────────────────────────────────────────

  // Equal money: balances and pools (a missing one counts as zero) and the
  // journal entry for entry.
  ghost predicate SameMoney(a: Ledger, b: Ledger) {
    && (forall u, w :: a.Bal(u, w) == b.Bal(u, w))
    && (forall w :: a.Sys(w) == b.Sys(w))
    && a.journal == b.journal && a.nextId == b.nextId
  }

  // A key a live ledger holds is numbered at most what its counters say.
  predicate Numbered(key: Key, pnlSeq: nat, period: nat) {
    (key.PnlKey? ==> key.seqNo <= pnlSeq) && (key.FundingKey? ==> key.period <= period)
  }

  ghost predicate KeysNumbered(m: Money) {
    forall key :: key in m.ledger.keys ==> Numbered(key, m.pnlSeq, m.period)
  }

  // Replay knows no other keys than live, and every key admins gave.
  ghost predicate KeysWithin(live: set<Key>, rep: set<Key>) {
    rep <= live && forall key :: key in live && key.AdminKey? ==> key in rep
  }

  ghost predicate MoneyMatches(live: Money, rep: Money) {
    && SameMoney(live.ledger, rep.ledger)
    && KeysWithin(live.ledger.keys, rep.ledger.keys)
    && KeysNumbered(live) && KeysNumbered(rep) && FundingSafe(live.ledger)
    && live.pnlSeq == rep.pnlSeq && rep.period <= live.period
  }

  ghost predicate StateMatches(live: PostState, rep: PostState) {
    live.positions == rep.positions && live.mark == rep.mark && MoneyMatches(live.money, rep.money)
  }

  // ── Replay splits into positions and money ────────────────────────────

  function ReplayMoney(m: Money, log: seq<Event>): Money {
    if log == [] then m else ApplyFact(ReplayMoney(m, log[..|log| - 1]), log[|log| - 1])
  }

  function Marked(mark: int, log: seq<Event>): int {
    if log == [] then mark else MarkAfter(Marked(mark, log[..|log| - 1]), log[|log| - 1])
  }

  lemma {:induction false} ReplaySplits(st: PostState, log: seq<Event>)
    ensures Replay(st, log) == PostState(Projected(st.positions, log), Marked(st.mark, log), ReplayMoney(st.money, log))
  {
    if log != [] {
      hide Project, MarkAfter, ApplyFact;
      ReplaySplits(st, log[..|log| - 1]);
    }
  }

  lemma {:induction false} ReplayLogConcat(st: PostState, a: seq<Event>, b: seq<Event>)
    ensures Replay(st, a + b) == Replay(Replay(st, a), b)
  {
    if b == [] {
      assert a + b == a;
    } else {
      hide ApplyLogged;
      var n := |b| - 1;
      assert (a + b)[..|a + b| - 1] == a + b[..n];
      ReplayLogConcat(st, a, b[..n]);
    }
  }

  lemma {:induction false} ReplayMoneyConcat(m: Money, a: seq<Event>, b: seq<Event>)
    ensures ReplayMoney(m, a + b) == ReplayMoney(ReplayMoney(m, a), b)
  {
    if b == [] {
      assert a + b == a;
    } else {
      hide ApplyFact;
      var n := |b| - 1;
      assert (a + b)[..|a + b| - 1] == a + b[..n];
      ReplayMoneyConcat(m, a, b[..n]);
    }
  }

  // Engine events move no money on replay; facts move nothing else.
  lemma {:induction false} EventsMoveNoMoney(m: Money, events: seq<Event>)
    requires forall e :: e in events ==> !IsFact(e)
    ensures ReplayMoney(m, events) == m
  {
    if events != [] {
      var n := |events| - 1;
      assert events[n] in events;
      EventsMoveNoMoney(m, events[..n]);
    }
  }

  lemma {:induction false} FactsMoveOnlyMoney(ps: PositionMap, mark: int, facts: seq<Event>)
    requires forall e :: e in facts ==> IsFact(e)
    ensures Projected(ps, facts) == ps && Marked(mark, facts) == mark
  {
    if facts != [] {
      hide FillPosition;
      var n := |facts| - 1;
      assert facts[n] in facts;
      FactsMoveOnlyMoney(ps, mark, facts[..n]);
    }
  }

  // ── Equal money stays equal ───────────────────────────────────────────

  lemma SameAfter(a: Ledger, b: Ledger, u: UserId, x: Balance, key: Key, s: int)
    requires SameMoney(a, b)
    ensures SameMoney(a.Opened(u), b.Opened(u)) && SameMoney(a.Opened(u), b) && SameMoney(a.Keyed(key), b.Keyed(key))
    ensures SameMoney(a.WithBal(u, Funding, x), b.WithBal(u, Funding, x))
    ensures SameMoney(a.AddSys(Funding, s), b.AddSys(Funding, s))
  {
    SameWithBal(a, b, u, x);
    SameAddSys(a, b, s);
    OpenedSame(a, u);
    OpenedSame(b, u);
    SameBalances(a, key);
    SameBalances(b, key);
    PoolsKeyed(a, key);
    PoolsKeyed(b, key);
  }

  lemma PoolsKeyed(l: Ledger, key: Key)
    ensures forall w :: l.Keyed(key).Sys(w) == l.Sys(w)
  {
  }

  lemma SameWithBal(a: Ledger, b: Ledger, u: UserId, x: Balance)
    requires SameMoney(a, b)
    ensures SameMoney(a.WithBal(u, Funding, x), b.WithBal(u, Funding, x))
  {
    var a', b' := a.WithBal(u, Funding, x), b.WithBal(u, Funding, x);
    forall v, w ensures a'.Bal(v, w) == b'.Bal(v, w) {
      assert a.Bal(v, w) == b.Bal(v, w);
    }
    forall w ensures a'.Sys(w) == b'.Sys(w) {
      assert a.Sys(w) == b.Sys(w);
    }
  }

  lemma SameAddSys(a: Ledger, b: Ledger, s: int)
    requires SameMoney(a, b)
    ensures SameMoney(a.AddSys(Funding, s), b.AddSys(Funding, s))
  {
    var a', b' := a.AddSys(Funding, s), b.AddSys(Funding, s);
    forall v, w ensures a'.Bal(v, w) == b'.Bal(v, w) {
      assert a.Bal(v, w) == b.Bal(v, w);
    }
    forall w ensures a'.Sys(w) == b'.Sys(w) {
      assert a.Sys(w) == b.Sys(w);
    }
  }

  lemma SamePost(a: Ledger, b: Ledger, d: Slot, c: Slot, amount: int, kind: EntryType, key: Key, ts: Micros)
    requires SameMoney(a, b)
    ensures SameMoney(a.Post(d, c, amount, kind, key, ts), b.Post(d, c, amount, kind, key, ts))
  {
    var a', b' := a.Post(d, c, amount, kind, key, ts), b.Post(d, c, amount, kind, key, ts);
    forall v, w ensures a'.Bal(v, w) == b'.Bal(v, w) {
      assert a.Bal(v, w) == b.Bal(v, w);
    }
    forall w ensures a'.Sys(w) == b'.Sys(w) {
      assert a.Sys(w) == b.Sys(w);
    }
  }

  // Moving nothing leaves equal money.
  lemma SameIdle(a: Ledger, b: Ledger, u: UserId, key: Key)
    requires SameMoney(a, b)
    ensures SameMoney(a.Keyed(key), b)
    ensures SameMoney(a.WithBal(u, Funding, a.Bal(u, Funding)).AddSys(Funding, 0), b)
  {
  }

  // What a capped settlement does, in terms of the amount it moves.
  function Moving(l: Ledger, u: UserId, moved: int, key: Key, ts: Micros): Ledger {
    var b := l.Bal(u, Funding);
    var mine, pool := Slot(u, Funding, Available), Slot(SYSTEM, Funding, Available);
    var l1 := l.WithBal(u, Funding, b.(available := b.available + moved)).AddSys(Funding, -moved);
    if moved > 0 then l1.Post(pool, mine, moved, FundingPayment, key, ts)
    else if moved < 0 then l1.Post(mine, pool, -moved, FundingPayment, key, ts)
    else l1
  }

  function CappedAt(l: Ledger, u: UserId, signed: int): int {
    if signed > 0 then signed else -Min(-signed, l.Bal(u, Funding).available)
  }

  lemma SettleMoves(l: Ledger, u: UserId, signed: int, key: Key, ts: Micros)
    requires key !in l.keys && signed != 0 && l.Bal(u, Funding).available >= 0
    ensures var moved := CappedAt(l, u, signed);
      Settle(l, u, signed, key, ts) == (Moving(l.Opened(u).Keyed(key), u, moved, key, ts), moved)
  {
    hide Ledger.WithBal, Ledger.AddSys, Ledger.Post;
    OpenedSame(l, u);
    SameBalances(l.Opened(u), key);
  }

  lemma SameMoving(a: Ledger, b: Ledger, u: UserId, moved: int, key: Key, ts: Micros)
    requires SameMoney(a, b)
    ensures SameMoney(Moving(a, u, moved, key, ts), Moving(b, u, moved, key, ts))
    ensures moved == 0 ==> SameMoney(Moving(a, u, moved, key, ts), b)
  {
    hide Ledger.WithBal, Ledger.AddSys, Ledger.Post, SameMoney;
    BalSame(a, b, u);
    var x := a.Bal(u, Funding);
    var x' := x.(available := x.available + moved);
    SameAfter(a, b, u, x', key, 0);
    SameAfter(a.WithBal(u, Funding, x'), b.WithBal(u, Funding, x'), u, x', key, -moved);
    var a1, b1 := a.WithBal(u, Funding, x').AddSys(Funding, -moved), b.WithBal(u, Funding, x').AddSys(Funding, -moved);
    var mine, pool := Slot(u, Funding, Available), Slot(SYSTEM, Funding, Available);
    SamePost(a1, b1, pool, mine, moved, FundingPayment, key, ts);
    SamePost(a1, b1, mine, pool, -moved, FundingPayment, key, ts);
    SameIdle(a, b, u, key);
  }

  lemma BalSame(a: Ledger, b: Ledger, u: UserId)
    requires SameMoney(a, b)
    ensures a.Bal(u, Funding) == b.Bal(u, Funding)
  {
  }

  lemma MovingKeeps(l: Ledger, u: UserId, moved: int, key: Key, ts: Micros)
    requires FundingSafe(l) && l.Bal(u, Funding).available + moved >= 0
    ensures FundingSafe(Moving(l.Opened(u).Keyed(key), u, moved, key, ts))
    ensures Moving(l.Opened(u).Keyed(key), u, moved, key, ts).keys == l.keys + {key}
  {
    var l0 := l.Opened(u).Keyed(key);
    var l1 := Moving(l0, u, moved, key, ts);
    assert l0.Bal(u, Funding) == l.Bal(u, Funding);
    forall v ensures l1.Bal(v, Funding).available >= 0 {
      assert l.Bal(v, Funding).available >= 0;
      assert l0.Bal(v, Funding) == l.Bal(v, Funding);
    }
  }

  // The heart of it: what live moved under the cap, replay moves without
  // capping it further; and what moved nothing leaves no trace but its key.
  lemma SettleReplays(l: Ledger, r: Ledger, u: UserId, signed: int, key: Key, ts: Micros)
    requires SameMoney(l, r) && FundingSafe(l) && KeysWithin(l.keys, r.keys)
    requires key !in l.keys && signed != 0
    ensures var (l', moved) := Settle(l, u, signed, key, ts);
      && l'.keys == l.keys + {key} && FundingSafe(l')
      && (moved == 0 ==> SameMoney(l', r) && signed < 0 && l.Bal(u, Funding).available == 0)
      && (moved != 0 ==> SameMoney(l', Settle(r, u, moved, key, ts).0)
                         && Settle(r, u, moved, key, ts).0.keys == r.keys + {key})
  {
    hide Settle, Moving, SameMoney, Ledger.Opened, Ledger.Keyed, Ledger.Bal;
    BalSame(l, r, u);
    var moved := CappedAt(l, u, signed);
    SafeAt(l, u);
    SettleMoves(l, u, signed, key, ts);
    MovingKeeps(l, u, moved, key, ts);
    var l0, r0 := l.Opened(u).Keyed(key), r.Opened(u).Keyed(key);
    SameAfter(l, r, u, ZERO_BALANCE, key, 0);
    SameAfter(l.Opened(u), r.Opened(u), u, ZERO_BALANCE, key, 0);
    SameMoving(l0, r0, u, moved, key, ts);
    if moved == 0 {
      SameIdle(l.Opened(u), r, u, key);
      SameMoving(l0, r, u, moved, key, ts);
    } else {
      SettleMoves(r, u, moved, key, ts);
      SafeSame(l, r);
      MovingKeeps(r, u, moved, key, ts);
    }
  }

  lemma SafeAt(l: Ledger, u: UserId)
    requires FundingSafe(l)
    ensures l.Bal(u, Funding).available >= 0
  {
  }

  lemma SafeSame(a: Ledger, b: Ledger)
    requires SameMoney(a, b) && FundingSafe(a)
    ensures FundingSafe(b)
  {
    assert forall u :: b.Bal(u, Funding) == a.Bal(u, Funding);
  }

  // ── One event ─────────────────────────────────────────────────────────

  lemma PnlReplays(live: Money, rep: Money, u: UserId, symbol: SymbolId, pnl: int, ts: Micros)
    requires MoneyMatches(live, rep)
    ensures var (m, facts) := SettlePnl(live, u, symbol, pnl, ts);
      MoneyMatches(m, ReplayMoney(rep, facts)) && forall e :: e in facts ==> Settles(e)
  {
    hide Settle, SameMoney, FundingSafe, Ledger.Bal;
    if !(pnl == 0 || (pnl < 0 && live.ledger.Bal(u, Funding).available == 0)) {
      var key := PnlKey(live.pnlSeq + 1, u, symbol);
      assert !Numbered(key, live.pnlSeq, live.period);
      SettleReplays(live.ledger, rep.ledger, u, pnl, key, ts);
      var (m, facts) := SettlePnl(live, u, symbol, pnl, ts);
      var fact := facts[0];
      assert facts == [fact];
      assert facts[..0] == [];
      assert ReplayMoney(rep, facts) == ApplyFact(rep, fact);
    }
  }

  // Keys of a period that is being settled belong to rows already settled.
  ghost predicate PeriodKeysOf(l: Ledger, period: nat, rows: seq<PositionKey>) {
    forall key :: key in l.keys && key.FundingKey? && key.period == period ==> PositionKey(key.user, key.symbol) in rows
  }

  lemma RowReplays(live: Money, rep: Money, k: PositionKey, payment: int, rows: seq<PositionKey>, ts: Micros)
    requires MoneyMatches(live, rep)
    requires PeriodKeysOf(live.ledger, live.period, rows) && k !in rows
    ensures var (l, facts) := SettleRow(live.ledger, k, payment, live.period, ts);
      && MoneyMatches(live.(ledger := l), ReplayMoney(rep, facts))
      && PeriodKeysOf(l, live.period, rows + [k])
      && forall e :: e in facts ==> Settles(e)
  {
    hide Settle, SameMoney, FundingSafe, Ledger.Bal;
    if payment != 0 {
      var key := FundingKey(live.period, k.user, k.symbol);
      assert key !in live.ledger.keys;
      SettleReplays(live.ledger, rep.ledger, k.user, -payment, key, ts);
      var (l, facts) := SettleRow(live.ledger, k, payment, live.period, ts);
      if facts != [] {
        assert facts == [facts[0]] && facts[..0] == [];
        assert ReplayMoney(rep, facts) == ApplyFact(rep, facts[0]);
      }
    }
  }

  lemma {:induction false} RowsReplay(live: Money, rep: Money, ps: PositionMap, rows: seq<PositionKey>, mark: int,
                                      rate: int, ts: Micros)
    requires MoneyMatches(live, rep) && PeriodKeysOf(live.ledger, live.period, [])
    requires forall i, j :: 0 <= i < j < |rows| ==> rows[i] != rows[j]
    ensures var (l, facts) := SettleRows(live.ledger, ps, rows, mark, rate, live.period, ts);
      && MoneyMatches(live.(ledger := l), ReplayMoney(rep, facts))
      && PeriodKeysOf(l, live.period, rows)
      && forall e :: e in facts ==> Settles(e)
  {
    hide MoneyMatches, PeriodKeysOf, SettleRow, Payment, ApplyFact;
    if rows != [] {
      var n := |rows| - 1;
      RowsReplay(live, rep, ps, rows[..n], mark, rate, ts);
      var (l1, facts) := SettleRows(live.ledger, ps, rows[..n], mark, rate, live.period, ts);
      var payment := Payment(ps, rows[n], mark, rate);
      RowReplays(live.(ledger := l1), ReplayMoney(rep, facts), rows[n], payment, rows[..n], ts);
      ReplayMoneyConcat(rep, facts, SettleRow(l1, rows[n], payment, live.period, ts).1);
      assert rows[..n] + [rows[n]] == rows;
    }
  }

  lemma TickReplays(live: Money, rep: Money, ps: PositionMap, rows: seq<PositionKey>, mark: int, rate: int, ts: Micros)
    requires MoneyMatches(live, rep)
    requires forall i, j :: 0 <= i < j < |rows| ==> rows[i] != rows[j]
    ensures var (m, facts) := SettleTick(live, ps, rows, mark, rate, ts);
      MoneyMatches(m, ReplayMoney(rep, facts)) && forall e :: e in facts ==> Settles(e)
  {
    hide SameMoney, KeysWithin, FundingSafe, SettleRows;
    if !(rows != [] && mark == 0) {
      var next := live.(period := live.period + 1);
      forall key | key in live.ledger.keys
        ensures Numbered(key, next.pnlSeq, next.period) && (key.FundingKey? ==> key.period != next.period)
      {
        assert Numbered(key, live.pnlSeq, live.period);
      }
      RowsReplay(next, rep, ps, rows, mark, rate, ts);
    }
  }

  lemma OneReplays(st: PostState, rep: Money, e: Event, rows: seq<PositionKey>, ts: Micros)
    requires MoneyMatches(st.money, rep)
    requires e.FundingRateUpdate? ==> Enumerates(rows, st.positions)
    ensures var (m, facts) := MoneyOf(st, e, rows, ts);
      MoneyMatches(m, ReplayMoney(rep, facts)) && forall f :: f in facts ==> Settles(f)
  {
    hide MoneyMatches, SettlePnl, SettleTick, ApplyFact, FillPnl;
    if e.OrderFilled? {
      PnlReplays(st.money, rep, e.userId, e.symbol,
                 FillPnl(st.positions, PositionKey(e.userId, e.symbol), e.side, e.fillQty, e.fillPrice), ts);
    } else if e.FundingRateUpdate? {
      TickReplays(st.money, rep, st.positions, rows, st.mark, e.fundingRate, ts);
    }
  }

  // ── One batch ─────────────────────────────────────────────────────────

  lemma {:induction false} BatchReplays(st: PostState, rep: Money, events: seq<Event>,
                                        rows: seq<seq<PositionKey>>, ts: Micros)
    requires MoneyMatches(st.money, rep) && RowsFit(st.positions, events, rows)
    ensures var (s, facts) := Consume(st, events, rows, ts);
      && s.positions == Projected(st.positions, events) && s.mark == Marked(st.mark, events)
      && MoneyMatches(s.money, ReplayMoney(rep, facts))
      && forall f :: f in facts ==> Settles(f)
    decreases |events|
  {
    hide MoneyMatches, MoneyOf, ApplyFact, Project, MarkAfter;
    if events != [] {
      var n := |events| - 1;
      RowsFitPrefix(st.positions, events, rows);
      BatchReplays(st, rep, events[..n], rows[..n], ts);
      var (s, facts) := Consume(st, events[..n], rows[..n], ts);
      OneReplays(s, ReplayMoney(rep, facts), events[n], rows[n], ts);
      ReplayMoneyConcat(rep, facts, MoneyOf(s, events[n], rows[n], ts).1);
    }
  }

  lemma RowsFitPrefix(ps: PositionMap, events: seq<Event>, rows: seq<seq<PositionKey>>)
    requires RowsFit(ps, events, rows) && events != []
    ensures var n := |events| - 1;
      && RowsFit(ps, events[..n], rows[..n])
      && (events[n].FundingRateUpdate? ==> Enumerates(rows[n], Projected(ps, events[..n])))
  {
    hide Enumerates, Projected;
    var n := |events| - 1;
    forall i | 0 <= i < n && events[..n][i].FundingRateUpdate?
      ensures Enumerates(rows[..n][i], Projected(ps, events[..n][..i]))
    {
      assert events[..n][..i] == events[..i];
    }
  }

  lemma CreditReplays(live: Money, rep: Money, u: UserId, amount: int, key: Key, ts: Micros)
    requires MoneyMatches(live, rep) && amount > 0 && key.AdminKey?
    ensures var (m, facts) := Credit(live, u, amount, key, ts);
      MoneyMatches(m, ReplayMoney(rep, facts))
  {
    hide Apply, SameMoney, FundingSafe;
    var (m, facts) := Credit(live, u, amount, key, ts);
    assert facts[..0] == [] && facts[0] == AdminCredited(u, amount, key, ts);
    assert ReplayMoney(rep, facts) == ApplyFact(rep, facts[0]);
    DepositReplays(live.ledger, rep.ledger, u, amount, key, ts);
  }

  lemma DepositReplays(l: Ledger, r: Ledger, u: UserId, amount: int, key: Key, ts: Micros)
    requires SameMoney(l, r) && FundingSafe(l) && (key in l.keys <==> key in r.keys) && amount > 0
    ensures var l' := Apply(l.Opened(u), OpDeposit(u, amount), key, ts).0;
      var r' := Apply(r.Opened(u), OpDeposit(u, amount), key, ts).0;
      && SameMoney(l', r') && FundingSafe(l')
      && l'.keys == l.keys + {key} && r'.keys == r.keys + {key}
  {
    hide Ledger.WithBal, Ledger.Post, SameMoney, FundingSafe, Ledger.Bal;
    SameAfter(l, r, u, ZERO_BALANCE, key, 0);
    OpenedSafe(l, u);
    if key in l.keys {
      assert l.keys + {key} == l.keys && r.keys + {key} == r.keys;
    } else {
      var a, b := l.Opened(u).Keyed(key), r.Opened(u).Keyed(key);
      SameAfter(l.Opened(u), r.Opened(u), u, ZERO_BALANCE, key, 0);
      BalSame(a, b, u);
      var x := a.Bal(u, Funding);
      var x' := x.(available := x.available + amount);
      SameAfter(a, b, u, x', key, 0);
      SamePost(a.WithBal(u, Funding, x'), b.WithBal(u, Funding, x'), Slot(SYSTEM, Funding, Available),
               Slot(u, Funding, Available), amount, Deposit, key, ts);
      StepFundingSafe(l.Opened(u), OpDeposit(u, amount), key, ts);
      KeysOfPost(a, u, x', amount, key, ts);
      KeysOfPost(b, u, x', amount, key, ts);
    }
  }

  lemma OpenedSafe(l: Ledger, u: UserId)
    requires FundingSafe(l)
    ensures FundingSafe(l.Opened(u))
  {
    OpenedSame(l, u);
  }

  lemma KeysOfPost(a: Ledger, u: UserId, x: Balance, amount: int, key: Key, ts: Micros)
    ensures a.WithBal(u, Funding, x)
             .Post(Slot(SYSTEM, Funding, Available), Slot(u, Funding, Available), amount, Deposit, key,
                 ts).keys == a.keys
  {
  }

  // ── Runs ──────────────────────────────────────────────────────────────

  lemma StepReplays(live: PostState, log: seq<Event>, step: PostStep)
    requires StateMatches(live, Replay(EMPTY_POST_STATE, log)) && LegalStep(live.positions, step)
    requires step.Restart? ==> AdminKeyed(log)
    ensures var (live', log') := LiveStep(live, log, step);
      StateMatches(live', Replay(EMPTY_POST_STATE, log'))
  {
    hide MoneyMatches, ApplyFact, Project, MarkAfter;
    var rep := Replay(EMPTY_POST_STATE, log);
    match step {
      case Batch(events, rows, ts) =>
        var (s, facts) := Consume(live, events, rows, ts);
        BatchReplays(live, rep.money, events, rows, ts);
        ReplayLogConcat(EMPTY_POST_STATE, log, events + facts);
        ReplayLogConcat(rep, events, facts);
        ReplaySplits(rep, events);
        ReplaySplits(Replay(rep, events), facts);
        EventsMoveNoMoney(rep.money, events);
        FactsMoveOnlyMoney(s.positions, s.mark, facts);
      case AdminStep(u, amount, key, ts) =>
        var (m, facts) := Credit(live.money, u, amount, key, ts);
        CreditReplays(live.money, rep.money, u, amount, key, ts);
        ReplayLogConcat(EMPTY_POST_STATE, log, facts);
        ReplaySplits(rep, facts);
        FactsMoveOnlyMoney(rep.positions, rep.mark, facts);
      case Restart(kept) =>
        RestartMatches(log[..Min(kept, |log|)]);
    }
  }

  // The keys admins gave are in their own namespace.
  ghost predicate AdminKeyed(log: seq<Event>) {
    forall e :: e in log && e.AdminCredited? ==> e.key.AdminKey?
  }

  lemma StepAdminKeyed(live: PostState, rep: Money, log: seq<Event>, step: PostStep)
    requires MoneyMatches(live.money, rep) && LegalStep(live.positions, step) && AdminKeyed(log)
    ensures AdminKeyed(LiveStep(live, log, step).1)
  {
    hide MoneyMatches;
    if step.Batch? {
      BatchReplays(live, rep, step.events, step.rows, step.ts);
    }
  }

  lemma SettleKeys(l: Ledger, u: UserId, signed: int, key: Key, ts: Micros)
    ensures Settle(l, u, signed, key, ts).0.keys <= l.keys + {key}
    ensures Apply(l.Opened(u), OpDeposit(u, signed), key, ts).0.keys <= l.keys + {key}
  {
    hide Ledger.Bal, Ledger.Sys;
  }

  lemma FactNumbers(m: Money, e: Event)
    requires KeysNumbered(m) && (e.AdminCredited? ==> e.key.AdminKey?)
    ensures KeysNumbered(ApplyFact(m, e))
  {
    hide Settle, Apply, Ledger.Opened;
    match e {
      case AdminCredited(u, amount, key, ts) => SettleKeys(m.ledger, u, amount, key, ts);
      case RealizedPnl(u, symbol, amount, ts) => SettleKeys(m.ledger, u, amount, PnlKey(m.pnlSeq + 1, u, symbol), ts);
      case FundingSettled(u, symbol, period, amount, ts) =>
        SettleKeys(m.ledger, u, -amount, FundingKey(period, u, symbol), ts);
      case _ =>
    }
  }

  // Replaying any log leaves keys that its own counters bound, so the rebuilt
  // state never meets a key it gave out before.
  lemma {:induction false} ReplayNumbers(log: seq<Event>)
    requires AdminKeyed(log)
    ensures KeysNumbered(Replay(EMPTY_POST_STATE, log).money)
  {
    if log != [] {
      hide KeysNumbered, ApplyFact, Project, MarkAfter;
      var n := |log| - 1;
      assert log[n] in log;
      ReplayNumbers(log[..n]);
      FactNumbers(Replay(EMPTY_POST_STATE, log[..n]).money, log[n]);
    }
  }

  // A state rebuilt from any log can itself go on as the live one.
  lemma RestartMatches(log: seq<Event>)
    requires AdminKeyed(log)
    ensures var rep := Replay(EMPTY_POST_STATE, log); MoneyMatches(rep.money, rep.money)
  {
    hide Ledger.Bal, Ledger.Sys, KeysNumbered, Replay;
    ReplayNumbers(log);
    ReplayVerifies(log);
    VerifiedIsSafe(Replay(EMPTY_POST_STATE, log).money.ledger);
  }

  lemma VerifiedIsSafe(l: Ledger)
    requires LedgerChecks.Verifies(l)
    ensures FundingSafe(l)
  {
    forall u ensures l.Bal(u, Funding).available >= 0 {
      assert Solvency.NonNegative(l.Bal(u, Funding));
    }
  }

  // For every legal run, with restarts anywhere and any tail of the log lost at
  // each, replaying the whole log from nothing reaches a state that matches the
  // live one.
  lemma {:induction false} PostTradeReplayEqualsLive(steps: seq<PostStep>)
    requires WellFormed(steps) && LegalRun(steps)
    ensures StateMatches(LiveRun(steps).0, Replay(EMPTY_POST_STATE, LiveRun(steps).1))
    ensures AdminKeyed(LiveRun(steps).1)
  {
    if steps != [] {
      hide MoneyMatches, LegalStep, LiveStep, ApplyLogged, AdminKeyed;
      var before := steps[..|steps| - 1];
      PostTradeReplayEqualsLive(before);
      var (st, log) := LiveRun(before);
      StepReplays(st, log, steps[|steps| - 1]);
      StepAdminKeyed(st, Replay(EMPTY_POST_STATE, log).money, log, steps[|steps| - 1]);
    }
  }

  // The recovered period can lag behind the live one: a tick that moves nothing
  // advances it but records no fact.
  lemma PeriodCanLag()
    ensures exists steps :: WellFormed(steps) && LegalRun(steps)
              && Replay(EMPTY_POST_STATE, LiveRun(steps).1).money.period < LiveRun(steps).0.money.period
  {
    hide ConsumeOne, ApplyLogged;
    var events: seq<Event> := [FundingRateUpdate(1, 0, 0)];
    var rows: seq<seq<PositionKey>> := [[]];
    var steps := [Batch(events, rows, 0)];
    assert steps[..0] == [] && events[..0] == [] && rows[..0] == [];
    IdleTick();
    var after := EMPTY_POST_STATE.(money := EMPTY_POST_STATE.money.(period := 1));
    assert |events| - 1 == 0 && rows[0] == [];
    assert Consume(EMPTY_POST_STATE, events[..0], rows[..0], 0) == (EMPTY_POST_STATE, []);
    assert ConsumeOne(EMPTY_POST_STATE, events[0], rows[0], 0) == (after, []);
    var none: seq<Event> := [];
    assert none + none == none;
    assert Consume(EMPTY_POST_STATE, events, rows, 0) == (after, []);
    assert LiveRun([]) == (EMPTY_POST_STATE, []);
    assert LiveRun(steps) == LiveStep(EMPTY_POST_STATE, [], steps[0]);
    assert [] + (events + []) == events;
    assert LiveRun(steps) == (after, events);
    assert Replay(EMPTY_POST_STATE, events) == ApplyLogged(EMPTY_POST_STATE, events[0]);
    assert RowsFit(map[], events, rows);
    assert WellFormed(steps) && LegalRun(steps);
  }

  lemma IdleTick()
    ensures var e := FundingRateUpdate(1, 0, 0);
      && ConsumeOne(EMPTY_POST_STATE, e, [], 0)
         == (EMPTY_POST_STATE.(money := EMPTY_POST_STATE.money.(period := 1)), [])
      && ApplyLogged(EMPTY_POST_STATE, e) == EMPTY_POST_STATE
  {
  }

  // The recovered period is at least every period the log records.
  lemma {:induction false} PeriodRecovered(st: PostState, log: seq<Event>, i: nat)
    requires i < |log| && log[i].FundingSettled?
    ensures Replay(st, log).money.period >= log[i].period
  {
    hide Settle, Apply;
    var n := |log| - 1;
    if i < n {
      PeriodRecovered(st, log[..n], i);
    }
  }

  // The recovered period is itself on record, unless nothing was ever settled.
  lemma {:induction false} RecoveredIsRecorded(log: seq<Event>)
    ensures var p := Replay(EMPTY_POST_STATE, log).money.period;
      p == 0 || exists i :: 0 <= i < |log| && log[i].FundingSettled? && log[i].period == p
  {
    hide Settle, Apply;
    if log != [] {
      var n := |log| - 1;
      RecoveredIsRecorded(log[..n]);
      var p, q := Replay(EMPTY_POST_STATE, log).money.period, Replay(EMPTY_POST_STATE, log[..n]).money.period;
      if p == q && p != 0 {
        var i :| 0 <= i < n && log[..n][i].FundingSettled? && log[..n][i].period == p;
        assert log[i].period == p;
      } else if p != q {
        assert log[n].FundingSettled? && log[n].period == p;
      }
    }
  }

  // After every legal run: the period is restored exactly if and only if none
  // was ever counted or the log holds a payment of the latest one.
  lemma PeriodRestoredIff(steps: seq<PostStep>)
    requires WellFormed(steps) && LegalRun(steps)
    ensures var (st, log) := LiveRun(steps);
      Replay(EMPTY_POST_STATE, log).money.period == st.money.period <==>
      st.money.period == 0
      || exists i :: 0 <= i < |log| && log[i].FundingSettled? && log[i].period == st.money.period
  {
    var (st, log) := LiveRun(steps);
    PostTradeReplayEqualsLive(steps);
    RecoveredIsRecorded(log);
    hide LiveRun, LegalRun, Replay, SameMoney, KeysWithin, KeysNumbered, FundingSafe;
    if exists i :: 0 <= i < |log| && log[i].FundingSettled? && log[i].period == st.money.period {
      var i :| 0 <= i < |log| && log[i].FundingSettled? && log[i].period == st.money.period;
      PeriodRecovered(EMPTY_POST_STATE, log, i);
    }
  }

  // ── Which ticks leave a fact ──────────────────────────────────────────

  // A payment that moves money: a receipt, or a debit that meets some.
  predicate Moves(l: Ledger, k: PositionKey, payment: int) {
    payment != 0 && (payment < 0 || l.Bal(k.user, Funding).available != 0)
  }

  lemma RowFact(live: Money, rep: Money, k: PositionKey, payment: int, rows: seq<PositionKey>, ts: Micros)
    requires MoneyMatches(live, rep) && PeriodKeysOf(live.ledger, live.period, rows) && k !in rows
    ensures var facts := SettleRow(live.ledger, k, payment, live.period, ts).1;
      && (facts != [] <==> Moves(live.ledger, k, payment))
      && forall f :: f in facts ==> f.FundingSettled? && f.period == live.period
  {
    if payment != 0 {
      assert FundingKey(live.period, k.user, k.symbol) !in live.ledger.keys;
      SafeAt(live.ledger, k.user);
      SettleMoves(live.ledger, k.user, -payment, FundingKey(live.period, k.user, k.symbol), ts);
      hide Settle, Moving, SameMoney;
    }
  }

  // Some row moves money when its turn comes.
  ghost predicate SomeRowMoves(l: Ledger, ps: PositionMap, rows: seq<PositionKey>, mark: int, rate: int, period: nat,
                               ts: Micros) {
    exists i :: 0 <= i < |rows| &&
      Moves(SettleRows(l, ps, rows[..i], mark, rate, period, ts).0, rows[i], Payment(ps, rows[i], mark, rate))
  }

  lemma SomeRowSnoc(l: Ledger, ps: PositionMap, rows: seq<PositionKey>, mark: int, rate: int, period: nat, ts: Micros)
    requires rows != []
    ensures var n := |rows| - 1;
      SomeRowMoves(l, ps, rows, mark, rate, period, ts) <==>
        SomeRowMoves(l, ps, rows[..n], mark, rate, period, ts)
        || Moves(SettleRows(l, ps, rows[..n], mark, rate, period, ts).0, rows[n], Payment(ps, rows[n], mark, rate))
  {
    hide Moves, SettleRows, Payment;
    var n := |rows| - 1;
    assert forall i :: 0 <= i < n ==> rows[..n][..i] == rows[..i] && rows[..n][i] == rows[i];
  }

  lemma {:induction false} RowsFacts(live: Money, rep: Money, ps: PositionMap, rows: seq<PositionKey>, mark: int,
                                     rate: int, ts: Micros)
    requires MoneyMatches(live, rep) && PeriodKeysOf(live.ledger, live.period, [])
    requires forall i, j :: 0 <= i < j < |rows| ==> rows[i] != rows[j]
    ensures var facts := SettleRows(live.ledger, ps, rows, mark, rate, live.period, ts).1;
      && (facts != [] <==> SomeRowMoves(live.ledger, ps, rows, mark, rate, live.period, ts))
      && forall f :: f in facts ==> f.FundingSettled? && f.period == live.period
  {
    hide MoneyMatches, PeriodKeysOf, SettleRow, Payment, Moves;
    if rows != [] {
      var n := |rows| - 1;
      RowsFacts(live, rep, ps, rows[..n], mark, rate, ts);
      RowsReplay(live, rep, ps, rows[..n], mark, rate, ts);
      SomeRowSnoc(live.ledger, ps, rows, mark, rate, live.period, ts);
      hide SomeRowMoves;
      var (l1, facts) := SettleRows(live.ledger, ps, rows[..n], mark, rate, live.period, ts);
      RowFact(live.(ledger := l1), ReplayMoney(rep, facts), rows[n], Payment(ps, rows[n], mark, rate), rows[..n], ts);
    }
  }

  lemma {:induction false} PeriodOfFacts(m: Money, facts: seq<Event>, period: nat)
    requires m.period <= period && forall f :: f in facts ==> f.FundingSettled? && f.period == period
    ensures ReplayMoney(m, facts).period == if facts == [] then m.period else period
  {
    hide Settle;
    if facts != [] {
      var n := |facts| - 1;
      assert facts[n] in facts;
      PeriodOfFacts(m, facts[..n], period);
    }
  }

  // A tick that is not skipped counts a period. Replay counts it too if and
  // only if some row moves money at its turn.
  lemma TickPeriodIff(live: Money, rep: Money, ps: PositionMap, rows: seq<PositionKey>, mark: int, rate: int,
                      ts: Micros)
    requires MoneyMatches(live, rep) && live.period == rep.period && !(rows != [] && mark == 0)
    requires forall i, j :: 0 <= i < j < |rows| ==> rows[i] != rows[j]
    ensures var (m, facts) := SettleTick(live, ps, rows, mark, rate, ts);
      ReplayMoney(rep, facts).period == m.period <==>
        SomeRowMoves(live.ledger, ps, rows, mark, rate, live.period + 1, ts)
  {
    hide SameMoney, KeysWithin, FundingSafe, SettleRows, SomeRowMoves;
    var next := live.(period := live.period + 1);
    forall key | key in live.ledger.keys
      ensures Numbered(key, next.pnlSeq, next.period) && (key.FundingKey? ==> key.period != next.period)
    {
      assert Numbered(key, live.pnlSeq, live.period);
    }
    RowsFacts(next, rep, ps, rows, mark, rate, ts);
    PeriodOfFacts(rep, SettleRows(live.ledger, ps, rows, mark, rate, next.period, ts).1, next.period);
  }
}
