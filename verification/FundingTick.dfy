// Funding ticks: what rounding can add to the pool, and that the order of
// settlement does not matter.
module FundingTick {
  import opened Common
  import opened Sums
  import opened LedgerSpec
  import opened Journal
  import opened FundingRate
  import opened Rounding
  import opened Positions
  import opened PostTradeSpec
  import opened PostTradeSafety
  import opened PostTradeReplay
  import opened OpenInterest

  // ── Sums over an enumeration ──────────────────────────────────────────

  function SumOver<K>(rows: seq<K>, m: map<K, int>): int
    requires forall k :: k in rows ==> k in m
  {
    if rows == [] then 0 else SumOver(rows[..|rows| - 1], m) + m[rows[|rows| - 1]]
  }

  predicate NoRepeats<K(==)>(rows: seq<K>) {
    forall i, j :: 0 <= i < j < |rows| ==> rows[i] != rows[j]
  }

  lemma {:induction false} SumInAnyOrder<K>(rows: seq<K>, m: map<K, int>)
    requires NoRepeats(rows) && forall k :: k in rows <==> k in m
    ensures SumOver(rows, m) == SumMap(m)
  {
    if rows == [] {
      assert m == map[];
    } else {
      var k := rows[|rows| - 1];
      var init := rows[..|rows| - 1];
      SumMapRemove(m, k);
      assert forall x :: x in rows <==> x in init || x == k;
      SumInAnyOrder(init, m - {k});
      SumOverSame(init, m, m - {k});
    }
  }

  lemma {:induction false} SumOverSame<K>(rows: seq<K>, m: map<K, int>, m': map<K, int>)
    requires forall k :: k in rows ==> k in m && k in m' && m[k] == m'[k]
    ensures SumOver(rows, m) == SumOver(rows, m')
  {
    if rows != [] {
      SumOverSame(rows[..|rows| - 1], m, m');
    }
  }

  ghost predicate Splits<K(!new)>(m: map<K, int>, a: map<K, int>, b: map<K, int>) {
    && (forall k :: k in m <==> k in a || k in b)
    && (forall k :: k in a ==> k !in b && m[k] == a[k])
    && (forall k :: k in b ==> m[k] == b[k])
  }

  lemma {:induction false} SumMapSplit<K(!new)>(m: map<K, int>, a: map<K, int>, b: map<K, int>)
    requires Splits(m, a, b)
    ensures SumMap(m) == SumMap(a) + SumMap(b)
    decreases |a|
  {
    hide SumMap;
    if a == map[] {
      assert m == b;
      EmptySum<K>();
    } else {
      var k :| k in a;
      SumMapRemove(m, k);
      SumMapRemove(a, k);
      assert Splits(m - {k}, a - {k}, b);
      SumMapSplit(m - {k}, a - {k}, b);
    }
  }

  lemma EmptySum<K>()
    ensures SumMap<K>(map[]) == 0
  {
  }

  // ── Net-flat positions ────────────────────────────────────────────────

  ghost function SignedAll(ps: PositionMap): map<PositionKey, int> {
    map k | k in ps :: ps[k].Signed()
  }

  // Flat in every symbol is flat altogether.
  lemma {:induction false} FlatAltogether(ps: PositionMap)
    requires NetFlat(ps)
    ensures SumMap(SignedAll(ps)) == 0
    decreases |ps|
  {
    if ps == map[] {
      assert SignedAll(ps) == map[];
    } else {
      var k :| k in ps;
      var rest := Elsewhere(ps, k.symbol);
      assert k in ps.Keys && k !in rest.Keys && rest.Keys <= ps.Keys;
      SmallerMap(rest, ps);
      SplitBySymbol(ps, k.symbol);
      assert NetOpenInterest(ps, k.symbol) == 0;
      ElsewhereFlat(ps, k.symbol);
      FlatAltogether(rest);
    }
  }

  ghost function Elsewhere(ps: PositionMap, symbol: SymbolId): PositionMap {
    map x | x in ps && x.symbol != symbol :: ps[x]
  }

  lemma SplitBySymbol(ps: PositionMap, symbol: SymbolId)
    ensures SumMap(SignedAll(ps)) == NetOpenInterest(ps, symbol) + SumMap(SignedAll(Elsewhere(ps, symbol)))
  {
    hide SumMap, Position.Signed;
    var here, there := SignedSizes(ps, symbol), SignedAll(Elsewhere(ps, symbol));
    SumMapSplit(SignedAll(ps), here, there);
  }

  lemma ElsewhereFlat(ps: PositionMap, symbol: SymbolId)
    requires NetFlat(ps)
    ensures NetFlat(Elsewhere(ps, symbol))
  {
    var rest := Elsewhere(ps, symbol);
    forall s: SymbolId ensures NetOpenInterest(rest, s) == 0 {
      if s == symbol {
        assert SignedSizes(rest, s) == map[];
      } else {
        assert NetOpenInterest(ps, s) == 0;
        assert SignedSizes(rest, s) == SignedSizes(ps, s);
      }
    }
  }

  lemma SmallerMap<K, V>(a: map<K, V>, b: map<K, V>)
    requires a.Keys < b.Keys
    ensures |a| < |b|
  {
    SmallerSet(a.Keys, b.Keys);
  }

  lemma SmallerSet<K>(a: set<K>, b: set<K>)
    requires a < b
    ensures |a| < |b|
  {
    assert |b - a| > 0 by {
      var x :| x in b && x !in a;
      assert x in b - a;
    }
    assert b == a + (b - a);
  }

  // ── Rounding ──────────────────────────────────────────────────────────

  // One payment misses its exact value, size times mark times rate, by less
  // than 1.0075 raw units: the notional's error shrinks by the rate.
  lemma PaymentError(p: Position, mark: int, rate: int)
    requires -RATE_BOUND <= rate <= RATE_BOUND
    ensures Abs(PaymentOf(p, mark, rate) * SCALE * SCALE - p.Signed() * mark * rate)
            <= SCALE * SCALE + RATE_BOUND * SCALE
  {
    var r := if p.side.Short? then -rate else rate;
    var n := Mul(p.size, mark);
    var pay := Mul(n, r);
    TruncError(p.size * mark, SCALE);
    TruncError(n * r, SCALE);
    var e1, e2 := n * SCALE - p.size * mark, pay * SCALE - n * r;
    Expand(pay, n, r, p.size * mark, SCALE);
    assert pay * SCALE * SCALE - p.size * mark * r == SCALE * e2 + r * e1;
    ProductBound(r, e1, RATE_BOUND, SCALE);
    assert p.Signed() * mark * rate == p.size * mark * r by { SignMoves(p.size, mark, rate); }
  }

  lemma Expand(pay: int, n: int, r: int, sm: int, s: int)
    ensures pay * s * s - sm * r == s * (pay * s - n * r) + r * (n * s - sm)
  {
  }

  lemma SignMoves(a: int, b: int, c: int)
    ensures (-a) * b * c == a * b * (-c)
  {
  }

  lemma ProductBound(x: int, y: int, a: nat, b: nat)
    requires Abs(x) <= a && Abs(y) <= b
    ensures -(a * b) <= x * y <= a * b
  {
    assert Abs(x) * Abs(y) <= a * b by {
      assert Abs(x) * Abs(y) <= a * Abs(y) <= a * b;
    }
  }

  function PaymentSum(ps: PositionMap, rows: seq<PositionKey>, mark: int, rate: int): int {
    if rows == [] then 0
    else PaymentSum(ps, rows[..|rows| - 1], mark, rate) + Payment(ps, rows[|rows| - 1], mark, rate)
  }

  lemma {:induction false} PaymentsError(ps: PositionMap, rows: seq<PositionKey>, mark: int, rate: int)
    requires -RATE_BOUND <= rate <= RATE_BOUND && forall k :: k in rows ==> k in ps
    ensures Abs(PaymentSum(ps, rows, mark, rate) * SCALE * SCALE - SumOver(rows, SignedAll(ps)) * mark * rate)
            <= |rows| * (SCALE * SCALE + RATE_BOUND * SCALE)
  {
    if rows != [] {
      var init, k := rows[..|rows| - 1], rows[|rows| - 1];
      PaymentsError(ps, init, mark, rate);
      PaymentError(ps[k], mark, rate);
      var a, b := SumOver(init, SignedAll(ps)), ps[k].Signed();
      Distribute(a, b, mark, rate);
      Distribute(PaymentSum(ps, init, mark, rate), PaymentOf(ps[k], mark, rate), SCALE, SCALE);
      var e := SCALE * SCALE + RATE_BOUND * SCALE;
      assert |rows| * e == |init| * e + e;
    }
  }

  lemma Distribute(a: int, b: int, c: int, d: int)
    ensures (a + b) * c * d == a * c * d + b * c * d
  {
  }

  lemma {:induction false} SignedOverRows(ps: PositionMap, rows: seq<PositionKey>)
    requires Enumerates(rows, ps)
    ensures SumOver(rows, SignedAll(ps)) == SumMap(SignedAll(ps))
  {
    var live: map<PositionKey, int> := map k | k in ps && ps[k].size != 0 :: ps[k].Signed();
    var dead: map<PositionKey, int> := map k | k in ps && ps[k].size == 0 :: 0;
    SumInAnyOrder(rows, live);
    SumOverSame(rows, live, SignedAll(ps));
    SumMapSplit(SignedAll(ps), live, dead);
    SumZero(dead);
  }

  lemma {:induction false} SumZero<K>(m: map<K, int>)
    requires forall k :: k in m ==> m[k] == 0
    ensures SumMap(m) == 0
    decreases |m|
  {
    if m != map[] {
      var k :| k in m;
      SumMapRemove(m, k);
      SumZero(m - {k});
    }
  }

  // Over net-flat positions, all payments together come to at most 1.0075 raw
  // units a position.
  lemma PaymentsNearlyCancel(ps: PositionMap, rows: seq<PositionKey>, mark: int, rate: int)
    requires Enumerates(rows, ps) && NetFlat(ps) && -RATE_BOUND <= rate <= RATE_BOUND
    ensures 10_000 * Abs(PaymentSum(ps, rows, mark, rate)) <= 10_075 * |rows|
  {
    hide Enumerates, SumMap, SumOver, PaymentSum, NetFlat;
    FlatAltogether(ps);
    SignedOverRows(ps, rows);
    RowsKnown(ps, rows);
    PaymentsError(ps, rows, mark, rate);
    var total := PaymentSum(ps, rows, mark, rate);
    assert Abs(total * SCALE * SCALE) <= |rows| * (SCALE * SCALE + RATE_BOUND * SCALE);
  }

  lemma RowsKnown(ps: PositionMap, rows: seq<PositionKey>)
    requires Enumerates(rows, ps)
    ensures forall k :: k in rows ==> k in ps
  {
  }

  // ── One row ───────────────────────────────────────────────────────────

  // What is collected of a payment from a wallet; a receipt always goes through.
  function Collected(available: int, payment: int): int {
    if payment > 0 then Min(payment, available) else payment
  }

  predicate Unused(l: Ledger, k: PositionKey, period: nat) {
    FundingKey(period, k.user, k.symbol) !in l.keys
  }

  lemma RowEffect(l: Ledger, k: PositionKey, payment: int, period: nat, ts: Micros)
    requires FundingSafe(l) && Unused(l, k, period)
    ensures var l' := SettleRow(l, k, payment, period, ts).0;
      var b := l.Bal(k.user, Funding);
      var c := Collected(b.available, payment);
      && FundingSafe(l')
      && l'.keys <= l.keys + {FundingKey(period, k.user, k.symbol)}
      && l'.Sys(Funding) == l.Sys(Funding) + c
      && (forall u, w :: l'.Bal(u, w) == if u == k.user && w == Funding then b.(available := b.available - c)
                                         else l.Bal(u, w))
      && (forall w :: w != Funding ==> l'.Sys(w) == l.Sys(w))
  {
    hide Settle, FundingSafe, Ledger.Opened;
    SafeAt(l, k.user);
    var b := l.Bal(k.user, Funding);
    if payment != 0 {
      var key := FundingKey(period, k.user, k.symbol);
      SettleMoves(l, k.user, -payment, key, ts);
      var moved := CappedAt(l, k.user, -payment);
      assert moved == -Collected(b.available, payment);
      MovingKeeps(l, k.user, moved, key, ts);
      MovingEffect(l, k.user, moved, key, ts);
    } else {
      assert b.(available := b.available - 0) == b;
    }
  }

  lemma MovingEffect(l: Ledger, u: UserId, moved: int, key: Key, ts: Micros)
    ensures var l' := Moving(l.Opened(u).Keyed(key), u, moved, key, ts);
      var b := l.Bal(u, Funding);
      && l'.Sys(Funding) == l.Sys(Funding) - moved
      && (forall v, w :: l'.Bal(v, w) == if v == u && w == Funding then b.(available := b.available + moved)
                                         else l.Bal(v, w))
      && (forall w :: w != Funding ==> l'.Sys(w) == l.Sys(w))
  {
    var l0 := l.Opened(u).Keyed(key);
    OpenedSame(l, u);
    SameBalances(l.Opened(u), key);
    assert l0.Bal(u, Funding) == l.Bal(u, Funding);
  }

  // ── The pool ──────────────────────────────────────────────────────────

  // What the rows were owed but could not be paid, each out of the wallet as it
  // then was.
  function Shortfall(l: Ledger, ps: PositionMap, rows: seq<PositionKey>, mark: int, rate: int, period: nat,
                     ts: Micros): int {
    if rows == [] then 0
    else
      var n := |rows| - 1;
      var l1 := SettleRows(l, ps, rows[..n], mark, rate, period, ts).0;
      var owed := Payment(ps, rows[n], mark, rate);
      Shortfall(l, ps, rows[..n], mark, rate, period, ts)
      + owed - Collected(l1.Bal(rows[n].user, Funding).available, owed)
  }

  ghost predicate PeriodUnused(l: Ledger, period: nat) {
    forall k: PositionKey :: Unused(l, k, period)
  }

  lemma StillUnused(l: Ledger, l': Ledger, rows: seq<PositionKey>, period: nat)
    requires rows != []
    requires forall k :: k !in rows[..|rows| - 1] ==> Unused(l, k, period)
    requires l'.keys <= l.keys + {FundingKey(period, rows[|rows| - 1].user, rows[|rows| - 1].symbol)}
    ensures forall k :: k !in rows ==> Unused(l', k, period)
  {
    forall k | k !in rows ensures Unused(l', k, period) {
      assert k != rows[|rows| - 1];
      assert k !in rows[..|rows| - 1];
      assert Unused(l, k, period);
    }
  }

  lemma {:induction false} PoolMoves(l: Ledger, ps: PositionMap, rows: seq<PositionKey>, mark: int, rate: int,
                                     period: nat, ts: Micros)
    requires FundingSafe(l) && PeriodUnused(l, period) && NoRepeats(rows)
    ensures var l' := SettleRows(l, ps, rows, mark, rate, period, ts).0;
      && l'.Sys(Funding) == l.Sys(Funding) + PaymentSum(ps, rows, mark, rate)
                            - Shortfall(l, ps, rows, mark, rate, period, ts)
      && FundingSafe(l')
      && (forall k :: k !in rows ==> Unused(l', k, period))
  {
    hide SettleRow, FundingSafe, Payment, Ledger.Bal, Ledger.Sys;
    if rows != [] {
      var n := |rows| - 1;
      PoolMoves(l, ps, rows[..n], mark, rate, period, ts);
      var l1 := SettleRows(l, ps, rows[..n], mark, rate, period, ts).0;
      RowEffect(l1, rows[n], Payment(ps, rows[n], mark, rate), period, ts);
      StillUnused(l1, SettleRow(l1, rows[n], Payment(ps, rows[n], mark, rate), period, ts).0, rows, period);
    }
  }

  // A funding tick over net-flat positions changes the pool by minus what could
  // not be collected, to within 1.0075 raw units a position, in any order.
  lemma TickPool(m: Money, ps: PositionMap, rows: seq<PositionKey>, mark: int, rate: int, ts: Micros)
    requires KeysNumbered(m) && FundingSafe(m.ledger) && mark != 0
    requires Enumerates(rows, ps) && NetFlat(ps) && -RATE_BOUND <= rate <= RATE_BOUND
    ensures var l' := SettleTick(m, ps, rows, mark, rate, ts).0.ledger;
      var short := Shortfall(m.ledger, ps, rows, mark, rate, m.period + 1, ts);
      && short >= 0
      && 10_000 * Abs(l'.Sys(Funding) - m.ledger.Sys(Funding) + short) <= 10_075 * |rows|
  {
    hide SettleRows, PaymentSum, NetFlat, FundingSafe, Ledger.Sys;
    PeriodIsNew(m);
    PoolMoves(m.ledger, ps, rows, mark, rate, m.period + 1, ts);
    PaymentsNearlyCancel(ps, rows, mark, rate);
    ShortfallSign(m.ledger, ps, rows, mark, rate, m.period + 1, ts);
  }

  lemma {:induction false} ShortfallSign(l: Ledger, ps: PositionMap, rows: seq<PositionKey>, mark: int, rate: int,
                                         period: nat, ts: Micros)
    ensures Shortfall(l, ps, rows, mark, rate, period, ts) >= 0
  {
    hide SettleRows, Payment, Ledger.Bal;
    if rows != [] {
      ShortfallSign(l, ps, rows[..|rows| - 1], mark, rate, period, ts);
    }
  }

  lemma PeriodIsNew(m: Money)
    requires KeysNumbered(m)
    ensures PeriodUnused(m.ledger, m.period + 1)
  {
    var next := m.period + 1;
    forall k: PositionKey ensures Unused(m.ledger, k, next) {
      assert !Numbered(FundingKey(next, k.user, k.symbol), m.pnlSeq, m.period);
    }
  }

  // ── Order ─────────────────────────────────────────────────────────────

  predicate OnePerUser(rows: seq<PositionKey>) {
    forall i, j :: 0 <= i < j < |rows| ==> rows[i].user != rows[j].user
  }

  // What each row collects, from the wallets before the tick.
  ghost function Dues(l: Ledger, ps: PositionMap, rows: seq<PositionKey>, mark: int, rate: int): map<PositionKey, int> {
    map k | k in rows :: Collected(l.Bal(k.user, Funding).available, Payment(ps, k, mark, rate))
  }

  // A user's funding wallet after some rows, from what it was before.
  function WalletAfter(l: Ledger, rows: seq<PositionKey>, dues: map<PositionKey, int>, u: UserId): Balance
    requires forall k :: k in rows ==> k in dues
  {
    var b := l.Bal(u, Funding);
    if rows == [] then b
    else
      var k := rows[|rows| - 1];
      if k.user == u then b.(available := b.available - dues[k]) else WalletAfter(l, rows[..|rows| - 1], dues, u)
  }

  lemma {:induction false} WalletOfRow(l: Ledger, rows: seq<PositionKey>, dues: map<PositionKey, int>, u: UserId)
    requires (forall k :: k in rows ==> k in dues) && OnePerUser(rows)
    ensures (forall k :: k in rows ==> k.user != u) ==> WalletAfter(l, rows, dues, u) == l.Bal(u, Funding)
    ensures forall k :: k in rows && k.user == u ==>
              WalletAfter(l, rows, dues, u) == l.Bal(u, Funding).(available := l.Bal(u, Funding).available - dues[k])
  {
    hide Ledger.Bal;
    if rows != [] {
      WalletOfRow(l, rows[..|rows| - 1], dues, u);
    }
  }

  lemma {:induction false} RowsByUser(l: Ledger, ps: PositionMap, rows: seq<PositionKey>, all: seq<PositionKey>,
                                      mark: int, rate: int, period: nat, ts: Micros)
    requires FundingSafe(l) && PeriodUnused(l, period) && OnePerUser(rows)
    requires forall k :: k in rows ==> k in all
    ensures var l' := SettleRows(l, ps, rows, mark, rate, period, ts).0;
      var dues := Dues(l, ps, all, mark, rate);
      && FundingSafe(l')
      && (forall k :: k !in rows ==> Unused(l', k, period))
      && (forall u, w :: l'.Bal(u, w) == if w == Funding then WalletAfter(l, rows, dues, u) else l.Bal(u, w))
      && l'.Sys(Funding) == l.Sys(Funding) + SumOver(rows, dues)
      && (forall w :: w != Funding ==> l'.Sys(w) == l.Sys(w))
  {
    hide SettleRow, FundingSafe, Payment, Ledger.Bal, Ledger.Sys;
    if rows != [] {
      var n := |rows| - 1;
      var k := rows[n];
      var dues := Dues(l, ps, all, mark, rate);
      RowsByUser(l, ps, rows[..n], all, mark, rate, period, ts);
      WalletOfRow(l, rows[..n], dues, k.user);
      var l1 := SettleRows(l, ps, rows[..n], mark, rate, period, ts).0;
      RowEffect(l1, k, Payment(ps, k, mark, rate), period, ts);
      StillUnused(l1, SettleRow(l1, k, Payment(ps, k, mark, rate), period, ts).0, rows, period);
      assert l1.Bal(k.user, Funding) == l.Bal(k.user, Funding);
      assert dues[k] == Collected(l.Bal(k.user, Funding).available, Payment(ps, k, mark, rate));
    }
  }

  // With at most one position a user, every order of settlement leaves the same
  // balances and the same pools.
  lemma OrderDoesNotMatter(m: Money, ps: PositionMap, rows: seq<PositionKey>, rows': seq<PositionKey>, mark: int,
                           rate: int, ts: Micros)
    requires KeysNumbered(m) && FundingSafe(m.ledger)
    requires Enumerates(rows, ps) && Enumerates(rows', ps) && OnePerUser(rows)
    ensures var a := SettleTick(m, ps, rows, mark, rate, ts).0.ledger;
      var b := SettleTick(m, ps, rows', mark, rate, ts).0.ledger;
      (forall u, w :: a.Bal(u, w) == b.Bal(u, w)) && (forall w :: a.Sys(w) == b.Sys(w))
  {
    hide SettleRows, FundingSafe, Payment, Ledger.Bal, Ledger.Sys, SumMap, SumOver;
    var l, period := m.ledger, m.period + 1;
    PeriodIsNew(m);
    OnePerUserEither(ps, rows, rows');
    assert rows == [] <==> rows' == [] by {
      assert rows != [] ==> rows[0] in rows';
      assert rows' != [] ==> rows'[0] in rows;
    }
    if !(rows != [] && mark == 0) {
      var dues := Dues(l, ps, rows, mark, rate);
      RowsByUser(l, ps, rows, rows, mark, rate, period, ts);
      RowsByUser(l, ps, rows', rows, mark, rate, period, ts);
      SumInAnyOrder(rows, dues);
      SumInAnyOrder(rows', dues);
      forall u ensures WalletAfter(l, rows, dues, u) == WalletAfter(l, rows', dues, u) {
        WalletOfRow(l, rows, dues, u);
        WalletOfRow(l, rows', dues, u);
      }
    }
  }

  lemma OnePerUserEither(ps: PositionMap, rows: seq<PositionKey>, rows': seq<PositionKey>)
    requires Enumerates(rows, ps) && Enumerates(rows', ps) && OnePerUser(rows)
    ensures OnePerUser(rows')
  {
    forall i, j | 0 <= i < j < |rows'| ensures rows'[i].user != rows'[j].user {
      assert rows'[i] in rows && rows'[j] in rows;
      var x :| 0 <= x < |rows| && rows[x] == rows'[i];
      var y :| 0 <= y < |rows| && rows[y] == rows'[j];
      assert x != y;
    }
  }
}
