// What a trader makes: profit realized, plus what the open position would bring
// at any price, is what his fills were worth at that price.
module Profit {
  import opened Common
  import opened Rounding
  import opened Positions
  import opened LedgerSpec
  import opened Journal
  import opened PostTradeSpec
  import opened PostTradeReplay

  // What an open position would bring if it were left at a price.
  function Paper(ps: PositionMap, k: PositionKey, price: int): int {
    if k in ps then ps[k].Signed() * (price - ps[k].entryPrice) else 0
  }

  lemma PaperIsExact(ps: PositionMap, k: PositionKey, qty: int, price: int)
    requires k in ps
    ensures Paper(ps, k, price) == ExactPnl(ps[k], ps[k].size, price)
  {
    var p := ps[k];
    assert -p.size * (price - p.entryPrice) == (p.entryPrice - price) * p.size;
  }

  // ── One fill ──────────────────────────────────────────────────────────

  // An opening or increasing fill realizes nothing; the position is then worth
  // what it was and what the fill is.
  lemma IncreaseKeepsValue(ps: PositionMap, k: PositionKey, side: Side, qty: int, price: int, at: int)
    requires Open(ps) && qty > 0 && Increases(ps, k, side)
    ensures var ps' := OpenOrIncrease(ps, k, OpeningSide(side), qty, price, SCALE);
      && k in ps'
      && Near(Paper(ps', k, at), Paper(ps, k, at) + SignedQty(side, qty) * (at - price), 2 * SCALE + ps'[k].size)
  {
    var ps' := OpenOrIncrease(ps, k, OpeningSide(side), qty, price, SCALE);
    var p := if k in ps then ps[k] else Flat(OpeningSide(side), SCALE);
    var q := ps'[k];
    EntryIsAverage(p, OpeningSide(side), qty, price, SCALE);
    ValueMoves(p.size, p.entryPrice, qty, price, q.entryPrice, at);
    if side.Sell? {
      Negated(q.size, at - q.entryPrice);
      Negated(p.size, at - p.entryPrice);
      Negated(qty, at - price);
    }
  }

  lemma ValueMoves(size: int, entry: int, qty: int, price: int, newEntry: int, at: int)
    ensures (size + qty) * (at - newEntry) - size * (at - entry) - qty * (at - price)
         == size * entry + qty * price - (size + qty) * newEntry
  {
  }

  lemma Negated(a: int, b: int)
    ensures (-a) * b == -(a * b)
  {
  }

  // A reducing or closing fill realizes what its part of the position gained.
  lemma ReduceKeepsValue(ps: PositionMap, k: PositionKey, side: Side, qty: int, price: int, at: int)
    requires Open(ps) && k in ps && !Increases(ps, k, side) && 0 < qty <= ps[k].size
    ensures var ps' := ReduceOrClose(ps, k, qty);
      Near(PnlOf(ps[k], qty, price) * SCALE + Paper(ps', k, at),
           Paper(ps, k, at) + SignedQty(side, qty) * (at - price), SCALE)
  {
    var p := ps[k];
    PnlIsExact(p, qty, price);
    ReducedPaper(ps, k, qty, at);
    GainMoves(p.size, p.entryPrice, qty, price, at);
    Negated(p.size, at - p.entryPrice);
    Negated(p.size - qty, at - p.entryPrice);
    Negated(qty, at - price);
    hide Paper, PnlOf, ReduceOrClose;
  }

  // What is left of a reduced position, the entry price being the same.
  lemma ReducedPaper(ps: PositionMap, k: PositionKey, qty: int, at: int)
    requires k in ps && ps[k].size != 0
    ensures var p := ps[k];
      && Paper(ps, k, at) == (if p.side.Short? then -p.size else p.size) * (at - p.entryPrice)
      && Paper(ReduceOrClose(ps, k, qty), k, at)
         == (if p.side.Short? then -(p.size - qty) else p.size - qty) * (at - p.entryPrice)
  {
    if ps[k].size == qty { assert 0 * (at - ps[k].entryPrice) == 0; }
  }

  lemma GainMoves(size: int, entry: int, qty: int, price: int, at: int)
    ensures (price - entry) * qty + (size - qty) * (at - entry) == size * (at - entry) - qty * (at - price)
    ensures (entry - price) * qty - (size - qty) * (at - entry) == -(size * (at - entry)) + qty * (at - price)
  {
  }

  // However a fill is booked: what it realizes, and what the position is worth
  // at any price, move together by what the fill is worth there.
  lemma FillKeepsValue(ps: PositionMap, k: PositionKey, side: Side, qty: int, price: int, at: int)
    requires Open(ps) && qty > 0
    ensures var ps' := FillPosition(ps, k, side, qty, price);
      Near(FillPnl(ps, k, side, qty, price) * SCALE + Paper(ps', k, at),
           Paper(ps, k, at) + SignedQty(side, qty) * (at - price), 3 * SCALE + Abs(SignedAt(ps', k)))
  {
    if Increases(ps, k, side) {
      IncreaseKeepsValue(ps, k, side, qty, price, at);
    } else {
      var reduced := Min(qty, ps[k].size);
      var ps1 := ReduceOrClose(ps, k, reduced);
      ReduceKeepsValue(ps, k, side, reduced, price, at);
      if qty > reduced {
        assert k !in ps1;
        IncreaseKeepsValue(ps1, k, side, qty - reduced, price, at);
        SplitsQty(side, reduced, qty, at - price);
      }
    }
  }

  lemma SplitsQty(side: Side, part: int, qty: int, x: int)
    ensures SignedQty(side, part) * x + SignedQty(side, qty - part) * x == SignedQty(side, qty) * x
  {
  }

  // The profit of a fill: none when it opens or adds; else what the part that
  // leaves gained from entry to the fill price, to a raw unit. So a long gains
  // only above its entry, a short only below.
  lemma FillPnlIsExact(ps: PositionMap, k: PositionKey, side: Side, qty: int, price: int)
    requires Open(ps) && qty > 0
    ensures var r := FillPnl(ps, k, side, qty, price);
      && (Increases(ps, k, side) ==> r == 0)
      && (!Increases(ps, k, side) ==>
            var p := ps[k];
            && (side.Sell? <==> p.side.Long?)
            && Near(r * SCALE, ExactPnl(p, Min(qty, p.size), price), SCALE)
            && (r > 0 ==> if p.side.Long? then price > p.entryPrice else price < p.entryPrice)
            && (r < 0 ==> if p.side.Long? then price < p.entryPrice else price > p.entryPrice))
  {
    if !Increases(ps, k, side) { PnlIsExact(ps[k], Min(qty, ps[k].size), price); }
  }

  // ── A list of fills ───────────────────────────────────────────────────

  predicate FillOn(e: Event, k: PositionKey) {
    e.OrderFilled? && e.userId == k.user && e.symbol == k.symbol
  }

  // What the fills of one position realize along the way.
  function Realized(ps: PositionMap, events: seq<Event>, k: PositionKey): int {
    if events == [] then 0
    else
      var n := |events| - 1;
      Realized(ps, events[..n], k)
      + (if FillOn(events[n], k)
         then FillPnl(Projected(ps, events[..n]), k, events[n].side, events[n].fillQty, events[n].fillPrice) else 0)
  }

  // What the fills of one position are worth at a price.
  function WorthAt(events: seq<Event>, k: PositionKey, at: int): int {
    if events == [] then 0
    else
      var e := events[|events| - 1];
      WorthAt(events[..|events| - 1], k, at)
      + (if FillOn(e, k) then SignedQty(e.side, e.fillQty) * (at - e.fillPrice) else 0)
  }

  // The rounding of each fill: three units of value, and a unit of entry price
  // over the size it leaves.
  function Slack(ps: PositionMap, events: seq<Event>, k: PositionKey): nat {
    if events == [] then 0
    else
      var n := |events| - 1;
      Slack(ps, events[..n], k)
      + (if FillOn(events[n], k) then 3 * SCALE + Abs(SignedAt(Projected(ps, events), k)) else 0)
  }

  // Over any list of fills, of any positions, and at any price: profit realized
  // and paper profit are together what the fills are worth, but for rounding.
  lemma {:induction false} ProfitIsWorth(ps: PositionMap, events: seq<Event>, k: PositionKey, at: int)
    requires Open(ps) && forall e :: e in events && e.OrderFilled? ==> e.fillQty > 0
    ensures Open(Projected(ps, events))
    ensures Abs(Realized(ps, events, k) * SCALE + Paper(Projected(ps, events), k, at)
                - Paper(ps, k, at) - WorthAt(events, k, at)) <= Slack(ps, events, k)
  {
    hide FillPosition, FillPnl, Open, Paper, SignedAt, SignedQty;
    if events != [] {
      var n := |events| - 1;
      var e := events[n];
      var before, after := Projected(ps, events[..n]), Projected(ps, events);
      assert e in events;
      ProfitIsWorth(ps, events[..n], k, at);
      if e.OrderFilled? {
        var mine := PositionKey(e.userId, e.symbol);
        FillMovesSignedSize(before, mine, e.side, e.fillQty, e.fillPrice, mine);
        if FillOn(e, k) {
          assert mine == k;
          FillKeepsValue(before, k, e.side, e.fillQty, e.fillPrice, at);
        } else {
          FillTouchesOne(before, mine, e.side, e.fillQty, e.fillPrice);
          PaperElsewhere(before, after, k, at);
        }
      }
    }
  }

  lemma PaperElsewhere(ps: PositionMap, ps': PositionMap, k: PositionKey, at: int)
    requires (k in ps' <==> k in ps) && (k in ps ==> ps'[k] == ps[k])
    ensures Paper(ps', k, at) == Paper(ps, k, at)
  {
  }

  // From no position to no position: profit is what was sold for less what was
  // bought for.
  lemma RoundTripProfit(events: seq<Event>, k: PositionKey)
    requires forall e :: e in events && e.OrderFilled? ==> e.fillQty > 0
    requires k !in Projected(map[], events)
    ensures Abs(Realized(map[], events, k) * SCALE - WorthAt(events, k, 0)) <= Slack(map[], events, k)
  {
    ProfitIsWorth(map[], events, k, 0);
  }

  // ── Into the wallet ───────────────────────────────────────────────────

  // A settled amount reaches the user's funding wallet whole if it is a credit,
  // and up to what is there if it is a debit; the funding pool takes the other
  // side, and nobody else anything.
  lemma SettledIntoWallet(l: Ledger, u: UserId, signed: int, key: Key, ts: Micros)
    requires key !in l.keys && signed != 0 && l.Bal(u, Funding).available >= 0
    ensures var (l', moved) := Settle(l, u, signed, key, ts);
      && moved == Max(signed, -l.Bal(u, Funding).available)
      && l'.Bal(u, Funding) == l.Bal(u, Funding).(available := l.Bal(u, Funding).available + moved)
      && l'.Sys(Funding) == l.Sys(Funding) - moved
      && (forall v, w :: (v != u || w != Funding) ==> l'.Bal(v, w) == l.Bal(v, w))
      && (forall w :: w != Funding ==> l'.Sys(w) == l.Sys(w))
  {
  }

  // The profit of a fill is credited, its loss debited as far as it goes, and
  // what moved is what the log records.
  lemma PnlIntoWallet(m: Money, rep: Money, u: UserId, symbol: SymbolId, pnl: int, ts: Micros)
    requires MoneyMatches(m, rep)
    ensures var (m', facts) := SettlePnl(m, u, symbol, pnl, ts);
      var b := m.ledger.Bal(u, Funding);
      var moved := Max(pnl, -b.available);
      && m'.ledger.Bal(u, Funding) == b.(available := b.available + moved)
      && m'.ledger.Sys(Funding) == m.ledger.Sys(Funding) - moved
      && (forall v, w :: (v != u || w != Funding) ==> m'.ledger.Bal(v, w) == m.ledger.Bal(v, w))
      && facts == if moved == 0 then [] else [RealizedPnl(u, symbol, moved, ts)]
  {
    hide Settle, SameMoney, KeysWithin, Ledger.Bal, Ledger.Sys;
    SafeAt(m.ledger, u);
    NextKeyIsNew(m, u, symbol);
    if pnl != 0 { SettledIntoWallet(m.ledger, u, pnl, PnlKey(m.pnlSeq + 1, u, symbol), ts); }
  }

  lemma NextKeyIsNew(m: Money, u: UserId, symbol: SymbolId)
    requires KeysNumbered(m)
    ensures PnlKey(m.pnlSeq + 1, u, symbol) !in m.ledger.keys
  {
    assert !Numbered(PnlKey(m.pnlSeq + 1, u, symbol), m.pnlSeq, m.period);
  }

  // An admin credit under a new key is credited whole, and recorded.
  lemma CreditIntoWallet(m: Money, u: UserId, amount: int, key: Key, ts: Micros)
    requires amount > 0
    ensures var (m', facts) := Credit(m, u, amount, key, ts);
      var b := m.ledger.Bal(u, Funding);
      && m'.ledger.Bal(u, Funding) == (if key in m.ledger.keys then b else b.(available := b.available + amount))
      && (forall v, w :: (v != u || w != Funding) ==> m'.ledger.Bal(v, w) == m.ledger.Bal(v, w))
      && facts == [AdminCredited(u, amount, key, ts)]
  {
  }
}
