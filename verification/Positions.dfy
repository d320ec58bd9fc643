// Positions per user and symbol: averaged entry, proportional margin, and what
// a fill does to one.
module Positions {
  import opened Common
  import opened Sums
  import opened Rounding

  datatype PositionKey = PositionKey(user: UserId, symbol: SymbolId)

  datatype Position = Position(side: PositionSide, size: int, entryPrice: int, leverage: int, margin: int) {
    // The position as a signed quantity: long positive, short negative.
    function Signed(): int {
      if side.Short? then -size else size
    }
  }

  type PositionMap = map<PositionKey, Position>

  datatype PositionError = NoPosition | ExceedsSize

  function Flat(side: PositionSide, leverage: int): Position {
    Position(side, 0, 0, leverage, 0)
  }

  // A position increased by `qty` at `price`.
  function Increased(p: Position, side: PositionSide, qty: int, price: int, leverage: int): Position
    requires leverage != 0
  {
    var newSize := p.size + qty;
    Position(side, newSize,
             if newSize > 0 then Div(Mul(p.size, p.entryPrice) + Mul(qty, price), newSize) else p.entryPrice,
             leverage, p.margin + Div(Mul(qty, price), leverage))
  }

  function OpenOrIncrease(ps: PositionMap, k: PositionKey, side: PositionSide, qty: int, price: int,
                          leverage: int): PositionMap
    requires leverage != 0
  {
    ps[k := Increased(if k in ps then ps[k] else Flat(side, leverage), side, qty, price, leverage)]
  }

  // The profit of leaving `qty` of a position at a price.
  function PnlOf(p: Position, qty: int, exitPrice: int): int {
    if p.side.Short? then Mul(p.entryPrice - exitPrice, qty) else Mul(exitPrice - p.entryPrice, qty)
  }

  function ReduceOrClose(ps: PositionMap, k: PositionKey, qty: int): PositionMap
    requires k in ps && ps[k].size != 0
  {
    var p := ps[k];
    if p.size - qty == 0 then ps - {k}
    else ps[k := p.(size := p.size - qty, margin := p.margin - Div(Mul(p.margin, qty), p.size))]
  }

  function OpeningSide(side: Side): PositionSide {
    if side.Buy? then Long else Short
  }

  // Whether a fill increases what is there rather than reducing it.
  predicate Increases(ps: PositionMap, k: PositionKey, side: Side) {
    k !in ps || ps[k].side == OpeningSide(side) || ps[k].size == 0
  }

  // A fill increases a position of its own direction, and reduces, closes or
  // flips one of the other.
  function FillPosition(ps: PositionMap, k: PositionKey, side: Side, qty: int, price: int): PositionMap {
    if Increases(ps, k, side) then OpenOrIncrease(ps, k, OpeningSide(side), qty, price, SCALE)
    else
      var reduced := Min(qty, ps[k].size);
      var ps1 := ReduceOrClose(ps, k, reduced);
      if qty - reduced > 0 then OpenOrIncrease(ps1, k, OpeningSide(side), qty - reduced, price, SCALE) else ps1
  }

  // The profit a fill realizes.
  function FillPnl(ps: PositionMap, k: PositionKey, side: Side, qty: int, price: int): int {
    if Increases(ps, k, side) then 0 else PnlOf(ps[k], Min(qty, ps[k].size), price)
  }

  // ── Profit, entry and margin, but for rounding ────────────────────────

  // A long gains what the exit is above the entry, a short what it is below.
  function ExactPnl(p: Position, qty: int, exitPrice: int): int {
    var gain := if p.side.Short? then p.entryPrice - exitPrice else exitPrice - p.entryPrice;
    gain * qty
  }

  lemma PnlIsExact(p: Position, qty: int, exitPrice: int)
    ensures Near(PnlOf(p, qty, exitPrice) * SCALE, ExactPnl(p, qty, exitPrice), SCALE)
    ensures qty > 0 && PnlOf(p, qty, exitPrice) > 0 ==>
      if p.side.Short? then exitPrice < p.entryPrice else exitPrice > p.entryPrice
    ensures qty > 0 && PnlOf(p, qty, exitPrice) < 0 ==>
      if p.side.Short? then exitPrice > p.entryPrice else exitPrice < p.entryPrice
  {
    var gain := if p.side.Short? then p.entryPrice - exitPrice else exitPrice - p.entryPrice;
    MulError(gain, qty);
    if qty > 0 { MulSign(gain, qty); }
  }

  lemma MulSign(a: int, b: int)
    requires b > 0
    ensures Mul(a, b) > 0 ==> a > 0
    ensures Mul(a, b) < 0 ==> a < 0
  {
    if a >= 0 { assert a * b >= 0; } else { assert a * b < 0; }
  }

  // The new size is worth, at the new entry price, what the old size was at the
  // old one and the fill at its own.
  lemma EntryIsAverage(p: Position, side: PositionSide, qty: int, price: int, leverage: int)
    requires leverage != 0 && p.size + qty > 0
    ensures var q := Increased(p, side, qty, price, leverage);
      && q.size == p.size + qty && q.side == side
      && Near(q.size * q.entryPrice, p.size * p.entryPrice + qty * price, 2 * SCALE + q.size)
  {
    var q := Increased(p, side, qty, price, leverage);
    var held, added := Mul(p.size, p.entryPrice), Mul(qty, price);
    MulError(p.size, p.entryPrice);
    MulError(qty, price);
    DivError(held + added, q.size);
    assert q.entryPrice * q.size == q.size * q.entryPrice;
  }

  // So it lies between the old entry and the fill price, but for rounding.
  lemma EntryIsBetween(p: Position, side: PositionSide, qty: int, price: int, leverage: int)
    requires leverage != 0 && p.size >= 0 && qty >= 0 && p.size + qty > 0
    ensures var q := Increased(p, side, qty, price, leverage);
      && q.size * q.entryPrice < q.size * Max(p.entryPrice, price) + 2 * SCALE + q.size
      && q.size * q.entryPrice > q.size * Min(p.entryPrice, price) - 2 * SCALE - q.size
  {
    EntryIsAverage(p, side, qty, price, leverage);
    Weighted(p.size, qty, p.entryPrice, price);
  }

  lemma Weighted(a: nat, b: nat, x: int, y: int)
    ensures (a + b) * Min(x, y) <= a * x + b * y <= (a + b) * Max(x, y)
  {
    Ordered(a, Min(x, y), x);
    Ordered(b, Min(x, y), y);
    Ordered(a, x, Max(x, y));
    Ordered(b, y, Max(x, y));
    assert (a + b) * Min(x, y) == a * Min(x, y) + b * Min(x, y);
    assert (a + b) * Max(x, y) == a * Max(x, y) + b * Max(x, y);
  }

  lemma Ordered(a: nat, x: int, y: int)
    requires x <= y
    ensures a * x <= a * y
  {
    assert a * y == a * x + a * (y - x);
  }

  // Margin goes in as notional over leverage, and out as the share that leaves.
  lemma MarginMoves(p: Position, side: PositionSide, qty: int, price: int, leverage: int)
    requires leverage != 0
    ensures Near((Increased(p, side, qty, price, leverage).margin - p.margin) * leverage, qty * price,
        SCALE + Abs(leverage))
  {
    MulError(qty, price);
    DivError(Mul(qty, price), leverage);
  }

  // What remains of a reduced position: the same side and entry, and less margin
  // by the share that leaves.
  lemma MarginShare(ps: PositionMap, k: PositionKey, qty: int)
    requires k in ps && ps[k].size != 0
    ensures var p, ps' := ps[k], ReduceOrClose(ps, k, qty);
      && (k in ps' <==> qty != p.size)
      && (k in ps' ==>
            var q := ps'[k];
            && q.(size := p.size, margin := p.margin) == p && q.size == p.size - qty
            && Near((p.margin - q.margin) * p.size, p.margin * qty, SCALE + Abs(p.size)))
  {
    var p := ps[k];
    MulError(p.margin, qty);
    DivError(Mul(p.margin, qty), p.size);
  }

  class PositionManager {
    var positions: PositionMap

    constructor ()
      ensures positions == map[]
    {
      positions := map[];
    }

    function GetPosition(user: UserId, symbol: SymbolId): (r: Option<Position>)
      reads this
      ensures r.Some? <==> PositionKey(user, symbol) in positions
      ensures r.Some? ==> r.value == positions[PositionKey(user, symbol)]
    {
      if PositionKey(user, symbol) in positions then Some(positions[PositionKey(user, symbol)]) else None
    }

    // Open a position, or average into the one that is there. Dividing by a
    // zero leverage would abort.
    method OpenOrIncreasePosition(user: UserId, symbol: SymbolId, side: PositionSide, qty: int, price: int,
                                  leverage: int)
      returns (r: Position)
      requires leverage != 0
      modifies this
      ensures positions == OpenOrIncrease(old(positions), PositionKey(user, symbol), side, qty, price, leverage)
      ensures positions[PositionKey(user, symbol)] == r
      ensures var k := PositionKey(user, symbol);
        var p := if k in old(positions) then old(positions)[k] else Flat(side, leverage);
        && r.side == side && r.size == p.size + qty && r.leverage == leverage
        && (r.size > 0 ==> Near(r.size * r.entryPrice, p.size * p.entryPrice + qty * price, 2 * SCALE + r.size))
        && (r.size <= 0 ==> r.entryPrice == p.entryPrice)
        && Near((r.margin - p.margin) * leverage, qty * price, SCALE + Abs(leverage))
    {
      var k := PositionKey(user, symbol);
      if k !in positions {
        positions := positions[k := Flat(side, leverage)];
      }
      var p := positions[k];
      var oldNotional := Mul(p.size, p.entryPrice);
      var newNotional := Mul(qty, price);
      var newSize := p.size + qty;
      if newSize > 0 {
        p := p.(entryPrice := Div(oldNotional + newNotional, newSize));
      }
      p := p.(size := newSize, side := side, leverage := leverage);
      var addMargin := Div(Mul(qty, price), leverage);
      r := p.(margin := p.margin + addMargin);
      positions := positions[k := r];
      ghost var was := if k in old(positions) then old(positions)[k] else Flat(side, leverage);
      if r.size > 0 { EntryIsAverage(was, side, qty, price, leverage); }
      MarginMoves(was, side, qty, price, leverage);
    }

    // Reduce or close; returns the profit and what remains. Taking nothing from
    // a position of size zero would abort: its margin share divides by the size.
    method ReduceOrClosePosition(user: UserId, symbol: SymbolId, qty: int, exitPrice: int)
      returns (r: Result<(int, Option<Position>), PositionError>)
      requires PositionKey(user, symbol) in positions ==> positions[PositionKey(user, symbol)].size != 0 || qty > 0
      modifies this
      ensures var k := PositionKey(user, symbol); var before := old(positions);
        if k !in before then r == Err(NoPosition) && positions == before
        else if qty > before[k].size then r == Err(ExceedsSize) && positions == before
        else && positions == ReduceOrClose(before, k, qty)
             && r == Ok((PnlOf(before[k], qty, exitPrice), if k in positions then Some(positions[k]) else None))
             && Near(r.value.0 * SCALE, ExactPnl(before[k], qty, exitPrice), SCALE)
             && (k in positions <==> qty != before[k].size)
             && (k in positions ==>
                   var p, q := before[k], positions[k];
                   && q.(size := p.size, margin := p.margin) == p && q.size == p.size - qty
                   && Near((p.margin - q.margin) * p.size, p.margin * qty, SCALE + Abs(p.size)))
    {
      var k := PositionKey(user, symbol);
      if k !in positions { return Err(NoPosition); }
      var p := positions[k];
      if qty > p.size { return Err(ExceedsSize); }
      var realizedPnl := match p.side {
        case Long => Mul(exitPrice - p.entryPrice, qty)
        case Both => Mul(exitPrice - p.entryPrice, qty)
        case Short => Mul(p.entryPrice - exitPrice, qty)
      };
      PnlIsExact(p, qty, exitPrice);
      MarginShare(positions, k, qty);
      var marginReleased := Div(Mul(p.margin, qty), p.size);
      var newSize := p.size - qty;
      if newSize == 0 {
        positions := positions - {k};
        return Ok((realizedPnl, None));
      }
      positions := positions[k := p.(size := newSize, margin := p.margin - marginReleased)];
      return Ok((realizedPnl, Some(positions[k])));
    }
  }

  // ── Signed sizes ──────────────────────────────────────────────────────

  // What trading leaves in the map: real positions, long or short.
  ghost predicate Open(ps: PositionMap) {
    forall k :: k in ps ==> ps[k].size > 0 && !ps[k].side.Both?
  }

  function SignedAt(ps: PositionMap, k: PositionKey): int {
    if k in ps then ps[k].Signed() else 0
  }

  function SignedQty(side: Side, qty: int): int {
    if side.Buy? then qty else -qty
  }

  // However a fill is booked, as an increase, a reduction, an exact close or a
  // flip, the signed size moves by exactly the signed fill.
  lemma FillMovesSignedSize(ps: PositionMap, k: PositionKey, side: Side, qty: int, price: int, other: PositionKey)
    requires Open(ps) && qty > 0
    ensures Open(FillPosition(ps, k, side, qty, price))
    ensures SignedAt(FillPosition(ps, k, side, qty, price), other)
            == SignedAt(ps, other) + (if other == k then SignedQty(side, qty) else 0)
  {
  }

  // ── Open interest ─────────────────────────────────────────────────────

  ghost function SignedSizes(ps: PositionMap, symbol: SymbolId): map<PositionKey, int> {
    map k | k in ps && k.symbol == symbol :: ps[k].Signed()
  }

  // Net open interest in a symbol: the signed sizes of all users together.
  ghost function NetOpenInterest(ps: PositionMap, symbol: SymbolId): int {
    SumMap(SignedSizes(ps, symbol))
  }

  lemma FillMovesOpenInterest(ps: PositionMap, k: PositionKey, side: Side, qty: int, price: int, symbol: SymbolId)
    requires Open(ps) && qty > 0
    ensures NetOpenInterest(FillPosition(ps, k, side, qty, price), symbol)
            == NetOpenInterest(ps, symbol) + (if k.symbol == symbol then SignedQty(side, qty) else 0)
  {
    hide SumMap, FillPosition;
    var ps' := FillPosition(ps, k, side, qty, price);
    FillMovesSignedSize(ps, k, side, qty, price, k);
    FillTouchesOne(ps, k, side, qty, price);
    var s, s' := SignedSizes(ps, symbol), SignedSizes(ps', symbol);
    if k.symbol != symbol {
      assert s == s';
    } else {
      assert s - {k} == s' - {k};
      if k in s { SumMapRemove(s, k); } else { assert s - {k} == s; }
      if k in s' { SumMapRemove(s', k); } else { assert s' - {k} == s'; }
    }
  }

  lemma FillTouchesOne(ps: PositionMap, k: PositionKey, side: Side, qty: int, price: int)
    ensures var ps' := FillPosition(ps, k, side, qty, price);
      forall x :: x != k ==> (x in ps' <==> x in ps) && (x in ps ==> ps'[x] == ps[x])
  {
  }
}
