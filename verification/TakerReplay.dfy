// Replaying a taker's fills. Live, an order is matched and only then placed; on
// replay it is placed first and worn down by its fill events, each of which
// already carries the remainder that the whole match left.
module TakerReplay {
  import opened Common
  import opened Arrivals
  import opened Priority
  import opened OrderBooks
  import opened Matcher
  import opened MatchTheorems
  import opened EngineSpec

  function ReplayAll(st: EngineState, events: seq<Event>): Result<EngineState, ApplyError>
    decreases |events|
  {
    if events == [] then Ok(st)
    else
      match ApplyEvent(st, events[0])
      case Err(e) => Err(e)
      case Ok(st1) => ReplayAll(st1, events[1..])
  }

  lemma {:induction false} ReplayConcat(st: EngineState, a: seq<Event>, b: seq<Event>)
    ensures ReplayAll(st, a + b)
         == match ReplayAll(st, a) { case Err(e) => Err(e) case Ok(st1) => ReplayAll(st1, b) }
    decreases |a|
  {
    hide ApplyEvent;
    if a == [] {
      assert a + b == b;
    } else {
      assert (a + b)[1..] == a[1..] + b;
      match ApplyEvent(st, a[0])
      case Err(_) =>
      case Ok(st1) => ReplayConcat(st1, a[1..], b);
    }
  }

  lemma ReplayOne(st: EngineState, e: Event)
    ensures ReplayAll(st, [e]) == ApplyEvent(st, e)
  {
    hide ApplyEvent;
    assert [e][1..] == [];
  }

  // Every later leg of a taker fits in its final remainder, or none remains.
  predicate LegsFit(fills: seq<Fill>, left: int) {
    left == 0 || forall j :: 1 <= j < |fills| ==> fills[j].qty <= left
  }

  // ── Lists with the taker at the end ───────────────────────────────────

  lemma {:induction false} LookupConcat(a: seq<Order>, b: seq<Order>, id: OrderId)
    ensures Lookup(a + b, id) == if HasId(a, id) then Lookup(a, id) else Lookup(b, id)
  {
    if a == [] {
      assert a + b == b;
    } else {
      assert (a + b)[1..] == a[1..] + b;
      HasIdTail(a, id);
      LookupConcat(a[1..], b, id);
    }
  }

  lemma {:induction false} SetQtyConcat(a: seq<Order>, b: seq<Order>, id: OrderId, q: int)
    ensures SetQty(a + b, id, q) == SetQty(a, id, q) + SetQty(b, id, q)
  {
    if a == [] {
      assert a + b == b && SetQty(a, id, q) == [];
    } else {
      assert (a + b)[1..] == a[1..] + b;
      SetQtyConcat(a[1..], b, id, q);
    }
  }

  lemma ElsewhereUnchanged(arr: seq<Order>, o: Order, id: OrderId, q: int)
    requires o.orderId != id
    ensures Keep(arr + [o], NotId(id)) == Keep(arr, NotId(id)) + [o]
    ensures SetQty(arr + [o], id, q) == SetQty(arr, id, q) + [o]
  {
    KeepSnoc(arr, o, NotId(id));
    SetQtySnoc(arr, o, id, q);
  }

  lemma LastChanged(arr: seq<Order>, o: Order, q: int)
    requires !HasId(arr, o.orderId)
    ensures Keep(arr + [o], NotId(o.orderId)) == arr
    ensures SetQty(arr + [o], o.orderId, q) == arr + [o.(remaining := q)]
    ensures Lookup(arr + [o], o.orderId) == Some(o)
  {
    KeepSnoc(arr, o, NotId(o.orderId));
    SetQtySnoc(arr, o, o.orderId, q);
    AbsentUnchanged(arr, o.orderId, q);
    LookupConcat(arr, [o], o.orderId);
    assert arr + [] == arr;
  }

  // Where the taker stands during replay of its fills: whole before the first
  // leg, then at its final remainder, or gone.
  function TakerTail(o: Order, left: int, n: nat): seq<Order> {
    if n == 0 then [o] else if left == 0 then [] else [o.(remaining := left)]
  }

  // The maker's leg of one fill does to the maker what matching did.
  lemma MakerLeg(st: EngineState, arr: seq<Order>, tail: seq<Order>, maker: Order, qty: int)
    requires st.arr == arr + tail && Distinct(arr) && maker in arr && 0 < qty <= maker.remaining
    requires |tail| <= 1 && forall x :: x in tail ==> x.orderId != maker.orderId
    ensures ApplyFilled(st, maker.orderId, qty, maker.remaining - qty)
         == Ok(st.(arr := Consume(arr, maker.orderId, qty) + tail))
  {
    hide Distinct;
    LookupUnique(arr, maker);
    LookupConcat(arr, tail, maker.orderId);
    var q := maker.remaining - qty;
    if tail == [] {
      assert arr + [] == arr && Keep(arr, NotId(maker.orderId)) + [] == Keep(arr, NotId(maker.orderId));
      assert SetQty(arr, maker.orderId, q) + [] == SetQty(arr, maker.orderId, q);
    } else {
      assert tail == [tail[0]] && tail[0] in tail;
      ElsewhereUnchanged(arr, tail[0], maker.orderId, q);
    }
  }

  // The taker's leg: the first carries its final state, later ones repeat it.
  lemma TakerLeg(st: EngineState, arr: seq<Order>, o: Order, left: int, n: nat, qty: int)
    requires st.arr == arr + TakerTail(o, left, n) && !HasId(arr, o.orderId) && left >= 0
    requires !HasId(st.stops, o.orderId) && o.orderId in st.seen
    requires n == 0 ==> qty <= o.remaining
    ensures var r := ApplyFilled(st, o.orderId, qty, left);
      if n == 0 || left == 0 || qty <= left then r == Ok(st.(arr := arr + TakerTail(o, left, n + 1)))
      else r.Err?
  {
    assert IndexOf(st.stops, o.orderId) == |st.stops|;
    if n == 0 {
      LastChanged(arr, o, left);
      assert arr + [] == arr;
    } else if left == 0 {
      assert arr + [] == arr;
    } else {
      LastChanged(arr, o.(remaining := left), left);
    }
  }

  // ── Replaying the fills of one taker ──────────────────────────────────

  ghost predicate TakerOf(fills: seq<Fill>, o: Order) {
    forall k :: 0 <= k < |fills| ==> fills[k].takerId == o.orderId
  }

  // The logged remainder of each maker is what its own fill left of it.
  ghost predicate MakersLogged(after: seq<Order>, arr: seq<Order>, fills: seq<Fill>) {
    forall k, m :: 0 <= k < |fills| && m in arr && m.orderId == fills[k].makerId ==>
      Left(Lookup(after, fills[k].makerId)) == m.remaining - fills[k].qty
  }

  lemma {:induction false} ReplayFills(st: EngineState, arr: seq<Order>, o: Order, fills: seq<Fill>,
                                       after: seq<Order>, symbol: SymbolId, ts: Micros, left: int)
    requires st.arr == arr + [o] && Fillable(arr, fills) && TakerOf(fills, o)
    requires !HasId(arr, o.orderId) && !HasId(st.stops, o.orderId) && o.orderId in st.seen
    requires MakersLogged(after, arr, fills) && left >= 0 && (fills != [] ==> fills[0].qty <= o.remaining)
    ensures var r := ReplayAll(st, FillEvents(after, fills, symbol, ts, left));
      if LegsFit(fills, left)
      then r == Ok(st.(arr := ApplyFills(arr, fills) + TakerTail(o, left, |fills|)))
      else r.Err?
  {
    hide ApplyEvent, Fillable, Distinct, LegsFit, MakersLogged, TakerOf, ComesFrom, Mentions, HasId, Consume,
         ApplyFilled;
    if fills == [] {
      NoLegs(left);
    } else {
      var n := |fills| - 1;
      var init, f := fills[..n], fills[n];
      InitOfFills(arr, o, fills, after);
      ReplayFills(st, arr, o, init, after, symbol, ts, left);
      var maker := NextTrade(arr, o, fills, after);
      assert init + [f] == fills;
      LegsFitSnoc(init, f, left);
      var trade := TradeEvents(f, symbol, ts, maker.remaining - f.qty, left);
      ReplayConcat(st, FillEvents(after, init, symbol, ts, left), trade);
      hide ReplayAll;
      if LegsFit(init, left) {
        var mid := ApplyFills(arr, init);
        NotSameId(mid, maker, o.orderId);
        ReplayTrade(st.(arr := mid + TakerTail(o, left, n)), mid, TakerTail(o, left, n), maker, f, left, symbol, ts);
        ConsumeIds(mid, f.makerId, f.qty, o.orderId);
        var next := Consume(mid, f.makerId, f.qty);
        TakerLeg(st.(arr := next + TakerTail(o, left, n)), next, o, left, n, f.qty);
      }
    }
  }

  lemma NoLegs(left: int)
    ensures LegsFit([], left)
  {
  }

  lemma InitOfFills(arr: seq<Order>, o: Order, fills: seq<Fill>, after: seq<Order>)
    requires Fillable(arr, fills) && TakerOf(fills, o) && MakersLogged(after, arr, fills) && fills != []
    ensures var init := fills[..|fills| - 1];
      && Fillable(arr, init) && TakerOf(init, o) && MakersLogged(after, arr, init)
      && fills[|fills| - 1].takerId == o.orderId && (init != [] ==> init[0] == fills[0])
  {
    hide Distinct;
    FillableInit(arr, fills);
    var init := fills[..|fills| - 1];
    assert forall k :: 0 <= k < |init| ==> init[k] == fills[k];
  }

  // The maker of the last fill, as the fills before it leave it.
  lemma NextTrade(arr: seq<Order>, o: Order, fills: seq<Fill>, after: seq<Order>) returns (maker: Order)
    requires Fillable(arr, fills) && MakersLogged(after, arr, fills) && fills != [] && !HasId(arr, o.orderId)
    ensures var mid, f := ApplyFills(arr, fills[..|fills| - 1]), fills[|fills| - 1];
      && Distinct(mid) && maker in mid && !HasId(mid, o.orderId)
      && maker.orderId == f.makerId && 0 < f.qty <= maker.remaining
      && Left(Lookup(after, f.makerId)) == maker.remaining - f.qty
  {
    hide Distinct, Fillable, HasId, ComesFrom, Mentions, ApplyFills;
    FillableInit(arr, fills);
    FillsAreLocal(arr, fills[..|fills| - 1]);
    maker := LastMaker(arr, fills);
    ApplyFillsIds(arr, fills[..|fills| - 1], o.orderId);
  }

  lemma LegsFitSnoc(init: seq<Fill>, f: Fill, left: int)
    ensures LegsFit(init + [f], left) <==>
      LegsFit(init, left) && (init == [] || left == 0 || f.qty <= left)
  {
    if LegsFit(init + [f], left) && left != 0 {
      forall j | 1 <= j < |init| ensures init[j].qty <= left {
        assert (init + [f])[j] == init[j];
      }
      assert (init + [f])[|init|] == f;
    }
  }

  // The three events of one trade: the maker's leg, then the taker's.
  lemma ReplayTrade(st: EngineState, arr: seq<Order>, tail: seq<Order>, maker: Order, f: Fill, left: int,
                    symbol: SymbolId, ts: Micros)
    requires st.arr == arr + tail && Distinct(arr) && maker in arr
    requires |tail| <= 1 && forall x :: x in tail ==> x.orderId != maker.orderId
    requires f.makerId == maker.orderId && 0 < f.qty <= maker.remaining
    ensures ReplayAll(st, TradeEvents(f, symbol, ts, maker.remaining - f.qty, left))
         == ApplyFilled(st.(arr := Consume(arr, f.makerId, f.qty) + tail), f.takerId, f.qty, left)
  {
    hide Distinct, Consume, ApplyFilled;
    var es := TradeEvents(f, symbol, ts, maker.remaining - f.qty, left);
    assert es == [es[0]] + ([es[1]] + [es[2]]);
    MakerLeg(st, arr, tail, maker, f.qty);
    var st1 := st.(arr := Consume(arr, f.makerId, f.qty) + tail);
    ReplayOne(st, es[0]);
    ReplayOne(st1, es[1]);
    ReplayConcat(st, [es[0]], [es[1]] + [es[2]]);
    ReplayConcat(st1, [es[1]], [es[2]]);
    var leg := ApplyFilled(st1, f.takerId, f.qty, left);
    if leg.Ok? {
      ReplayOne(leg.value, es[2]);
    }
  }

  lemma NotSameId(arr: seq<Order>, maker: Order, id: OrderId)
    requires maker in arr && !HasId(arr, id)
    ensures maker.orderId != id
  {
    var k :| 0 <= k < |arr| && arr[k] == maker;
  }

  // In the final book every maker is reduced by exactly its own fill.
  lemma {:induction false} FinalMakers(arr: seq<Order>, fills: seq<Fill>)
    requires Fillable(arr, fills)
    ensures MakersLogged(ApplyFills(arr, fills), arr, fills)
  {
    if fills != [] {
      var n := |fills| - 1;
      var init, f := fills[..n], fills[n];
      FillableInit(arr, fills);
      FinalMakers(arr, init);
      FillsAreLocal(arr, init);
      var maker := LastMaker(arr, fills);
      var mid := ApplyFills(arr, init);
      var end := ApplyFills(arr, fills);
      FillableDistinct(arr, fills);
      forall k, m | 0 <= k < |fills| && m in arr && m.orderId == fills[k].makerId
        ensures Left(Lookup(end, fills[k].makerId)) == m.remaining - fills[k].qty
      {
        if k == n {
          SameIdSameOrder(arr, m, maker);
          ConsumedLeft(mid, maker, f.qty);
        } else {
          assert fills[k] == init[k] && fills[k].makerId != f.makerId;
          OtherLeft(mid, maker, f.qty, fills[k].makerId);
        }
      }
    }
  }

  lemma ConsumedLeft(arr: seq<Order>, o: Order, qty: int)
    requires Distinct(arr) && o in arr
    ensures Left(Lookup(Consume(arr, o.orderId, qty), o.orderId)) == o.remaining - qty
  {
    hide Distinct;
    LookupUnique(arr, o);
    ConsumeIsLocal(arr, o, qty);
    if o.remaining != qty {
      LookupUnique(Consume(arr, o.orderId, qty), Less(o, qty));
    } else {
      GoneId(arr, o.orderId);
    }
  }

  lemma OtherLeft(arr: seq<Order>, o: Order, qty: int, id: OrderId)
    requires Distinct(arr) && o in arr && id != o.orderId
    ensures Left(Lookup(Consume(arr, o.orderId, qty), id)) == Left(Lookup(arr, id))
  {
    hide Distinct;
    ConsumeIsLocal(arr, o, qty);
    if HasId(arr, id) {
      LookupUnique(Consume(arr, o.orderId, qty), Lookup(arr, id).value);
    } else {
      ConsumeIds(arr, o.orderId, qty, id);
    }
  }

  // What MatchTheorems says of a plain taker's fills, in the form replay needs.
  lemma MatchAsFills(arr: seq<Order>, o: Order)
    requires Distinct(arr) && AllPositive(arr) && o.remaining > 0 && !Match(arr, o).rejected
    ensures var m := Match(arr, o);
      && Fillable(arr, m.fills) && m.arr == ApplyFills(arr, m.fills) && TakerOf(m.fills, o)
      && m.taker == o.(remaining := m.taker.remaining) && 0 <= m.taker.remaining
      && (m.fills != [] ==> m.fills[0].qty <= o.remaining)
      && (m.fills == [] ==> m.taker.remaining == o.remaining)
  {
    var m := Match(arr, o);
    if o.tif.PostOnly? {
      NoneFillable(arr);
    } else {
      MatchWalks(arr, o);
      WalkFillable(arr, o);
      QueuePositive(arr, o.side.Opposite());
      WalkShape(Queue(arr, o.side.Opposite()), o);
      hide Match, Distinct, AllPositive, Queue, Sorted, Fillable, ApplyFills, Drains;
      forall k | 0 <= k < |m.fills| ensures m.fills[k].takerId == o.orderId {
        assert Fits(m.fills[k], Queue(arr, o.side.Opposite())[k], o);
      }
      FirstFillFits(Queue(arr, o.side.Opposite()), o);
    }
  }

  lemma NoneFillable(arr: seq<Order>)
    requires Distinct(arr)
    ensures Fillable(arr, [])
  {
  }

  lemma FirstFillFits(makers: seq<Order>, t: Order)
    ensures Walk(makers, t) != [] ==> Walk(makers, t)[0].qty <= t.remaining
  {
  }
}
