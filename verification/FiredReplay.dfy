// Stop orders on replay. Nothing is triggered again: a fired stop stays among
// the stop orders until its first fill event, which promotes it to what the
// live engine made of it; a swept one goes with its cancel event.
module FiredReplay {
  import opened Common
  import opened Arrivals
  import opened OrderBooks
  import opened Matcher
  import opened MatchTheorems
  import opened Reach
  import opened EngineSpec
  import opened Triggers
  import opened EngineInvariants
  import opened TakerReplay

  // ── Lists with the same orders ────────────────────────────────────────

  lemma DistinctOnce(a: seq<Order>, x: Order)
    requires Distinct(a)
    ensures multiset(a)[x] <= 1
  {
    if x in a {
      var k :| 0 <= k < |a| && a[k] == x;
      assert a == a[..k] + [x] + a[k + 1..];
      assert x !in a[..k] && x !in a[k + 1..];
    }
  }

  lemma HeadOff(a: seq<Order>)
    requires a != []
    ensures multiset(a) == multiset{a[0]} + multiset(a[1..])
  {
    assert a == [a[0]] + a[1..];
  }

  lemma CutOut(a: seq<Order>, k: nat)
    requires k < |a|
    ensures multiset(a) == multiset{a[k]} + multiset(a[..k] + a[k + 1..])
  {
    assert a == a[..k] + [a[k]] + a[k + 1..];
  }

  lemma LessOne(o: Order, a: multiset<Order>, b: multiset<Order>)
    requires multiset{o} + a <= multiset{o} + b
    ensures a <= b
  {
    assert (multiset{o} + a) - multiset{o} == a && (multiset{o} + b) - multiset{o} == b;
  }

  lemma SameWithout(o: Order, a: multiset<Order>, b: multiset<Order>)
    requires a + multiset{o} == b + multiset{o}
    ensures a == b
  {
    assert (a + multiset{o}) - multiset{o} == a && (b + multiset{o}) - multiset{o} == b;
  }

  lemma StillThere(d: multiset<Order>, gone: multiset<Order>, o: Order, all: multiset<Order>)
    requires d + gone == all && gone + multiset{o} <= all
    ensures o in d
  {
    assert (gone + multiset{o})[o] == gone[o] + 1;
    assert (d + gone)[o] == d[o] + gone[o];
  }

  lemma DistinctPermuted(a: seq<Order>, b: seq<Order>)
    requires multiset(a) == multiset(b) && Distinct(a)
    ensures Distinct(b)
  {
    forall i, j | 0 <= i < j < |b| ensures b[i].orderId != b[j].orderId {
      if b[i].orderId == b[j].orderId {
        var x := b[i];
        assert b[i] in multiset(b) && b[j] in multiset(b);
        SameIdSameOrder(a, b[i], b[j]);
        assert b == b[..i] + [x] + b[i + 1..j] + [x] + b[j + 1..];
        DistinctOnce(a, x);
      }
    }
  }

  lemma MembersPermuted(a: seq<Order>, b: seq<Order>)
    requires multiset(a) == multiset(b)
    ensures forall o :: o in a <==> o in b
  {
    forall o ensures o in a <==> o in b {
      assert o in multiset(a) <==> o in multiset(b);
    }
  }

  lemma IdsPermuted(a: seq<Order>, b: seq<Order>, id: OrderId)
    requires multiset(a) == multiset(b)
    ensures HasId(a, id) <==> HasId(b, id)
  {
    MembersPermuted(a, b);
    if !HasId(a, id) { NotInPart(a, b, id); }
    if !HasId(b, id) { NotInPart(b, a, id); }
  }

  lemma ApartPermuted(a: seq<Order>, b: seq<Order>, arr: seq<Order>)
    requires multiset(a) == multiset(b) && Apart(a, arr)
    ensures Apart(b, arr)
  {
    DistinctPermuted(a, b);
    MembersPermuted(a, b);
  }

  // Moving every peak treats the same orders the same way.
  lemma {:induction false} PeakedPermuted(a: seq<Order>, b: seq<Order>, mark: int)
    requires multiset(a) == multiset(b)
    ensures multiset(PeakedAll(a, mark)) == multiset(PeakedAll(b, mark))
    decreases |a|
  {
    if a == [] {
      assert |multiset(b)| == 0;
    } else {
      var o := a[0];
      assert o in multiset(b);
      var k :| 0 <= k < |b| && b[k] == o;
      HeadOff(a);
      CutOut(b, k);
      LessOne(o, multiset(a[1..]), multiset(b[..k] + b[k + 1..]));
      LessOne(o, multiset(b[..k] + b[k + 1..]), multiset(a[1..]));
      PeakedPermuted(a[1..], b[..k] + b[k + 1..], mark);
      HeadOff(PeakedAll(a, mark));
      assert PeakedAll(a, mark)[1..] == PeakedAll(a[1..], mark);
      PeakedCut(b, k, mark);
    }
  }

  lemma PeakedCut(b: seq<Order>, k: nat, mark: int)
    requires k < |b|
    ensures multiset(PeakedAll(b, mark))
         == multiset{Peaked(b[k], mark)} + multiset(PeakedAll(b[..k] + b[k + 1..], mark))
  {
    var p := PeakedAll(b, mark);
    CutOut(p, k);
    assert p[..k] + p[k + 1..] == PeakedAll(b[..k] + b[k + 1..], mark);
  }

  // ── Taking stop orders out one by one ─────────────────────────────────

  lemma FoundAt(stops: seq<Order>, o: Order)
    requires Distinct(stops) && o in stops
    ensures IndexOf(stops, o.orderId) < |stops| && stops[IndexOf(stops, o.orderId)] == o
  {
    var k :| 0 <= k < |stops| && stops[k] == o;
    assert !(k < IndexOf(stops, o.orderId));
  }

  // The stop orders without one of them, the last moved into its place.
  function Drop(stops: seq<Order>, id: OrderId): seq<Order> {
    var i := IndexOf(stops, id);
    if i < |stops| then SwapRemove(stops, i) else stops
  }

  function DropAll(stops: seq<Order>, taken: seq<Order>): seq<Order> {
    if taken == [] then stops
    else Drop(DropAll(stops, taken[..|taken| - 1]), taken[|taken| - 1].orderId)
  }

  lemma DropIs(stops: seq<Order>, o: Order)
    requires Distinct(stops) && o in stops
    ensures multiset(Drop(stops, o.orderId)) + multiset{o} == multiset(stops)
    ensures Distinct(Drop(stops, o.orderId))
  {
    FoundAt(stops, o);
    SwapRemoveIs(stops, IndexOf(stops, o.orderId));
    SwapRemoveDistinct(stops, IndexOf(stops, o.orderId));
  }

  lemma LastOf(taken: seq<Order>)
    requires taken != []
    ensures multiset(taken) == multiset(taken[..|taken| - 1]) + multiset{taken[|taken| - 1]}
  {
    assert taken == taken[..|taken| - 1] + [taken[|taken| - 1]];
  }

  lemma {:induction false} DropAllIs(stops: seq<Order>, taken: seq<Order>)
    requires Distinct(stops) && multiset(taken) <= multiset(stops)
    ensures multiset(DropAll(stops, taken)) + multiset(taken) == multiset(stops)
    ensures Distinct(DropAll(stops, taken))
  {
    hide Distinct, Drop;
    if taken != [] {
      var init, o := taken[..|taken| - 1], taken[|taken| - 1];
      LastOf(taken);
      DropAllIs(stops, init);
      StillThere(multiset(DropAll(stops, init)), multiset(init), o, multiset(stops));
      DropIs(DropAll(stops, init), o);
    }
  }

  lemma {:induction false} DropAllCons(stops: seq<Order>, x: Order, taken: seq<Order>)
    ensures DropAll(stops, [x] + taken) == DropAll(Drop(stops, x.orderId), taken)
  {
    hide Drop;
    if taken == [] {
      assert [x] + taken == [x] && [x][..0] == [];
    } else {
      var n := |taken|;
      assert ([x] + taken)[..n] == [x] + taken[..n - 1];
      DropAllCons(stops, x, taken[..n - 1]);
    }
  }

  // Dropping what a sweep takes, in the order it takes it, leaves what it keeps.
  lemma {:induction false} SweepDrops(stops: seq<Order>, i: nat, test: StopTest)
    requires i <= |stops| && Distinct(stops)
    ensures DropAll(stops, Sweep(stops, i, test).1) == Sweep(stops, i, test).0
    decreases |stops| - i
  {
    if i < |stops| {
      if test.Picks(stops[i]) {
        var (kept, taken) := Sweep(SwapRemove(stops, i), i, test);
        SwapRemoveDistinct(stops, i);
        SweepDrops(SwapRemove(stops, i), i, test);
        FoundAt(stops, stops[i]);
        assert Drop(stops, stops[i].orderId) == SwapRemove(stops, i);
        DropAllCons(stops, stops[i], taken);
      } else {
        SweepDrops(stops, i + 1, test);
      }
    }
  }

  // ── One fired stop ────────────────────────────────────────────────────

  // What a promoted order leaves on the book: its remainder, if it may rest.
  function PromotedTail(o: Order, left: int): seq<Order> {
    if left != 0 && Promote(o).orderType.IsLimit() then [Promote(o).(remaining := left)] else []
  }

  // Replay after n of its fills: still a stop order before the first.
  function AfterLegs(st: EngineState, arr: seq<Order>, o: Order, left: int, n: nat): EngineState {
    if n == 0 then st.(arr := arr)
    else st.(arr := arr + PromotedTail(o, left), stops := Drop(st.stops, o.orderId))
  }

  // Replay takes the later legs of a fired stop: one that became a market order
  // is gone after its first, a limit order's must fit its final remainder.
  predicate LegsPass(o: Order, fills: seq<Fill>, left: int) {
    Promote(o).orderType.IsLimit() ==> LegsFit(fills, left)
  }

  ghost predicate Waiting(st: EngineState, arr: seq<Order>, o: Order) {
    Distinct(st.stops) && o in st.stops && o.orderId in st.seen && !HasId(arr, o.orderId)
  }

  lemma FiredLeg(st: EngineState, arr: seq<Order>, o: Order, left: int, n: nat, qty: int)
    requires Waiting(st, arr, o) && left >= 0 && (n == 0 ==> qty <= o.remaining)
    ensures var r := ApplyFilled(AfterLegs(st, arr, o, left, n), o.orderId, qty, left);
      if n == 0 || left == 0 || !Promote(o).orderType.IsLimit() || qty <= left
      then r == Ok(AfterLegs(st, arr, o, left, n + 1))
      else r.Err?
  {
    FoundAt(st.stops, o);
    if n == 0 {
      assert Lookup(arr, o.orderId).None?;
      assert arr + [] == arr;
    } else {
      LaterLeg(st, arr, o, left, qty);
    }
  }

  lemma LaterLeg(st: EngineState, arr: seq<Order>, o: Order, left: int, qty: int)
    requires Waiting(st, arr, o) && left >= 0
    ensures var st1 := AfterLegs(st, arr, o, left, 1);
      var r := ApplyFilled(st1, o.orderId, qty, left);
      if left == 0 || !Promote(o).orderType.IsLimit() || qty <= left then r == Ok(st1) else r.Err?
  {
    var stops := Drop(st.stops, o.orderId);
    DroppedId(st.stops, o);
    var tail := PromotedTail(o, left);
    hide Drop, HasId;
    assert IndexOf(stops, o.orderId) == |stops| by { NotFound(stops, o.orderId); }
    if tail == [] {
      assert arr + [] == arr && Lookup(arr, o.orderId).None?;
    } else {
      hide Distinct, Promote, SetQty, Lookup;
      assert tail == [tail[0]] && tail[0].orderId == o.orderId && tail[0].remaining == left by { PromotedIs(o, left); }
      LastChanged(arr, tail[0], left);
    }
  }

  lemma PromotedIs(o: Order, left: int)
    ensures var tail := PromotedTail(o, left);
      tail != [] ==> tail == [tail[0]] && tail[0].orderId == o.orderId && tail[0].remaining == left
  {
  }

  lemma DroppedId(stops: seq<Order>, o: Order)
    requires Distinct(stops) && o in stops
    ensures !HasId(Drop(stops, o.orderId), o.orderId)
  {
    FoundAt(stops, o);
    SwapRemoveDistinct(stops, IndexOf(stops, o.orderId));
  }

  lemma NotFound(stops: seq<Order>, id: OrderId)
    requires !HasId(stops, id)
    ensures IndexOf(stops, id) == |stops|
  {
  }

  lemma TailApart(o: Order, left: int, n: nat, maker: Order)
    requires maker.orderId != o.orderId
    ensures var tail := if n == 0 then [] else PromotedTail(o, left);
      |tail| <= 1 && forall x :: x in tail ==> x.orderId != maker.orderId
  {
  }

  lemma AfterLegsArr(st: EngineState, arr: seq<Order>, next: seq<Order>, o: Order, left: int, n: nat)
    ensures var tail := if n == 0 then [] else PromotedTail(o, left);
      && AfterLegs(st, arr, o, left, n).arr == arr + tail
      && AfterLegs(st, arr, o, left, n).(arr := next + tail) == AfterLegs(st, next, o, left, n)
  {
    assert arr + [] == arr && next + [] == next;
  }

  lemma {:induction false} FiredFills(st: EngineState, arr: seq<Order>, o: Order, fills: seq<Fill>,
                                      after: seq<Order>, symbol: SymbolId, ts: Micros, left: int)
    requires st.arr == arr && Waiting(st, arr, o) && Fillable(arr, fills) && TakerOf(fills, o)
    requires MakersLogged(after, arr, fills) && left >= 0 && (fills != [] ==> fills[0].qty <= o.remaining)
    ensures var r := ReplayAll(st, FillEvents(after, fills, symbol, ts, left));
      if LegsPass(o, fills, left)
      then r == Ok(AfterLegs(st, ApplyFills(arr, fills), o, left, |fills|))
      else r.Err?
  {
    hide ApplyEvent, Fillable, Distinct, LegsFit, MakersLogged, TakerOf, ComesFrom, Mentions, HasId, Consume,
         ApplyFilled, AfterLegs, PromotedTail, Promote;
    if fills == [] {
      NoLegs(left);
      AfterLegsArr(st, arr, arr, o, left, 0);
      assert AfterLegs(st, arr, o, left, 0) == st by { NoneYet(st, o, left); }
    } else {
      var n := |fills| - 1;
      var init, f := fills[..n], fills[n];
      InitOfFills(arr, o, fills, after);
      FiredFills(st, arr, o, init, after, symbol, ts, left);
      var maker := NextTrade(arr, o, fills, after);
      assert init + [f] == fills;
      LegsFitSnoc(init, f, left);
      var trade := TradeEvents(f, symbol, ts, maker.remaining - f.qty, left);
      ReplayConcat(st, FillEvents(after, init, symbol, ts, left), trade);
      hide ReplayAll;
      if LegsPass(o, init, left) {
        FiredTrade(st, ApplyFills(arr, init), o, left, n, maker, f, symbol, ts);
      }
    }
  }

  lemma NoneYet(st: EngineState, o: Order, left: int)
    ensures AfterLegs(st, st.arr, o, left, 0) == st
  {
  }

  lemma FiredTrade(st: EngineState, arr: seq<Order>, o: Order, left: int, n: nat, maker: Order, f: Fill,
                   symbol: SymbolId, ts: Micros)
    requires Waiting(st, arr, o) && Distinct(arr) && maker in arr && left >= 0
    requires f.makerId == maker.orderId && f.takerId == o.orderId && 0 < f.qty <= maker.remaining
    requires n == 0 ==> f.qty <= o.remaining
    ensures var r := ReplayAll(AfterLegs(st, arr, o, left, n),
                               TradeEvents(f, symbol, ts, maker.remaining - f.qty, left));
      if n == 0 || left == 0 || !Promote(o).orderType.IsLimit() || f.qty <= left
      then r == Ok(AfterLegs(st, Consume(arr, f.makerId, f.qty), o, left, n + 1))
      else r.Err?
  {
    hide Distinct, Consume, ApplyFilled, AfterLegs, PromotedTail, Promote, ReplayAll, TradeEvents;
    var next := Consume(arr, f.makerId, f.qty);
    var tail := if n == 0 then [] else PromotedTail(o, left);
    NotSameId(arr, maker, o.orderId);
    TailApart(o, left, n, maker);
    AfterLegsArr(st, arr, next, o, left, n);
    ReplayTrade(AfterLegs(st, arr, o, left, n), arr, tail, maker, f, left, symbol, ts);
    ConsumeIds(arr, f.makerId, f.qty, o.orderId);
    FiredLeg(st, next, o, left, n, f.qty);
  }

  // A fired stop with at least one fill: replay accepts its events exactly when
  // its legs pass, and then has the live book and one stop order less.
  lemma FiredReplays(rep: EngineState, o: Order, ts: Micros)
    requires Waiting(rep, rep.arr, o) && Distinct(rep.arr) && AllPositive(rep.arr) && o.remaining > 0
    requires Trades(rep.arr, Promote(o))
    ensures var m := Match(rep.arr, Promote(o));
      var r := ReplayAll(rep, TriggerOne(rep.arr, o, ts).1);
      if LegsPass(o, m.fills, m.taker.remaining)
      then r == Ok(rep.(arr := TriggerOne(rep.arr, o, ts).0, stops := Drop(rep.stops, o.orderId)))
      else r.Err?
  {
    var t := Promote(o);
    var m := Match(rep.arr, t);
    PromoteKeeps(o);
    TradesIff(rep.arr, t);
    FilledAccepted(rep.arr, t);
    hide Match, ApplyEvent, Distinct, AllPositive, Fillable, LegsPass, FillEvents, ReplayAll, MakersLogged,
         ApplyFills, TakerOf, Waiting, Promote;
    MatchAsFills(rep.arr, t);
    FinalMakers(rep.arr, m.fills);
    TakerOfId(m.fills, t, o);
    FiredFills(rep, rep.arr, o, m.fills, m.arr, m.taker.symbol, ts, m.taker.remaining);
    FiredEnd(rep, m.arr, m.taker, o, |m.fills|);
  }

  lemma FilledAccepted(arr: seq<Order>, t: Order)
    requires Match(arr, t).fills != []
    ensures !Match(arr, t).rejected
  {
  }

  lemma PromoteKeeps(o: Order)
    ensures Promote(o).orderId == o.orderId && Promote(o).remaining == o.remaining
  {
  }

  lemma TakerOfId(fills: seq<Fill>, t: Order, o: Order)
    requires TakerOf(fills, t) && t.orderId == o.orderId
    ensures TakerOf(fills, o)
  {
  }

  lemma FiredEnd(rep: EngineState, arr: seq<Order>, taker: Order, o: Order, n: nat)
    requires n > 0 && taker == Promote(o).(remaining := taker.remaining)
    ensures AfterLegs(rep, arr, o, taker.remaining, n)
         == rep.(arr := arr + (if taker.remaining != 0 && taker.orderType.IsLimit() then [taker] else []),
                 stops := Drop(rep.stops, o.orderId))
  {
    hide Promote;
  }

  // ── All stops fired by one mark ───────────────────────────────────────

  // Each fired stop trades, by the book that it finds when its turn comes.
  predicate AllFilled(arr: seq<Order>, taken: seq<Order>, ts: Micros) {
    taken == [] ||
    (AllFilled(arr, taken[..|taken| - 1], ts) &&
     Trades(TriggerAll(arr, taken[..|taken| - 1], ts).0, Promote(taken[|taken| - 1])))
  }

  predicate AllPass(arr: seq<Order>, taken: seq<Order>, ts: Micros) {
    taken == [] ||
    (AllPass(arr, taken[..|taken| - 1], ts) &&
     var m := Match(TriggerAll(arr, taken[..|taken| - 1], ts).0, Promote(taken[|taken| - 1]));
     LegsPass(taken[|taken| - 1], m.fills, m.taker.remaining))
  }

  ghost predicate Pending(rep: EngineState, taken: seq<Order>) {
    && Distinct(rep.arr) && AllPositive(rep.arr) && AllLimit(rep.arr)
    && Apart(taken, rep.arr) && AllPositive(taken)
    && Distinct(rep.stops) && multiset(taken) <= multiset(rep.stops)
    && forall o :: o in taken ==> o.orderId in rep.seen
  }

  lemma PendingInit(rep: EngineState, taken: seq<Order>)
    requires Pending(rep, taken) && taken != []
    ensures Pending(rep, taken[..|taken| - 1])
  {
    LastPending(rep, taken);
    InitApart(taken, rep.arr);
    hide AllLimit, Apart, Distinct, AllPositive;
  }

  lemma NextWaits(rep: EngineState, taken: seq<Order>, ts: Micros)
    requires Pending(rep, taken) && taken != []
    ensures var init, o := taken[..|taken| - 1], taken[|taken| - 1];
      var arr, stops := TriggerAll(rep.arr, init, ts).0, DropAll(rep.stops, init);
      && Distinct(arr) && AllPositive(arr) && o.remaining > 0
      && Waiting(rep.(arr := arr, stops := stops), arr, o)
  {
    var init, o := taken[..|taken| - 1], taken[|taken| - 1];
    LastPending(rep, taken);
    NoneApart(rep.arr);
    hide AllLimit, Apart, TriggerAll, DropAll, HasId, Distinct, AllPositive, Pending;
    TriggerSound(rep.arr, init, [], ts);
    DropAllIs(rep.stops, init);
    StillThere(multiset(DropAll(rep.stops, init)), multiset(init), o, multiset(rep.stops));
  }

  // The last of the fired stops has an id of its own.
  lemma LastPending(rep: EngineState, taken: seq<Order>)
    requires Pending(rep, taken) && taken != []
    ensures var init, o := taken[..|taken| - 1], taken[|taken| - 1];
      && Distinct(rep.arr) && AllPositive(rep.arr) && AllLimit(rep.arr) && Distinct(rep.stops)
      && Apart(init, rep.arr) && AllPositive(init) && o.remaining > 0 && o.orderId in rep.seen
      && !HasId(rep.arr, o.orderId) && !HasId(init, o.orderId)
      && multiset(init) <= multiset(rep.stops) && multiset(init) + multiset{o} <= multiset(rep.stops)
  {
    hide AllLimit;
    LastOf(taken);
    InitApart(taken, rep.arr);
    assert taken[|taken| - 1] in taken;
  }

  lemma NoneApart(arr: seq<Order>)
    ensures Apart([], arr)
  {
  }

  lemma {:induction false} TriggersReplay(rep: EngineState, taken: seq<Order>, ts: Micros)
    requires Pending(rep, taken) && AllFilled(rep.arr, taken, ts)
    ensures var r := ReplayAll(rep, TriggerAll(rep.arr, taken, ts).1);
      if AllPass(rep.arr, taken, ts)
      then r == Ok(rep.(arr := TriggerAll(rep.arr, taken, ts).0, stops := DropAll(rep.stops, taken)))
      else r.Err?
  {
    hide Pending, Match, ApplyEvent, Distinct, AllPositive, LegsPass, TriggerOne, Waiting, Drop, Promote, Trades;
    if taken != [] {
      var init, o := taken[..|taken| - 1], taken[|taken| - 1];
      PendingInit(rep, taken);
      TriggersReplay(rep, init, ts);
      NextWaits(rep, taken, ts);
      var (mid, events) := TriggerAll(rep.arr, init, ts);
      ReplayConcat(rep, events, TriggerOne(mid, o, ts).1);
      hide ReplayAll;
      if AllPass(rep.arr, init, ts) {
        FiredReplays(rep.(arr := mid, stops := DropAll(rep.stops, init)), o, ts);
      }
    }
  }

  // ── Canceled stops ────────────────────────────────────────────────────

  // The stop orders without one of them, the others in place.
  function Without(stops: seq<Order>, id: OrderId): seq<Order> {
    var i := IndexOf(stops, id);
    if i < |stops| then stops[..i] + stops[i + 1..] else stops
  }

  lemma WithoutIs(stops: seq<Order>, o: Order)
    requires Distinct(stops) && o in stops
    ensures multiset(Without(stops, o.orderId)) + multiset{o} == multiset(stops)
  {
    FoundAt(stops, o);
    CutOut(stops, IndexOf(stops, o.orderId));
  }

  lemma WithoutApart(stops: seq<Order>, arr: seq<Order>, o: Order)
    requires Apart(stops, arr) && o in stops
    ensures Apart(Without(stops, o.orderId), arr)
  {
    FoundAt(stops, o);
    StopMoves(stops, arr, IndexOf(stops, o.orderId));
  }

  lemma StopCanceled(rep: EngineState, o: Order, user: UserId, symbol: SymbolId, ts: Micros)
    requires Apart(rep.stops, rep.arr) && o in rep.stops
    ensures var r := ApplyEvent(rep, CanceledEvent(o, user, symbol, ts));
      && r == Ok(rep.(stops := Without(rep.stops, o.orderId)))
      && multiset(r.value.stops) + multiset{o} == multiset(rep.stops)
      && Apart(r.value.stops, rep.arr)
  {
    FoundAt(rep.stops, o);
    WithoutIs(rep.stops, o);
    WithoutApart(rep.stops, rep.arr, o);
  }

  // Replay cancels swept stops one by one, keeping the order of the others.
  lemma {:induction false} StopCancelsReplay(rep: EngineState, taken: seq<Order>, user: UserId, symbol: SymbolId,
                                             ts: Micros)
    requires Apart(rep.stops, rep.arr) && multiset(taken) <= multiset(rep.stops)
    ensures var r := ReplayAll(rep, CanceledEvents(taken, user, symbol, ts));
      && r.Ok? && r.value == rep.(stops := r.value.stops)
      && multiset(r.value.stops) + multiset(taken) == multiset(rep.stops)
      && (taken == [] ==> r.value.stops == rep.stops)
    decreases |taken|
  {
    hide Apart, ApplyEvent, Without;
    if taken != [] {
      var o := taken[0];
      var es := CanceledEvents(taken, user, symbol, ts);
      FirstGone(taken, multiset(rep.stops));
      StopCanceled(rep, o, user, symbol, ts);
      var rep1 := rep.(stops := Without(rep.stops, o.orderId));
      LessOne(o, multiset(taken[1..]), multiset(rep1.stops));
      assert es[1..] == CanceledEvents(taken[1..], user, symbol, ts);
      StopCancelsReplay(rep1, taken[1..], user, symbol, ts);
    }
  }

  lemma FirstGone(taken: seq<Order>, stops: multiset<Order>)
    requires taken != [] && multiset(taken) <= stops
    ensures taken[0] in stops && multiset(taken) == multiset{taken[0]} + multiset(taken[1..])
  {
    HeadOff(taken);
    assert taken[0] in multiset(taken);
  }
}
