// What every command keeps, over whole runs of the engine.
module EngineInvariants {
  import opened Common
  import opened SortedKeys
  import opened Arrivals
  import opened Priority
  import opened OrderBooks
  import opened Matcher
  import opened MatchTheorems
  import opened FundingRate
  import opened EngineSpec
  import opened Triggers

  // ── The representation invariant ──────────────────────────────────────

  ghost predicate AllLimit(arr: seq<Order>) {
    forall o :: o in arr ==> o.orderType.IsLimit()
  }

  ghost predicate Sound(st: EngineState) {
    && Distinct(st.arr) && AllPositive(st.arr) && AllLimit(st.arr)
    && Apart(st.stops, st.arr) && AllPositive(st.stops)
    && (forall o :: o in st.stops ==> o.orderType.IsConditional())
  }

  // A new order's id is not one of a pending stop order; ids on the book are
  // checked by the engine itself.
  predicate FreshId(st: EngineState, c: Command) {
    c.NewOrder? ==> !HasId(st.stops, c.orderId)
  }

  function Run(cfg: EngineConfig, st: EngineState, cmds: seq<Command>): (EngineState, seq<Event>)
    decreases |cmds|
  {
    if cmds == [] then (st, [])
    else
      var (st1, events) := Step(cfg, st, cmds[0]);
      var (st2, more) := Run(cfg, st1, cmds[1..]);
      (st2, events + more)
  }

  ghost predicate FreshRun(cfg: EngineConfig, st: EngineState, cmds: seq<Command>)
    decreases |cmds|
  {
    cmds == [] || (FreshId(st, cmds[0]) && FreshRun(cfg, Step(cfg, st, cmds[0]).0, cmds[1..]))
  }

  // An arrival list that gains one order, or one from another list, at its end.
  lemma SoundSnoc(arr: seq<Order>, o: Order)
    requires Distinct(arr) && AllPositive(arr) && AllLimit(arr)
    requires !HasId(arr, o.orderId) && o.remaining > 0 && o.orderType.IsLimit()
    ensures Distinct(arr + [o]) && AllPositive(arr + [o]) && AllLimit(arr + [o])
  {
  }

  lemma SoundPart(arr: seq<Order>, sel: Selector)
    requires Distinct(arr) && AllPositive(arr) && AllLimit(arr)
    ensures Distinct(Keep(arr, sel)) && AllPositive(Keep(arr, sel)) && AllLimit(Keep(arr, sel))
  {
    KeepIn(arr, sel);
    KeepDistinct(arr, sel);
  }

  lemma SoundMatch(arr: seq<Order>, t: Order)
    requires Distinct(arr) && AllPositive(arr) && AllLimit(arr) && t.remaining >= 0
    ensures var m := Match(arr, t);
      && Distinct(m.arr) && AllPositive(m.arr) && AllLimit(m.arr)
      && SameButQty(m.taker, t) && 0 <= m.taker.remaining <= t.remaining
  {
    hide Match, Distinct, AllPositive;
    MatchKeeps(arr, t);
    forall x | x in Match(arr, t).arr ensures x.orderType.IsLimit() {
      assert ComesFrom(x, arr);
      var o :| o in arr && SameButQty(x, o);
    }
  }

  // Matching and resting keep the book sound and admit at most the taker's id.
  lemma SoundRest(arr: seq<Order>, t: Order, x: Order)
    requires Distinct(arr) && AllPositive(arr) && AllLimit(arr) && t.remaining >= 0
    requires !HasId(arr, t.orderId) && x.orderId == t.orderId && x.remaining > 0 && x.orderType.IsLimit()
    ensures var a := Match(arr, t).arr + [x];
      Distinct(a) && AllPositive(a) && AllLimit(a)
  {
    hide Match, Distinct, AllPositive, AllLimit, HasId;
    SoundMatch(arr, t);
    MatchIds(arr, t, t.orderId);
    SoundSnoc(Match(arr, t).arr, x);
  }

  lemma ApartAfterMatch(stops: seq<Order>, arr: seq<Order>, t: Order)
    requires Apart(stops, arr)
    ensures Apart(stops, Match(arr, t).arr)
  {
    hide Match;
    forall o | o in stops ensures !HasId(Match(arr, t).arr, o.orderId) {
      MatchIds(arr, t, o.orderId);
    }
  }

  lemma ApartSnoc(stops: seq<Order>, arr: seq<Order>, x: Order)
    requires Apart(stops, arr) && !HasId(stops, x.orderId)
    ensures Apart(stops, arr + [x])
  {
    forall o | o in stops ensures !HasId(arr + [x], o.orderId) {
      var k :| 0 <= k < |stops| && stops[k] == o;
      assert stops[k].orderId != x.orderId;
    }
  }

  lemma ApartPart(stops: seq<Order>, arr: seq<Order>, sel: Selector)
    requires Apart(stops, arr)
    ensures Apart(stops, Keep(arr, sel))
  {
    KeepIn(arr, sel);
    forall o | o in stops ensures !HasId(Keep(arr, sel), o.orderId) {
      NotInPart(arr, Keep(arr, sel), o.orderId);
    }
  }

  lemma NewOrderSound(cfg: EngineConfig, st: EngineState, c: Command)
    requires Sound(st) && FreshId(st, c) && c.NewOrder? && cfg.lotSize > 0
    ensures Sound(NewOrderStep(cfg, st, c).0)
  {
    hide Match, Distinct;
    var price := EffectivePrice(c.orderType, c.side, c.price);
    if c.quantity > 0 && !HasId(st.arr, c.orderId) && price.Some?
       && IcebergOk(cfg, c.orderType, c.visibleQuantity) {
      var o := BuildOrder(c, price.value, st.mark);
      VisibleIsPositive(cfg, c, o);
      if c.orderType.IsConditional() {
        StopsGrow(st.stops, st.arr, o);
      } else {
        PlaceSound(st, o);
      }
    }
  }

  lemma VisibleIsPositive(cfg: EngineConfig, c: Command, o: Order)
    requires c.NewOrder? && c.quantity > 0 && cfg.lotSize > 0
    requires IcebergOk(cfg, c.orderType, c.visibleQuantity)
    requires c.orderType.Iceberg? ==> o.remaining == Min(c.visibleQuantity.value, c.quantity)
    ensures c.orderType.Iceberg? ==> o.remaining > 0 && c.visibleQuantity.value > 0
  {
    assert cfg.lotSize * (10 * SCALE) / SCALE == cfg.lotSize * 10;
  }

  lemma StopsGrow(stops: seq<Order>, arr: seq<Order>, o: Order)
    requires Apart(stops, arr) && !HasId(stops, o.orderId) && !HasId(arr, o.orderId)
    ensures Apart(stops + [o], arr)
  {
  }

  lemma PlaceSound(st: EngineState, o: Order)
    requires Sound(st) && !HasId(st.arr, o.orderId) && !HasId(st.stops, o.orderId)
    requires o.remaining > 0 && o.hiddenQty >= 0
    requires o.orderType.Iceberg? ==> o.visibleQty.Some? && o.visibleQty.value > 0
    ensures Sound(PlaceStep(st, o).0)
  {
    hide Match, Distinct, HasId, AllPositive, AllLimit, Apart;
    SoundMatch(st.arr, o);
    ApartAfterMatch(st.stops, st.arr, o);
    var m := Match(st.arr, o);
    var left := Refill(m.taker, o.timestamp);
    assert left.orderId == o.orderId && left.remaining >= 0;
    if !m.rejected && Rests(left) {
      SoundRest(st.arr, o, left);
      ApartSnoc(st.stops, m.arr, left);
    }
  }

  lemma CancelSound(st: EngineState, id: OrderId, user: UserId, ts: Micros)
    requires Sound(st)
    ensures Sound(CancelStep(st, id, user, ts).0)
  {
    hide Distinct, AllLimit;
    SoundPart(st.arr, NotId(id));
    ApartPart(st.stops, st.arr, NotId(id));
    var found, i := Lookup(st.arr, id), IndexOf(st.stops, id);
    if found.Some? {
      KeepIn(st.arr, NotId(id));
      if found.value.userId != user {
        GoneId(st.arr, id);
        assert !HasId(st.stops, id) by {
          forall k | 0 <= k < |st.stops| ensures st.stops[k].orderId != id {
            assert st.stops[k] in st.stops;
          }
        }
        ReplacedSound(st, found.value);
      }
    } else if i < |st.stops| {
      StopMoves(st.stops, st.arr, i);
    }
  }

  lemma ReplacedSound(st: EngineState, o: Order)
    requires Sound(st) && o in st.arr && !HasId(st.stops, o.orderId)
    requires !HasId(Keep(st.arr, NotId(o.orderId)), o.orderId)
    ensures Sound(st.(arr := Keep(st.arr, NotId(o.orderId)) + [o]))
  {
    hide Distinct;
    var arr := Keep(st.arr, NotId(o.orderId));
    SoundPart(st.arr, NotId(o.orderId));
    ApartPart(st.stops, st.arr, NotId(o.orderId));
    hide Apart, HasId;
    SoundSnoc(arr, o);
    ApartSnoc(st.stops, arr, o);
  }

  lemma StopMoves(stops: seq<Order>, arr: seq<Order>, i: nat)
    requires Apart(stops, arr) && i < |stops|
    ensures var others := stops[..i] + stops[i + 1..];
      && Apart(others, arr) && Apart(others + [stops[i]], arr)
      && (forall o :: o in others ==> o in stops)
  {
    var others := stops[..i] + stops[i + 1..];
    assert forall k :: 0 <= k < |others| ==> others[k] == stops[if k < i then k else k + 1];
    assert forall k :: 0 <= k < |others| ==> others[k].orderId != stops[i].orderId;
  }

  lemma CancelAllSound(st: EngineState, user: UserId, symbol: SymbolId, ts: Micros)
    requires Sound(st)
    ensures Sound(CancelAllStep(st, user, symbol, ts).0)
  {
    SweepSound(st.stops, st.arr, OwnedBy(user, symbol));
    hide Distinct, AllLimit, Sweep;
    SoundPart(st.arr, NotUser(user));
    ApartPart(Sweep(st.stops, 0, OwnedBy(user, symbol)).0, st.arr, NotUser(user));
  }

  lemma SweepSound(stops: seq<Order>, arr: seq<Order>, test: StopTest)
    requires Apart(stops, arr)
    ensures var (kept, taken) := Sweep(stops, 0, test);
      && Apart(kept, arr) && Apart(taken, arr)
      && (forall o :: o in kept || o in taken ==> o in stops)
      && (forall o :: o in taken ==> !HasId(kept, o.orderId))
  {
    SweepDistinct(stops, 0, test);
  }

  lemma AmendSound(st: EngineState, c: Command)
    requires Sound(st) && c.AmendOrder?
    ensures Sound(AmendStep(st, c).0)
  {
    hide Match, Distinct, Apart, AllLimit, AllPositive;
    var found := Lookup(st.arr, c.orderId);
    if found.Some? && found.value.userId == c.userId {
      var o := found.value;
      assert o.remaining > 0 && o.orderType.IsLimit() && !HasId(st.stops, c.orderId) by { OnBook(st, o); }
      var priceChanged := c.newPrice.Some? && c.newPrice.value != o.price;
      if priceChanged || (c.newQuantity.Some? && c.newQuantity.value > o.remaining) {
        RepriceSound(st, c, o);
      } else if c.newQuantity.Some? && 0 < c.newQuantity.value < o.remaining {
        ResizeSound(st, o, c.newQuantity.value);
      }
    }
  }

  lemma OnBook(st: EngineState, o: Order)
    requires Sound(st) && o in st.arr
    ensures o.remaining > 0 && o.orderType.IsLimit() && !HasId(st.stops, o.orderId)
  {
    forall k | 0 <= k < |st.stops| ensures st.stops[k].orderId != o.orderId {
      assert st.stops[k] in st.stops;
      var i :| 0 <= i < |st.arr| && st.arr[i] == o;
      assert !HasId(st.arr, st.stops[k].orderId);
    }
  }

  lemma ResizeSound(st: EngineState, o: Order, q: int)
    requires Sound(st) && o in st.arr && q > 0
    ensures Sound(st.(arr := SetQty(st.arr, o.orderId, q)))
  {
    hide Distinct;
    var arr := SetQty(st.arr, o.orderId, q);
    SetQtyDistinct(st.arr, o.orderId, q);
    SetQtyIn(st.arr, o, q);
    SetQtyAt(st.arr, o.orderId, q);
    forall s | s in st.stops ensures !HasId(arr, s.orderId) {
      forall i | 0 <= i < |arr| ensures arr[i].orderId != s.orderId {
        assert !HasId(st.arr, s.orderId) && arr[i].orderId == st.arr[i].orderId;
      }
    }
  }

  lemma RepriceSound(st: EngineState, c: Command, o: Order)
    requires Sound(st) && c.AmendOrder? && o in st.arr && o.orderId == c.orderId
    requires !HasId(st.stops, o.orderId) && o.orderType.IsLimit()
    ensures Sound(Reprice(st, c, o).0)
  {
    hide Match, Distinct, Apart, AllLimit, AllPositive, HasId;
    var arr := Keep(st.arr, NotId(c.orderId));
    SoundPart(st.arr, NotId(c.orderId));
    ApartPart(st.stops, st.arr, NotId(c.orderId));
    GoneId(st.arr, c.orderId);
    var price := if c.newPrice.Some? then c.newPrice.value else o.price;
    var qty := if c.newQuantity.Some? then c.newQuantity.value else o.remaining;
    if qty > 0 && price > 0 {
      var amended := o.(price := price, remaining := qty, original := qty, timestamp := c.timestamp);
      SoundMatch(arr, amended);
      ApartAfterMatch(st.stops, arr, amended);
      var m := Match(arr, amended);
      if !m.rejected && m.taker.remaining != 0 {
        SoundRest(arr, amended, m.taker);
        ApartSnoc(st.stops, m.arr, m.taker);
      } else {
        assert m.arr + [] == m.arr;
      }
    }
  }

  // Triggering a list of stops keeps the book sound and apart from the rest.
  lemma {:induction false} TriggerSound(arr: seq<Order>, taken: seq<Order>, kept: seq<Order>, ts: Micros)
    requires Distinct(arr) && AllPositive(arr) && AllLimit(arr)
    requires Apart(taken, arr) && Apart(kept, arr) && AllPositive(taken)
    requires forall o :: o in taken ==> !HasId(kept, o.orderId)
    ensures var a := TriggerAll(arr, taken, ts).0;
      && Distinct(a) && AllPositive(a) && AllLimit(a) && Apart(kept, a)
      && (forall x :: !HasId(arr, x) && !HasId(taken, x) ==> !HasId(a, x))
  {
    if taken != [] {
      var init, o := taken[..|taken| - 1], taken[|taken| - 1];
      InitApart(taken, arr);
      TriggerSound(arr, init, kept, ts);
      var mid := TriggerAll(arr, init, ts).0;
      assert o in taken;
      TriggerOneSound(mid, o, kept, ts);
      hide Distinct, AllPositive, AllLimit, TriggerOne, Apart;
      forall x | !HasId(arr, x) && !HasId(taken, x)
        ensures !HasId(TriggerOne(mid, o, ts).0, x)
      {
        InitIds(taken, x);
        TriggerOneIds(mid, o, ts, x);
      }
    }
  }

  lemma InitApart(taken: seq<Order>, arr: seq<Order>)
    requires Apart(taken, arr) && taken != []
    ensures Apart(taken[..|taken| - 1], arr)
    ensures !HasId(taken[..|taken| - 1], taken[|taken| - 1].orderId)
    ensures !HasId(arr, taken[|taken| - 1].orderId)
    ensures forall o :: o in taken[..|taken| - 1] ==> o in taken
  {
    assert taken[|taken| - 1] in taken;
  }

  lemma InitIds(taken: seq<Order>, x: OrderId)
    requires taken != [] && !HasId(taken, x)
    ensures !HasId(taken[..|taken| - 1], x) && taken[|taken| - 1].orderId != x
  {
  }

  lemma TriggerOneSound(arr: seq<Order>, o: Order, kept: seq<Order>, ts: Micros)
    requires Distinct(arr) && AllPositive(arr) && AllLimit(arr) && Apart(kept, arr)
    requires !HasId(arr, o.orderId) && !HasId(kept, o.orderId) && o.remaining > 0
    ensures var a := TriggerOne(arr, o, ts).0;
      Distinct(a) && AllPositive(a) && AllLimit(a) && Apart(kept, a)
  {
    hide Match, Distinct, AllPositive, AllLimit, Apart, HasId;
    var t := Promote(o);
    SoundMatch(arr, t);
    ApartAfterMatch(kept, arr, t);
    var m := Match(arr, t);
    if !m.rejected && m.taker.remaining != 0 && m.taker.orderType.IsLimit() {
      SoundRest(arr, t, m.taker);
      ApartSnoc(kept, m.arr, m.taker);
    } else {
      assert m.arr + [] == m.arr;
    }
  }

  lemma MarkSound(st: EngineState, symbol: SymbolId, mark: int, index: int, ts: Micros)
    requires Sound(st)
    ensures Sound(MarkStep(st, symbol, mark, index, ts).0)
  {
    PeaksSound(st, mark);
    var stops := PeakedAll(st.stops, mark);
    SweepSound(stops, st.arr, FiredBy(mark));
    hide Distinct, AllLimit, Sweep, TriggerAll, Apart;
    var (kept, taken) := Sweep(stops, 0, FiredBy(mark));
    TriggerSound(st.arr, taken, kept, ts);
  }

  lemma PeaksSound(st: EngineState, mark: int)
    requires Sound(st)
    ensures Apart(PeakedAll(st.stops, mark), st.arr) && AllPositive(PeakedAll(st.stops, mark))
    ensures forall o :: o in PeakedAll(st.stops, mark) ==> o.orderType.IsConditional()
  {
    var p := PeakedAll(st.stops, mark);
    forall o | o in p
      ensures !HasId(st.arr, o.orderId) && o.remaining > 0 && o.orderType.IsConditional()
    {
      var i :| 0 <= i < |p| && p[i] == o;
      assert st.stops[i] in st.stops;
    }
  }

  // Every command keeps the invariant.
  lemma StepSound(cfg: EngineConfig, st: EngineState, c: Command)
    requires Sound(st) && FreshId(st, c) && cfg.lotSize > 0
    ensures Sound(Step(cfg, st, c).0)
  {
    hide Sound, NewOrderStep, CancelStep, AmendStep, CancelAllStep, MarkStep;
    match c
    case NewOrder(_, _, _, _, _, _, _, _, _, _, _, _, _, _) => NewOrderSound(cfg, st, c);
    case CancelOrder(id, user, _, ts) => CancelSound(st, id, user, ts);
    case AmendOrder(_, _, _, _, _, _) => AmendSound(st, c);
    case CancelAllOrders(user, symbol, ts) => CancelAllSound(st, user, symbol, ts);
    case UpdateMarkPrice(symbol, mark, index, ts) => MarkSound(st, symbol, mark, index, ts);
    case ComputeFunding(symbol, ts) => FundingSound(cfg, st, symbol, ts);
    case AdminCredit(_, _, _, _) =>
  }

  lemma FundingSound(cfg: EngineConfig, st: EngineState, symbol: SymbolId, ts: Micros)
    requires Sound(st)
    ensures Sound(FundingStep(cfg, st, symbol, ts).0)
  {
  }

  // A funding command moves nothing but the rate, and announces it: within its
  // bounds, the nearest to the premium of the mark over the index plus interest,
  // or to the interest alone while there is no index. The premium is exact to a
  // raw unit, and a higher mark never lowers the rate.
  lemma FundingUpdate(cfg: EngineConfig, st: EngineState, symbol: SymbolId, ts: Micros, higher: int)
    requires st.mark <= higher
    ensures var (st1, events) := FundingStep(cfg, st, symbol, ts);
      && st1 == st.(rate := st1.rate) && events == [FundingRateUpdate(symbol, st1.rate, ts)]
      && (st.index == 0 ==> Nearest(st1.rate, cfg.interestRate))
      && (st.index != 0 ==> exists premium ::
            Nearest(st1.rate, premium + cfg.interestRate)
            && Abs(premium * st.index - (st.mark - st.index) * SCALE) < Abs(st.index))
      && (st.index >= 0 ==> st1.rate <= FundingStep(cfg, st.(mark := higher), symbol, ts).0.rate)
  {
    var premium := Premium(st.mark, st.index);
    RateIsClamped(premium, cfg.interestRate);
    if st.index != 0 {
      PremiumIsFraction(st.mark, st.index, higher);
      hide Premium;
      assert Nearest(FundingStep(cfg, st, symbol, ts).0.rate, premium + cfg.interestRate);
    }
  }

  // The invariant holds over every run.
  lemma {:induction false} RunSound(cfg: EngineConfig, st: EngineState, cmds: seq<Command>)
    requires Sound(st) && FreshRun(cfg, st, cmds) && cfg.lotSize > 0
    ensures Sound(Run(cfg, st, cmds).0)
    decreases |cmds|
  {
    hide Sound, Step, FreshId;
    if cmds != [] {
      StepSound(cfg, st, cmds[0]);
      RunSound(cfg, Step(cfg, st, cmds[0]).0, cmds[1..]);
    }
  }

  // ── What the indexes of a sound book say ──────────────────────────────

  ghost predicate OnceIn(ids: seq<OrderId>, id: OrderId) {
    multiset(ids)[id] == 1
  }

  lemma {:induction false} OncePerId(arr: seq<Order>, id: OrderId)
    requires Distinct(arr)
    ensures multiset(Ids(arr))[id] == if HasId(arr, id) then 1 else 0
  {
    if arr == [] {
      assert Ids(arr) == [];
    } else {
      assert Ids(arr) == [arr[0].orderId] + Ids(arr[1..]);
      OncePerId(arr[1..], id);
      HasIdTail(arr, id);
      assert HasId(arr[1..], id) ==> arr[0].orderId != id;
    }
  }

  // Sum of remaining quantities of listed ids, looked up in the order index.
  function SumOf(ids: seq<OrderId>, orders: map<OrderId, Order>): int
    requires forall id :: id in ids ==> id in orders
  {
    if ids == [] then 0 else orders[ids[0]].remaining + SumOf(ids[1..], orders)
  }

  lemma {:induction false} SumOfIds(at: seq<Order>, orders: map<OrderId, Order>)
    requires forall o :: o in at ==> o.orderId in orders && orders[o.orderId] == o
    ensures forall id :: id in Ids(at) ==> id in orders
    ensures SumOf(Ids(at), orders) == Sum(at)
  {
    if at == [] {
      assert Ids(at) == [];
    } else {
      assert at[0] in at && Ids(at)[0] == at[0].orderId && Ids(at)[1..] == Ids(at[1..]);
      SumOfIds(at[1..], orders);
    }
  }

  // Each order id is listed once, in the one level of its side and price and
  // once under its owner, and nowhere else.
  lemma EachOrderOnce(book: OrderBook, id: OrderId, side: Side, p: int, user: UserId)
    requires book.Valid() && id in book.orders
    ensures var o := book.orders[id];
      && o.orderId == id
      && o.price in book.LevelsOf(o.side) && OnceIn(book.LevelsOf(o.side)[o.price].ids, id)
      && (p in book.LevelsOf(side) && id in book.LevelsOf(side)[p].ids ==> side == o.side && p == o.price)
      && o.userId in book.userOrders && OnceIn(book.userOrders[o.userId], id)
      && (user in book.userOrders && id in book.userOrders[user] ==> user == o.userId)
  {
    var o, arr := book.orders[id], book.arrivals;
    AtOwnLevel(arr, o);
    assert LevelIndexed(arr, o.side, book.LevelsOf(o.side), o.price);
    assert LevelIndexed(arr, side, book.LevelsOf(side), p);
    assert UserIndexed(arr, book.userOrders, o.userId) && UserIndexed(arr, book.userOrders, user);
    OncePerId(Keep(arr, AtLevel(o.side, o.price)), id);
    KeepIn(arr, OfUser(o.userId));
    KeepDistinct(arr, OfUser(o.userId));
    LookupUnique(Keep(arr, OfUser(o.userId)), o);
    OncePerId(Keep(arr, OfUser(o.userId)), id);
    OtherListsLack(arr, o, side, p, user);
  }

  lemma OtherListsLack(arr: seq<Order>, o: Order, side: Side, p: int, user: UserId)
    requires Distinct(arr) && o in arr
    ensures o.orderId in Ids(Keep(arr, AtLevel(side, p))) ==> side == o.side && p == o.price
    ensures o.orderId in Ids(Keep(arr, OfUser(user))) ==> user == o.userId
  {
    hide Distinct;
    var at, mine := Keep(arr, AtLevel(side, p)), Keep(arr, OfUser(user));
    KeepIn(arr, AtLevel(side, p));
    KeepIn(arr, OfUser(user));
    if o.orderId in Ids(at) {
      var k :| 0 <= k < |at| && Ids(at)[k] == o.orderId;
      assert at[k] in at;
      SameIdSameOrder(arr, o, at[k]);
    }
    if o.orderId in Ids(mine) {
      var k :| 0 <= k < |mine| && Ids(mine)[k] == o.orderId;
      assert mine[k] in mine;
      SameIdSameOrder(arr, o, mine[k]);
    }
  }

  // No level or owner list is empty, every listed id is a live order of that
  // level or owner, and each level total is the sum of its orders, above zero.
  lemma LevelsAndListsExact(book: OrderBook, side: Side, p: int, user: UserId)
    requires book.Valid() && AllPositive(book.arrivals)
    ensures p in book.LevelsOf(side) ==>
      var l := book.LevelsOf(side)[p];
      && l.price == p && l.ids != []
      && (forall id :: id in l.ids ==>
            id in book.orders && book.orders[id].side == side && book.orders[id].price == p)
      && l.totalQty == SumOf(l.ids, book.orders) && l.totalQty > 0
    ensures user in book.userOrders ==>
      && book.userOrders[user] != []
      && (forall id :: id in book.userOrders[user] ==> id in book.orders && book.orders[id].userId == user)
  {
    var arr := book.arrivals;
    var at, mine := Keep(arr, AtLevel(side, p)), Keep(arr, OfUser(user));
    KeepIn(arr, AtLevel(side, p));
    KeepIn(arr, OfUser(user));
    assert LevelIndexed(arr, side, book.LevelsOf(side), p);
    assert UserIndexed(arr, book.userOrders, user);
    SumOfIds(at, book.orders);
    SumPositive(at);
    ListedAreLive(at, book.orders);
    ListedAreLive(mine, book.orders);
  }

  lemma ListedAreLive(part: seq<Order>, orders: map<OrderId, Order>)
    requires forall o :: o in part ==> o.orderId in orders && orders[o.orderId] == o
    ensures forall id :: id in Ids(part) ==> id in orders && orders[id] in part
  {
    forall id | id in Ids(part) ensures id in orders && orders[id] in part {
      var k :| 0 <= k < |part| && Ids(part)[k] == id;
      assert part[k] in part;
    }
  }

  lemma {:induction false} SumPositive(arr: seq<Order>)
    requires AllPositive(arr)
    ensures arr != [] ==> Sum(arr) > 0
  {
    if arr != [] {
      assert arr[0] in arr && forall o :: o in arr[1..] ==> o in arr;
      SumPositive(arr[1..]);
    }
  }
}
