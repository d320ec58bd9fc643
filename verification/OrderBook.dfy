// The price-level book of one symbol: two level maps, an order index and an
// owner index, updated in place and kept in step with one arrival list.
module OrderBooks {
  import opened Common
  import opened Arrivals
  import opened SortedKeys

  // ── Level maps as values ──────────────────────────────────────────────

  datatype Level = Level(price: int, totalQty: int, ids: seq<OrderId>)

  type Levels = map<int, Level>

  function PushLevel(lv: Levels, o: Order): Levels {
    var l := if o.price in lv then lv[o.price] else Level(o.price, 0, []);
    lv[o.price := l.(totalQty := l.totalQty + o.remaining, ids := l.ids + [o.orderId])]
  }

  function DropLevel(lv: Levels, o: Order): Levels {
    if o.price in lv then
      var l := lv[o.price].(totalQty := lv[o.price].totalQty - o.remaining,
                            ids := Retain(lv[o.price].ids, o.orderId));
      if l.ids == [] then lv - {o.price} else lv[o.price := l]
    else lv
  }

  function ShrinkLevel(lv: Levels, price: int, diff: int): Levels {
    if price in lv then lv[price := lv[price].(totalQty := lv[price].totalQty - diff)] else lv
  }

  // ── What each index must hold, given the arrival list ─────────────────

  function LevelOf(arr: seq<Order>, side: Side, p: int): Level {
    var at := Keep(arr, AtLevel(side, p));
    Level(p, Sum(at), Ids(at))
  }

  ghost predicate LevelIndexed(arr: seq<Order>, side: Side, lv: Levels, p: int) {
    && (p in lv <==> Keep(arr, AtLevel(side, p)) != [])
    && (p in lv ==> lv[p] == LevelOf(arr, side, p))
  }

  ghost predicate LevelsIndexed(arr: seq<Order>, side: Side, lv: Levels) {
    forall p :: LevelIndexed(arr, side, lv, p)
  }

  ghost predicate OrdersIndexed(arr: seq<Order>, orders: map<OrderId, Order>) {
    && (forall o :: o in arr ==> o.orderId in orders && orders[o.orderId] == o)
    && (forall id :: id in orders ==> orders[id] in arr && orders[id].orderId == id)
  }

  ghost predicate UserIndexed(arr: seq<Order>, users: map<UserId, seq<OrderId>>, u: UserId) {
    && (u in users <==> Keep(arr, OfUser(u)) != [])
    && (u in users ==> users[u] == Ids(Keep(arr, OfUser(u))))
  }

  ghost predicate UsersIndexed(arr: seq<Order>, users: map<UserId, seq<OrderId>>) {
    forall u :: UserIndexed(arr, users, u)
  }

  // The list determines the indexes: whatever two books hold, if their lists
  // agree then so does every map in them.
  lemma IndexesDetermined(arr: seq<Order>, lv: Levels, lv': Levels, side: Side,
                          om: map<OrderId, Order>, om': map<OrderId, Order>,
                          um: map<UserId, seq<OrderId>>, um': map<UserId, seq<OrderId>>)
    requires LevelsIndexed(arr, side, lv) && LevelsIndexed(arr, side, lv')
    requires OrdersIndexed(arr, om) && OrdersIndexed(arr, om')
    requires UsersIndexed(arr, um) && UsersIndexed(arr, um')
    ensures lv == lv' && om == om' && um == um'
  {
    forall id ensures id in om <==> id in om' {
      HasIdIndexed(arr, om, id);
      HasIdIndexed(arr, om', id);
    }
    forall p ensures (p in lv <==> p in lv') && (p in lv ==> lv[p] == lv'[p]) {
      assert LevelIndexed(arr, side, lv, p) && LevelIndexed(arr, side, lv', p);
    }
    assert lv.Keys == lv'.Keys;
    assert om.Keys == om'.Keys;
    forall id | id in om ensures om[id] == om'[id] {
      assert om[id] in arr;
    }
    forall u ensures (u in um <==> u in um') && (u in um ==> um[u] == um'[u]) {
      assert UserIndexed(arr, um, u) && UserIndexed(arr, um', u);
    }
    assert um.Keys == um'.Keys;
  }

  lemma LevelAt(arr: seq<Order>, side: Side, lv: Levels, p: int)
    requires LevelsIndexed(arr, side, lv) && p in lv
    ensures lv[p] == LevelOf(arr, side, p)
  {
    assert LevelIndexed(arr, side, lv, p);
  }

  // ── How each list operation moves the indexes ─────────────────────────

  lemma LevelsInsert(arr: seq<Order>, o: Order, side: Side, lv: Levels)
    requires LevelsIndexed(arr, side, lv)
    ensures LevelsIndexed(arr + [o], side, if o.side == side then PushLevel(lv, o) else lv)
  {
    var lv' := if o.side == side then PushLevel(lv, o) else lv;
    forall p
      ensures LevelIndexed(arr + [o], side, lv', p)
    {
      assert LevelIndexed(arr, side, lv, p);
      var at := Keep(arr, AtLevel(side, p));
      KeepSnoc(arr, o, AtLevel(side, p));
      if o.side == side && o.price == p {
        SumConcat(at, [o]);
        assert Sum([o]) == o.remaining by { assert [o][1..] == []; }
        assert Ids(at + [o]) == Ids(at) + [o.orderId];
        assert p !in lv ==> at == [] && Sum(at) == 0 && Ids(at) == [];
      } else {
        assert at + [] == at;
      }
    }
  }

  lemma AtOwnLevel(arr: seq<Order>, o: Order)
    requires Distinct(arr) && o in arr
    ensures o in Keep(arr, AtLevel(o.side, o.price))
    ensures Distinct(Keep(arr, AtLevel(o.side, o.price)))
    ensures Lookup(Keep(arr, AtLevel(o.side, o.price)), o.orderId) == Some(o)
    ensures forall s, p :: s != o.side || p != o.price ==> !HasId(Keep(arr, AtLevel(s, p)), o.orderId)
  {
    KeepDistinct(arr, AtLevel(o.side, o.price));
    KeepIn(arr, AtLevel(o.side, o.price));
    LookupUnique(Keep(arr, AtLevel(o.side, o.price)), o);
    forall s, p | s != o.side || p != o.price
      ensures !HasId(Keep(arr, AtLevel(s, p)), o.orderId)
    {
      var at := Keep(arr, AtLevel(s, p));
      KeepIn(arr, AtLevel(s, p));
      if HasId(at, o.orderId) {
        var x := Lookup(at, o.orderId).value;
        SameIdSameOrder(arr, o, x);
      }
    }
  }

  lemma LevelWithout(arr: seq<Order>, o: Order, side: Side, p: int)
    requires Distinct(arr) && o in arr
    ensures LevelOf(Keep(arr, NotId(o.orderId)), side, p)
         == if o.side == side && o.price == p
            then Level(p, LevelOf(arr, side, p).totalQty - o.remaining,
                       Retain(LevelOf(arr, side, p).ids, o.orderId))
            else LevelOf(arr, side, p)
    ensures o.side == side && o.price == p ==> Keep(arr, AtLevel(side, p)) != []
  {
    AtOwnLevel(arr, o);
    var at := Keep(arr, AtLevel(side, p));
    KeepCommutes(arr, NotId(o.orderId), AtLevel(side, p));
    if o.side == side && o.price == p {
      SumWithout(at, o.orderId);
      RetainIds(at, o.orderId);
    } else {
      AbsentUnchanged(at, o.orderId, 0);
    }
  }

  lemma LevelNonEmpty(arr: seq<Order>, side: Side, p: int)
    ensures Keep(arr, AtLevel(side, p)) == [] <==> LevelOf(arr, side, p).ids == []
  {
  }

  lemma LevelRemoved(arr: seq<Order>, o: Order, side: Side, lv: Levels, p: int)
    requires Distinct(arr) && o in arr && LevelIndexed(arr, side, lv, p)
    ensures LevelIndexed(Keep(arr, NotId(o.orderId)), side,
                         if o.side == side then DropLevel(lv, o) else lv, p)
  {
    LevelWithout(arr, o, side, p);
    LevelNonEmpty(arr, side, p);
    LevelNonEmpty(Keep(arr, NotId(o.orderId)), side, p);
  }

  lemma LevelsRemove(arr: seq<Order>, o: Order, side: Side, lv: Levels)
    requires Distinct(arr) && o in arr && LevelsIndexed(arr, side, lv)
    ensures LevelsIndexed(Keep(arr, NotId(o.orderId)), side,
                          if o.side == side then DropLevel(lv, o) else lv)
  {
    hide Distinct, LevelIndexed;
    var arr', lv' := Keep(arr, NotId(o.orderId)), if o.side == side then DropLevel(lv, o) else lv;
    forall p
      ensures LevelIndexed(arr', side, lv', p)
    {
      LevelRemoved(arr, o, side, lv, p);
    }
  }

  lemma LevelResizedValue(arr: seq<Order>, o: Order, q: int, side: Side, p: int)
    requires Distinct(arr) && o in arr
    ensures LevelOf(SetQty(arr, o.orderId, q), side, p)
         == if o.side == side && o.price == p
            then Level(p, LevelOf(arr, side, p).totalQty - (o.remaining - q), LevelOf(arr, side, p).ids)
            else LevelOf(arr, side, p)
  {
    AtOwnLevel(arr, o);
    hide Distinct;
    var at := Keep(arr, AtLevel(side, p));
    KeepSetQty(arr, o.orderId, q, AtLevel(side, p));
    SetQtyAt(at, o.orderId, q);
    if o.side == side && o.price == p {
      SumSetQty(at, o.orderId, q);
    } else {
      AbsentUnchanged(at, o.orderId, q);
    }
  }

  lemma LevelResized(arr: seq<Order>, o: Order, q: int, side: Side, lv: Levels, p: int)
    requires Distinct(arr) && o in arr && LevelIndexed(arr, side, lv, p)
    ensures LevelIndexed(SetQty(arr, o.orderId, q), side,
                         if o.side == side then ShrinkLevel(lv, o.price, o.remaining - q) else lv, p)
  {
    LevelResizedValue(arr, o, q, side, p);
    LevelNonEmpty(arr, side, p);
    LevelNonEmpty(SetQty(arr, o.orderId, q), side, p);
  }

  lemma LevelsSetQty(arr: seq<Order>, o: Order, q: int, side: Side, lv: Levels)
    requires Distinct(arr) && o in arr && LevelsIndexed(arr, side, lv)
    ensures LevelsIndexed(SetQty(arr, o.orderId, q), side,
                          if o.side == side then ShrinkLevel(lv, o.price, o.remaining - q) else lv)
  {
    hide Distinct, LevelIndexed;
    var arr' := SetQty(arr, o.orderId, q);
    var lv' := if o.side == side then ShrinkLevel(lv, o.price, o.remaining - q) else lv;
    forall p
      ensures LevelIndexed(arr', side, lv', p)
    {
      LevelResized(arr, o, q, side, lv, p);
    }
  }

  lemma OrdersInsert(arr: seq<Order>, o: Order, orders: map<OrderId, Order>)
    requires OrdersIndexed(arr, orders) && o.orderId !in orders
    ensures OrdersIndexed(arr + [o], orders[o.orderId := o])
  {
  }

  lemma OrdersRemove(arr: seq<Order>, id: OrderId, orders: map<OrderId, Order>)
    requires OrdersIndexed(arr, orders)
    ensures OrdersIndexed(Keep(arr, NotId(id)), orders - {id})
  {
    KeepIn(arr, NotId(id));
  }

  lemma OrdersSetQty(arr: seq<Order>, o: Order, q: int, orders: map<OrderId, Order>)
    requires Distinct(arr) && OrdersIndexed(arr, orders) && o in arr
    ensures OrdersIndexed(SetQty(arr, o.orderId, q), orders[o.orderId := o.(remaining := q)])
  {
    hide Distinct, SetQty;
    var arr' := SetQty(arr, o.orderId, q);
    var orders' := orders[o.orderId := o.(remaining := q)];
    SetQtyAt(arr, o.orderId, q);
    forall x | x in arr'
      ensures x.orderId in orders' && orders'[x.orderId] == x
    {
      var i :| 0 <= i < |arr| && arr'[i] == x;
      if arr[i].orderId == o.orderId {
        SameIdSameOrder(arr, arr[i], o);
      }
    }
    forall id | id in orders'
      ensures orders'[id] in arr' && orders'[id].orderId == id
    {
      var i :| 0 <= i < |arr| && arr[i] == (if id == o.orderId then o else orders[id]);
      assert arr'[i] == orders'[id];
    }
  }

  lemma HasIdIndexed(arr: seq<Order>, orders: map<OrderId, Order>, id: OrderId)
    requires OrdersIndexed(arr, orders)
    ensures HasId(arr, id) <==> id in orders
  {
    if HasId(arr, id) {
      var i :| 0 <= i < |arr| && arr[i].orderId == id;
      assert arr[i] in arr;
    }
    if id in orders {
      var i :| 0 <= i < |arr| && arr[i] == orders[id];
    }
  }

  function PushUser(users: map<UserId, seq<OrderId>>, o: Order): map<UserId, seq<OrderId>> {
    users[o.userId := (if o.userId in users then users[o.userId] else []) + [o.orderId]]
  }

  function DropUser(users: map<UserId, seq<OrderId>>, o: Order): map<UserId, seq<OrderId>> {
    if o.userId in users then
      var ids := Retain(users[o.userId], o.orderId);
      if ids == [] then users - {o.userId} else users[o.userId := ids]
    else users
  }

  lemma UsersInsert(arr: seq<Order>, o: Order, users: map<UserId, seq<OrderId>>)
    requires UsersIndexed(arr, users)
    ensures UsersIndexed(arr + [o], PushUser(users, o))
  {
    forall u
      ensures UserIndexed(arr + [o], PushUser(users, o), u)
    {
      assert UserIndexed(arr, users, u);
      KeepSnoc(arr, o, OfUser(u));
      var mine := Keep(arr, OfUser(u));
      assert Ids(mine + [o]) == Ids(mine) + [o.orderId];
      assert mine + [] == mine;
    }
  }

  lemma UserWithout(arr: seq<Order>, o: Order, u: UserId)
    requires Distinct(arr) && o in arr
    ensures Ids(Keep(Keep(arr, NotId(o.orderId)), OfUser(u)))
         == if u == o.userId then Retain(Ids(Keep(arr, OfUser(u))), o.orderId) else Ids(Keep(arr, OfUser(u)))
    ensures u == o.userId ==> Keep(arr, OfUser(u)) != []
    ensures Keep(Keep(arr, NotId(o.orderId)), OfUser(u)) == [] <==>
            Ids(Keep(Keep(arr, NotId(o.orderId)), OfUser(u))) == []
    ensures Keep(arr, OfUser(u)) == [] <==> Ids(Keep(arr, OfUser(u))) == []
  {
    var mine := Keep(arr, OfUser(u));
    KeepIn(arr, OfUser(u));
    KeepCommutes(arr, NotId(o.orderId), OfUser(u));
    if u == o.userId {
      RetainIds(mine, o.orderId);
      assert o in mine;
    } else {
      if HasId(mine, o.orderId) {
        SameIdSameOrder(arr, o, Lookup(mine, o.orderId).value);
      }
      AbsentUnchanged(mine, o.orderId, 0);
    }
  }

  lemma UsersRemove(arr: seq<Order>, o: Order, users: map<UserId, seq<OrderId>>)
    requires Distinct(arr) && o in arr && UsersIndexed(arr, users)
    ensures UsersIndexed(Keep(arr, NotId(o.orderId)), DropUser(users, o))
  {
    forall u
      ensures UserIndexed(Keep(arr, NotId(o.orderId)), DropUser(users, o), u)
    {
      assert UserIndexed(arr, users, u);
      UserWithout(arr, o, u);
    }
  }

  lemma UsersSetQty(arr: seq<Order>, id: OrderId, q: int, users: map<UserId, seq<OrderId>>)
    requires UsersIndexed(arr, users)
    ensures UsersIndexed(SetQty(arr, id, q), users)
  {
    forall u
      ensures UserIndexed(SetQty(arr, id, q), users, u)
    {
      assert UserIndexed(arr, users, u);
      KeepSetQty(arr, id, q, OfUser(u));
      SetQtyAt(Keep(arr, OfUser(u)), id, q);
    }
  }

  lemma UsersCancelAll(arr: seq<Order>, u: UserId, users: map<UserId, seq<OrderId>>)
    requires UsersIndexed(arr, users)
    ensures UsersIndexed(Keep(arr, NotUser(u)), users - {u})
  {
    forall v
      ensures UserIndexed(Keep(arr, NotUser(u)), users - {u}, v)
    {
      assert UserIndexed(arr, users, v);
      KeepIn(arr, NotUser(u));
      KeepIn(arr, OfUser(v));
      if v == u {
        KeepNone(Keep(arr, NotUser(u)), OfUser(v));
      } else {
        KeepCommutes(arr, NotUser(u), OfUser(v));
        KeepAll(Keep(arr, OfUser(v)), NotUser(u));
      }
    }
  }

  // Dropping a user's orders one by one, front to back, leaves everyone else's.
  lemma CancelOneOf(arr: seq<Order>, u: UserId, all: seq<Order>, i: nat)
    requires Distinct(arr) && i < |all| && Keep(arr, OfUser(u)) == all[i..]
    ensures all[i] in arr && all[i].userId == u
    ensures Keep(Keep(arr, NotId(all[i].orderId)), OfUser(u)) == all[i + 1..]
    ensures Keep(Keep(arr, NotId(all[i].orderId)), NotUser(u)) == Keep(arr, NotUser(u))
  {
    var mine, id := Keep(arr, OfUser(u)), all[i].orderId;
    assert mine[0] == all[i] && mine[0] in mine;
    assert mine == [all[i]] + all[i + 1..];
    KeepDistinct(arr, OfUser(u));
    KeepIn(arr, OfUser(u));
    KeepCommutes(arr, NotId(id), OfUser(u));
    KeepConcat([all[i]], all[i + 1..], NotId(id));
    KeepNone([all[i]], NotId(id));
    KeepAll(all[i + 1..], NotId(id)) by {
      forall x | x in all[i + 1..] ensures NotId(id).Holds(x) {
        var k :| 0 <= k < |all[i + 1..]| && all[i + 1..][k] == x;
        assert mine[k + 1] == x;
      }
    }
    OthersKept(arr, all[i]);
  }

  lemma OthersKept(arr: seq<Order>, o: Order)
    requires Distinct(arr) && o in arr
    ensures Keep(Keep(arr, NotId(o.orderId)), NotUser(o.userId)) == Keep(arr, NotUser(o.userId))
  {
    KeepCommutes(arr, NotId(o.orderId), NotUser(o.userId));
    KeepIn(arr, NotUser(o.userId));
    forall x | x in Keep(arr, NotUser(o.userId)) ensures NotId(o.orderId).Holds(x) {
      if x.orderId == o.orderId { SameIdSameOrder(arr, x, o); }
    }
    KeepAll(Keep(arr, NotUser(o.userId)), NotId(o.orderId));
  }

  lemma OrderAt(arr: seq<Order>, orders: map<OrderId, Order>, o: Order)
    requires OrdersIndexed(arr, orders) && o in arr
    ensures o.orderId in orders && orders[o.orderId] == o
  {
  }

  lemma NoneOfUser(arr: seq<Order>, u: UserId)
    requires Keep(arr, OfUser(u)) == []
    ensures Keep(arr, NotUser(u)) == arr
  {
    KeepIn(arr, OfUser(u));
    forall o | o in arr ensures NotUser(u).Holds(o) {
      assert o !in Keep(arr, OfUser(u));
    }
    KeepAll(arr, NotUser(u));
  }

  // ── The book object ───────────────────────────────────────────────────

  class OrderBook {
    const symbol: SymbolId
    var bids: Levels
    var asks: Levels
    var orders: map<OrderId, Order>
    var userOrders: map<UserId, seq<OrderId>>
    ghost var arrivals: seq<Order>

    // All four maps except the owner index agree with the list.
    ghost predicate PlacedAs(arr: seq<Order>)
      reads this`orders, this`bids, this`asks
    {
      && Distinct(arr)
      && OrdersIndexed(arr, orders)
      && LevelsIndexed(arr, Buy, bids)
      && LevelsIndexed(arr, Sell, asks)
    }

    ghost predicate Valid()
      reads this
    {
      PlacedAs(arrivals) && UsersIndexed(arrivals, userOrders)
    }

    lemma Parts(side: Side)
      requires Valid()
      ensures Distinct(arrivals) && LevelsIndexed(arrivals, side, LevelsOf(side))
    {
    }

    constructor (symbol: SymbolId)
      ensures Valid() && arrivals == [] && this.symbol == symbol
    {
      this.symbol := symbol;
      bids, asks, orders, userOrders := map[], map[], map[], map[];
      arrivals := [];
    }

    function LevelsOf(side: Side): Levels
      reads this
    {
      if side.Buy? then bids else asks
    }

    function GetOrder(id: OrderId): (r: Option<Order>)
      requires Valid()
      reads this
      ensures r == Lookup(arrivals, id)
    {
      HasIdIndexed(arrivals, orders, id);
      if id in orders then
        LookupUnique(arrivals, orders[id]);
        Some(orders[id])
      else None
    }

    function GetUserOrders(user: UserId): (r: seq<OrderId>)
      requires Valid()
      reads this
      ensures r == Ids(Keep(arrivals, OfUser(user)))
    {
      assert UserIndexed(arrivals, userOrders, user);
      assert Ids([]) == [];
      if user in userOrders then userOrders[user] else []
    }

    // The best price on one side: the first key of its sorted map.
    function BestPrice(side: Side): (r: Option<int>)
      requires Valid()
      reads this
      ensures r.None? <==> Keep(arrivals, OnSide(side)) == []
      ensures r.Some? ==> exists o :: o in arrivals && o.side == side && o.price == r.value
      ensures r.Some? ==>
        forall o :: o in arrivals && o.side == side && o.price != r.value
                ==> Precedes(side, r.value, o.price)
    {
      LevelPrices(arrivals, side, LevelsOf(side));
      var prices := InOrder(LevelsOf(side).Keys, side);
      if prices == [] then None else Some(prices[0])
    }

    // Place an order at the back of its level; nothing is matched.
    method InsertOrder(order: Order)
      requires Valid() && !HasId(arrivals, order.orderId)
      modifies this
      ensures Valid() && arrivals == old(arrivals) + [order]
    {
      hide OrdersIndexed, LevelsIndexed, UsersIndexed, PushLevel, DropLevel, ShrinkLevel, PushUser, DropUser;
      HasIdIndexed(arrivals, orders, order.orderId);
      OrdersInsert(arrivals, order, orders);
      UsersInsert(arrivals, order, userOrders);
      LevelsInsert(arrivals, order, Buy, bids);
      LevelsInsert(arrivals, order, Sell, asks);
      orders := orders[order.orderId := order];
      userOrders := PushUser(userOrders, order);
      match order.side {
        case Buy => bids := PushLevel(bids, order);
        case Sell => asks := PushLevel(asks, order);
      }
      arrivals := arrivals + [order];
    }

    // Take an order out of the order index and its level.
    method Unplace(order: Order, ghost arr: seq<Order>)
      requires PlacedAs(arr) && order in arr
      modifies this`orders, this`bids, this`asks
      ensures PlacedAs(Keep(arr, NotId(order.orderId)))
      ensures orders == old(orders) - {order.orderId}
    {
      hide OrdersIndexed, LevelsIndexed, UsersIndexed, PushLevel, DropLevel, ShrinkLevel, PushUser, DropUser;
      KeepDistinct(arr, NotId(order.orderId));
      OrdersRemove(arr, order.orderId, orders);
      LevelsRemove(arr, order, Buy, bids);
      LevelsRemove(arr, order, Sell, asks);
      orders := orders - {order.orderId};
      match order.side
      case Buy => bids := DropLevel(bids, order);
      case Sell => asks := DropLevel(asks, order);
    }

    // Take an order off all four indexes, if it is there.
    method RemoveOrder(id: OrderId) returns (r: Option<Order>)
      requires Valid()
      modifies this
      ensures Valid() && r == Lookup(old(arrivals), id)
      ensures arrivals == Keep(old(arrivals), NotId(id))
    {
      hide OrdersIndexed, LevelsIndexed, UsersIndexed, PushLevel, DropLevel, ShrinkLevel, PushUser, DropUser;
      r := GetOrder(id);
      if r.None? {
        AbsentUnchanged(arrivals, id, 0);
        return;
      }
      UsersRemove(arrivals, r.value, userOrders);
      Unplace(r.value, arrivals);
      userOrders := DropUser(userOrders, r.value);
      arrivals := Keep(arrivals, NotId(id));
    }

    lemma CancelNext(arr: seq<Order>, u: UserId, all: seq<Order>, i: nat)
      requires PlacedAs(arr) && i < |all| && Keep(arr, OfUser(u)) == all[i..]
      ensures all[i] in arr && all[i].orderId in orders && orders[all[i].orderId] == all[i]
      ensures Keep(Keep(arr, NotId(all[i].orderId)), OfUser(u)) == all[i + 1..]
      ensures Keep(Keep(arr, NotId(all[i].orderId)), NotUser(u)) == Keep(arr, NotUser(u))
    {
      CancelOneOf(arr, u, all, i);
      OrderAt(arr, orders, all[i]);
    }

    // Take all of a user's orders off the book, oldest first.
    method CancelAllUserOrders(user: UserId) returns (canceled: seq<Order>)
      requires Valid()
      modifies this
      ensures Valid() && arrivals == Keep(old(arrivals), NotUser(user))
      ensures canceled == Keep(old(arrivals), OfUser(user))
    {
      hide OrdersIndexed, LevelsIndexed, UsersIndexed, PushLevel, DropLevel, ShrinkLevel, PushUser, DropUser,
           PlacedAs, Distinct, Keep;
      UsersCancelAll(arrivals, user, userOrders);
      var ids := GetUserOrders(user);
      userOrders := userOrders - {user};
      canceled := [];
      ghost var all := Keep(arrivals, OfUser(user));
      ghost var arr := arrivals;
      var i := 0;
      while i < |ids|
        invariant 0 <= i <= |ids| == |all| && ids == Ids(all)
        invariant canceled == all[..i]
        invariant PlacedAs(arr) && Keep(arr, OfUser(user)) == all[i..]
        invariant Keep(arr, NotUser(user)) == Keep(old(arrivals), NotUser(user))
        invariant userOrders == old(userOrders) - {user}
      {
        CancelNext(arr, user, all, i);
        if ids[i] in orders {
          var order := orders[ids[i]];
          Unplace(order, arr);
          canceled := canceled + [order];
          arr := Keep(arr, NotId(order.orderId));
        }
        i := i + 1;
      }
      NoneOfUser(arr, user);
      arrivals := arr;
    }

    // Resize a resting order; its level total follows.
    method UpdateQty(id: OrderId, newRemaining: int)
      requires Valid()
      modifies this
      ensures Valid() && arrivals == SetQty(old(arrivals), id, newRemaining)
    {
      hide OrdersIndexed, LevelsIndexed, UsersIndexed, PushLevel, DropLevel, ShrinkLevel, PushUser, DropUser;
      var found := GetOrder(id);
      if found.None? {
        AbsentUnchanged(arrivals, id, newRemaining);
        return;
      }
      var order := found.value;
      var diff := order.remaining - newRemaining;
      OrdersSetQty(arrivals, order, newRemaining, orders);
      UsersSetQty(arrivals, id, newRemaining, userOrders);
      LevelsSetQty(arrivals, order, newRemaining, Buy, bids);
      LevelsSetQty(arrivals, order, newRemaining, Sell, asks);
      SetQtyDistinct(arrivals, id, newRemaining);
      orders := orders[id := order.(remaining := newRemaining)];
      match order.side {
        case Buy => bids := ShrinkLevel(bids, order.price, diff);
        case Sell => asks := ShrinkLevel(asks, order.price, diff);
      }
      arrivals := SetQty(arrivals, id, newRemaining);
    }

    // Available quantity at or better than a given price, for FOK validation:
    // a sum over level totals that equals the sum over single orders.
    method AvailableQtyAtPrice(side: Side, limitPrice: int) returns (total: int)
      requires Valid()
      ensures total == Reachable(Keep(arrivals, OnSide(side.Opposite())), side, Some(limitPrice))
    {
      hide OrdersIndexed, LevelsIndexed, UsersIndexed, PushLevel, DropLevel, ShrinkLevel, PushUser, DropUser,
           Distinct, Keep;
      var opp := side.Opposite();
      var lv := LevelsOf(opp);
      var prices := InOrder(lv.Keys, opp);
      total := 0;
      var i := 0;
      while i < |prices| && !Precedes(opp, limitPrice, prices[i])
        invariant 0 <= i <= |prices|
        invariant total == LevelTotal(arrivals, opp, prices[..i])
        invariant forall j :: 0 <= j < i ==> !Precedes(opp, limitPrice, prices[j])
      {
        total := total + lv[prices[i]].totalQty;
        LevelTotalStep(arrivals, opp, lv, prices, i);
        i := i + 1;
      }
      ReachableByLevels(arrivals, opp, lv, prices, i, Some(limitPrice));
    }

    // Everything an order of the given side could trade with at any price.
    method TotalOppositeQty(side: Side) returns (total: int)
      requires Valid()
      ensures total == Reachable(Keep(arrivals, OnSide(side.Opposite())), side, None)
    {
      hide OrdersIndexed, LevelsIndexed, UsersIndexed, PushLevel, DropLevel, ShrinkLevel, PushUser, DropUser,
           Distinct, Keep;
      var opp := side.Opposite();
      var lv := LevelsOf(opp);
      var prices := InOrder(lv.Keys, opp);
      total := 0;
      for i := 0 to |prices|
        invariant total == LevelTotal(arrivals, opp, prices[..i])
      {
        total := total + lv[prices[i]].totalQty;
        LevelTotalStep(arrivals, opp, lv, prices, i);
      }
      ReachableByLevels(arrivals, opp, lv, prices, |prices|, None);
    }
  }

  lemma LevelPrices(arr: seq<Order>, side: Side, lv: Levels)
    requires LevelsIndexed(arr, side, lv)
    ensures forall o :: o in arr && o.side == side ==> o.price in lv
    ensures forall p :: p in lv ==> exists o :: o in arr && o.side == side && o.price == p
    ensures lv == map[] <==> Keep(arr, OnSide(side)) == []
  {
    KeepIn(arr, OnSide(side));
    forall o | o in arr && o.side == side ensures o.price in lv {
      assert LevelIndexed(arr, side, lv, o.price);
      KeepIn(arr, AtLevel(side, o.price));
    }
    forall p | p in lv ensures exists o :: o in arr && o.side == side && o.price == p {
      assert LevelIndexed(arr, side, lv, p);
      var at := Keep(arr, AtLevel(side, p));
      KeepIn(arr, AtLevel(side, p));
      assert at[0] in at;
    }
    if lv != map[] {
      var p := Pick(lv.Keys);
      var o :| o in arr && o.side == side && o.price == p;
      assert o in Keep(arr, OnSide(side));
    } else {
      KeepNone(arr, OnSide(side));
    }
  }

  // ── Depth: level totals against single orders ─────────────────────────

  // Whether a taker on `side` with the given limit (None: market) can trade
  // with an order resting at `price`.
  predicate Crosses(side: Side, limit: Option<int>, price: int) {
    limit.None? || !Precedes(side.Opposite(), limit.value, price)
  }

  // Quantity a taker can reach in a list of opposite orders.
  function Reachable(makers: seq<Order>, side: Side, limit: Option<int>): int {
    if makers == [] then 0
    else (if Crosses(side, limit, makers[0].price) then makers[0].remaining else 0)
         + Reachable(makers[1..], side, limit)
  }

  function LevelTotal(arr: seq<Order>, side: Side, prices: seq<int>): int {
    if prices == [] then 0
    else Sum(Keep(arr, AtLevel(side, prices[0]))) + LevelTotal(arr, side, prices[1..])
  }

  lemma {:induction false} LevelTotalSnoc(arr: seq<Order>, side: Side, prices: seq<int>, p: int)
    ensures LevelTotal(arr, side, prices + [p])
         == LevelTotal(arr, side, prices) + Sum(Keep(arr, AtLevel(side, p)))
  {
    if prices == [] {
      assert [p][1..] == [] && [] + [p] == [p];
    } else {
      assert (prices + [p])[1..] == prices[1..] + [p];
      LevelTotalSnoc(arr, side, prices[1..], p);
    }
  }

  lemma LevelTotalStep(arr: seq<Order>, side: Side, lv: Levels, prices: seq<int>, i: nat)
    requires LevelsIndexed(arr, side, lv) && i < |prices| && prices[i] in lv
    ensures LevelTotal(arr, side, prices[..i + 1])
         == LevelTotal(arr, side, prices[..i]) + lv[prices[i]].totalQty
  {
    LevelAt(arr, side, lv, prices[i]);
    LevelTotalSnoc(arr, side, prices[..i], prices[i]);
    assert prices[..i + 1] == prices[..i] + [prices[i]];
  }

  // One more arrival adds its quantity to exactly the level holding it.
  lemma {:induction false} LevelTotalCons(arr: seq<Order>, side: Side, prices: seq<int>)
    requires arr != []
    requires forall i, j :: 0 <= i < j < |prices| ==> prices[i] != prices[j]
    ensures LevelTotal(arr, side, prices) == LevelTotal(arr[1..], side, prices)
      + (if arr[0].side == side && arr[0].price in prices then arr[0].remaining else 0)
  {
    if prices != [] {
      LevelTotalCons(arr, side, prices[1..]);
      assert arr[0].price in prices <==> arr[0].price == prices[0] || arr[0].price in prices[1..];
      var p := prices[0];
      var rest := Keep(arr[1..], AtLevel(side, p));
      assert Sum(Keep(arr, AtLevel(side, p)))
          == (if AtLevel(side, p).Holds(arr[0]) then arr[0].remaining else 0) + Sum(rest) by {
        SumConcat([arr[0]], rest);
        assert [arr[0]][1..] == [];
      }
    }
  }

  lemma {:induction false} ReachableIsLevelTotal(arr: seq<Order>, opp: Side, prices: seq<int>,
                                                 limit: Option<int>)
    requires forall i, j :: 0 <= i < j < |prices| ==> prices[i] != prices[j]
    requires forall o :: o in arr && o.side == opp ==>
      (o.price in prices <==> Crosses(opp.Opposite(), limit, o.price))
    ensures Reachable(Keep(arr, OnSide(opp)), opp.Opposite(), limit) == LevelTotal(arr, opp, prices)
  {
    if arr == [] {
      EmptyLevels(opp, prices);
    } else {
      assert arr[0] in arr && forall o :: o in arr[1..] ==> o in arr;
      ReachableIsLevelTotal(arr[1..], opp, prices, limit);
      LevelTotalCons(arr, opp, prices);
      var rest := Keep(arr[1..], OnSide(opp));
      assert ([arr[0]] + rest)[1..] == rest;
    }
  }

  lemma {:induction false} EmptyLevels(side: Side, prices: seq<int>)
    ensures LevelTotal([], side, prices) == 0
  {
    if prices != [] {
      EmptyLevels(side, prices[1..]);
    }
  }

  lemma PrefixCrosses(prices: seq<int>, opp: Side, n: nat, limit: Option<int>, p: int)
    requires Ranked(prices, opp)
    requires n <= |prices| && p in prices
    requires forall j :: 0 <= j < n ==> Crosses(opp.Opposite(), limit, prices[j])
    requires n < |prices| ==> !Crosses(opp.Opposite(), limit, prices[n])
    ensures p in prices[..n] <==> Crosses(opp.Opposite(), limit, p)
  {
    var k :| 0 <= k < |prices| && prices[k] == p;
    if k < n {
      assert prices[..n][k] == p;
    } else {
      assert k == n || Precedes(opp, prices[n], prices[k]);
    }
  }

  // The visited prefix of a sorted side is exactly its crossing part.
  lemma ReachableByLevels(arr: seq<Order>, opp: Side, lv: Levels, prices: seq<int>, n: nat,
                          limit: Option<int>)
    requires LevelsIndexed(arr, opp, lv) && prices == InOrder(lv.Keys, opp) && n <= |prices|
    requires forall j :: 0 <= j < n ==> Crosses(opp.Opposite(), limit, prices[j])
    requires n < |prices| ==> !Crosses(opp.Opposite(), limit, prices[n])
    ensures Reachable(Keep(arr, OnSide(opp)), opp.Opposite(), limit)
         == LevelTotal(arr, opp, prices[..n])
  {
    hide LevelsIndexed, LevelTotal, Reachable, Keep;
    LevelPrices(arr, opp, lv);
    forall o | o in arr && o.side == opp
      ensures o.price in prices[..n] <==> Crosses(opp.Opposite(), limit, o.price)
    {
      PrefixCrosses(prices, opp, n, limit, o.price);
    }
    ReachableIsLevelTotal(arr, opp, prices[..n], limit);
  }
}
