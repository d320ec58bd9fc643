// The order book seen as one list: resting orders in the order they were
// placed. Every index the book keeps (levels, totals, owner lists) is a
// function of this list, so two books with the same list are the same book.
module Arrivals {
  import opened Common

  datatype Order = Order(
    orderId: OrderId,
    userId: UserId,
    symbol: SymbolId,
    side: Side,
    price: int,
    remaining: int,
    original: int,
    orderType: OrderType,
    tif: TimeInForce,
    reduceOnly: bool,
    timestamp: Micros,
    visibleQty: Option<int>,
    hiddenQty: int,
    trailingDelta: Option<int>,
    trailingPeak: Option<int>,
    expireTime: Option<Micros>,
    clientOrderId: Option<nat>,
    stopPrice: Option<int>)

  datatype Selector =
    | AtLevel(side: Side, price: int)
    | OnSide(side: Side)
    | OfUser(user: UserId)
    | NotUser(user: UserId)
    | NotId(id: OrderId)
  {
    predicate Holds(o: Order) {
      match this
      case AtLevel(s, p) => o.side == s && o.price == p
      case OnSide(s) => o.side == s
      case OfUser(u) => o.userId == u
      case NotUser(u) => o.userId != u
      case NotId(i) => o.orderId != i
    }
  }

  function Keep(arr: seq<Order>, sel: Selector): seq<Order> {
    if arr == [] then []
    else if sel.Holds(arr[0]) then [arr[0]] + Keep(arr[1..], sel)
    else Keep(arr[1..], sel)
  }

  function Ids(arr: seq<Order>): (r: seq<OrderId>)
    ensures |r| == |arr|
    ensures forall i :: 0 <= i < |r| ==> r[i] == arr[i].orderId
  {
    seq(|arr|, i requires 0 <= i < |arr| => arr[i].orderId)
  }

  function Sum(arr: seq<Order>): int {
    if arr == [] then 0 else arr[0].remaining + Sum(arr[1..])
  }

  predicate HasId(arr: seq<Order>, id: OrderId) {
    exists i :: 0 <= i < |arr| && arr[i].orderId == id
  }

  ghost predicate Distinct(arr: seq<Order>) {
    forall i, j :: 0 <= i < j < |arr| ==> arr[i].orderId != arr[j].orderId
  }

  ghost predicate AllPositive(arr: seq<Order>) {
    forall o :: o in arr ==> o.remaining > 0
  }

  function Lookup(arr: seq<Order>, id: OrderId): (r: Option<Order>)
    ensures r.Some? <==> HasId(arr, id)
    ensures r.Some? ==> r.value in arr && r.value.orderId == id
  {
    if arr == [] then None
    else if arr[0].orderId == id then Some(arr[0])
    else
      HasIdTail(arr, id);
      Lookup(arr[1..], id)
  }

  // The list with one order's remaining quantity replaced.
  function Resized(o: Order, id: OrderId, q: int): Order {
    if o.orderId == id then o.(remaining := q) else o
  }

  function SetQty(arr: seq<Order>, id: OrderId, q: int): seq<Order> {
    if arr == [] then [] else [Resized(arr[0], id, q)] + SetQty(arr[1..], id, q)
  }

  // One maker reduced by a fill, and gone from the list once nothing remains.
  function Consume(arr: seq<Order>, id: OrderId, qty: int): seq<Order> {
    match Lookup(arr, id)
    case None => arr
    case Some(o) =>
      if o.remaining - qty == 0 then Keep(arr, NotId(id)) else SetQty(arr, id, o.remaining - qty)
  }

  function Retain(ids: seq<OrderId>, id: OrderId): seq<OrderId> {
    if ids == [] then []
    else if ids[0] != id then [ids[0]] + Retain(ids[1..], id)
    else Retain(ids[1..], id)
  }

  // ── Facts about the list ──────────────────────────────────────────────

  lemma {:induction false} KeepIn(arr: seq<Order>, sel: Selector)
    ensures forall o :: o in Keep(arr, sel) <==> o in arr && sel.Holds(o)
  {
    if arr != [] {
      KeepIn(arr[1..], sel);
    }
  }

  lemma {:induction false} SetQtyAt(arr: seq<Order>, id: OrderId, q: int)
    ensures |SetQty(arr, id, q)| == |arr|
    ensures forall i :: 0 <= i < |arr| ==> SetQty(arr, id, q)[i] == Resized(arr[i], id, q)
    ensures Ids(SetQty(arr, id, q)) == Ids(arr)
  {
    if arr != [] {
      SetQtyAt(arr[1..], id, q);
    }
  }

  lemma {:induction false} KeepConcat(a: seq<Order>, b: seq<Order>, sel: Selector)
    ensures Keep(a + b, sel) == Keep(a, sel) + Keep(b, sel)
  {
    if a == [] {
      assert a + b == b;
    } else {
      assert (a + b)[1..] == a[1..] + b;
      KeepConcat(a[1..], b, sel);
      var h := [a[0]];
      assert h + (Keep(a[1..], sel) + Keep(b, sel)) == (h + Keep(a[1..], sel)) + Keep(b, sel);
    }
  }

  lemma KeepSnoc(a: seq<Order>, o: Order, sel: Selector)
    ensures Keep(a + [o], sel) == Keep(a, sel) + (if sel.Holds(o) then [o] else [])
  {
    KeepConcat(a, [o], sel);
    assert [o][1..] == [];
  }

  lemma {:induction false} SumConcat(a: seq<Order>, b: seq<Order>)
    ensures Sum(a + b) == Sum(a) + Sum(b)
  {
    if a == [] {
      assert a + b == b;
    } else {
      assert (a + b)[1..] == a[1..] + b;
      SumConcat(a[1..], b);
    }
  }

  lemma {:induction false} KeepCommutes(arr: seq<Order>, s: Selector, t: Selector)
    ensures Keep(Keep(arr, s), t) == Keep(Keep(arr, t), s)
  {
    if arr != [] {
      KeepCommutes(arr[1..], s, t);
      var ks, kt := Keep(arr[1..], s), Keep(arr[1..], t);
      assert ([arr[0]] + ks)[1..] == ks && ([arr[0]] + kt)[1..] == kt;
    }
  }

  lemma {:induction false} KeepAll(arr: seq<Order>, sel: Selector)
    requires forall o :: o in arr ==> sel.Holds(o)
    ensures Keep(arr, sel) == arr
  {
    if arr != [] {
      KeepAll(arr[1..], sel);
    }
  }

  lemma {:induction false} KeepNone(arr: seq<Order>, sel: Selector)
    requires forall o :: o in arr ==> !sel.Holds(o)
    ensures Keep(arr, sel) == []
  {
    if arr != [] {
      KeepNone(arr[1..], sel);
    }
  }

  lemma {:induction false} KeepDistinct(arr: seq<Order>, sel: Selector)
    requires Distinct(arr)
    ensures Distinct(Keep(arr, sel))
  {
    if arr != [] {
      KeepDistinct(arr[1..], sel);
      KeepIn(arr[1..], sel);
      var tail := Keep(arr[1..], sel);
      forall j | 0 <= j < |tail|
        ensures tail[j].orderId != arr[0].orderId
      {
        assert tail[j] in arr[1..];
        var k :| 0 <= k < |arr[1..]| && arr[1..][k] == tail[j];
        assert arr[k + 1] == tail[j];
      }
    }
  }

  lemma LookupUnique(arr: seq<Order>, o: Order)
    requires Distinct(arr) && o in arr
    ensures Lookup(arr, o.orderId) == Some(o)
  {
    var i :| 0 <= i < |arr| && arr[i] == o;
    assert HasId(arr, o.orderId);
    var r := Lookup(arr, o.orderId).value;
    var j :| 0 <= j < |arr| && arr[j] == r;
    assert i == j;
  }

  lemma SameIdSameOrder(arr: seq<Order>, a: Order, b: Order)
    requires Distinct(arr) && a in arr && b in arr && a.orderId == b.orderId
    ensures a == b
  {
    LookupUnique(arr, a);
    LookupUnique(arr, b);
  }

  lemma {:induction false} RetainIds(arr: seq<Order>, id: OrderId)
    ensures Ids(Keep(arr, NotId(id))) == Retain(Ids(arr), id)
  {
    if arr == [] {
      assert Ids(arr) == [];
    } else {
      RetainIds(arr[1..], id);
      assert Ids(arr)[0] == arr[0].orderId;
      assert Ids(arr)[1..] == Ids(arr[1..]);
      assert arr[0].orderId != id ==>
        Ids(Keep(arr, NotId(id))) == [arr[0].orderId] + Ids(Keep(arr[1..], NotId(id)));
    }
  }

  lemma {:induction false} SumWithout(arr: seq<Order>, id: OrderId)
    requires Distinct(arr)
    ensures Sum(Keep(arr, NotId(id)))
         == Sum(arr) - (if HasId(arr, id) then Lookup(arr, id).value.remaining else 0)
  {
    if arr != [] {
      HasIdTail(arr, id);
      if arr[0].orderId == id {
        forall x | x in arr[1..] ensures NotId(id).Holds(x) {
          var k :| 0 <= k < |arr[1..]| && arr[1..][k] == x;
          assert arr[k + 1] == x;
        }
        KeepAll(arr[1..], NotId(id));
        LookupUnique(arr, arr[0]);
      } else {
        SumWithout(arr[1..], id);
        SumConcat([arr[0]], Keep(arr[1..], NotId(id)));
      }
    }
  }

  lemma HasIdTail(arr: seq<Order>, id: OrderId)
    requires arr != []
    ensures HasId(arr, id) <==> arr[0].orderId == id || HasId(arr[1..], id)
  {
    if HasId(arr, id) && arr[0].orderId != id {
      var i :| 0 <= i < |arr| && arr[i].orderId == id;
      assert arr[1..][i - 1].orderId == id;
    }
    if HasId(arr[1..], id) {
      var i :| 0 <= i < |arr[1..]| && arr[1..][i].orderId == id;
      assert arr[i + 1].orderId == id;
    }
  }

  lemma {:induction false} KeepSetQty(arr: seq<Order>, id: OrderId, q: int, sel: Selector)
    ensures Keep(SetQty(arr, id, q), sel) == SetQty(Keep(arr, sel), id, q)
  {
    if arr != [] {
      KeepSetQty(arr[1..], id, q, sel);
      var h' := Resized(arr[0], id, q);
      var tail := Keep(arr[1..], sel);
      assert sel.Holds(h') == sel.Holds(arr[0]);
      assert SetQty(arr, id, q)[1..] == SetQty(arr[1..], id, q);
      assert ([arr[0]] + tail)[1..] == tail;
    }
  }

  lemma {:induction false} SumSetQty(arr: seq<Order>, id: OrderId, q: int)
    requires Distinct(arr)
    ensures Sum(SetQty(arr, id, q))
         == Sum(arr) + (if HasId(arr, id) then q - Lookup(arr, id).value.remaining else 0)
  {
    if arr != [] {
      assert SetQty(arr, id, q)[1..] == SetQty(arr[1..], id, q);
      SumSetQty(arr[1..], id, q);
      if arr[0].orderId == id {
        assert HasId(arr, id);
        LookupUnique(arr, arr[0]);
        assert !HasId(arr[1..], id);
      } else if HasId(arr, id) {
        var i :| 0 <= i < |arr| && arr[i].orderId == id;
        assert arr[1..][i - 1].orderId == id;
        LookupUnique(arr, Lookup(arr[1..], id).value);
      } else {
        assert !HasId(arr[1..], id);
      }
    }
  }

  lemma SetQtyDistinct(arr: seq<Order>, id: OrderId, q: int)
    requires Distinct(arr)
    ensures Distinct(SetQty(arr, id, q))
  {
    SetQtyAt(arr, id, q);
  }

  lemma AbsentUnchanged(arr: seq<Order>, id: OrderId, q: int)
    requires !HasId(arr, id)
    ensures SetQty(arr, id, q) == arr
    ensures Keep(arr, NotId(id)) == arr
  {
    assert forall o :: o in arr ==> o.orderId != id;
    KeepAll(arr, NotId(id));
    SetQtyAt(arr, id, q);
  }

  lemma GoneId(arr: seq<Order>, id: OrderId)
    ensures !HasId(Keep(arr, NotId(id)), id)
  {
    KeepIn(arr, NotId(id));
    var r := Keep(arr, NotId(id));
    forall i | 0 <= i < |r| ensures r[i].orderId != id { assert r[i] in r; }
  }
}
