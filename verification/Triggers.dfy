// Stop orders: the swap-remove sweeps over them, and trailing peaks.
module Triggers {
  import opened Common
  import opened Arrivals
  import opened OrderBooks
  import opened Matcher
  import opened EngineSpec

  // Stop orders have ids of their own, different from each other and from
  // every id on the book.
  ghost predicate Apart(stops: seq<Order>, arr: seq<Order>) {
    Distinct(stops) && forall o :: o in stops ==> !HasId(arr, o.orderId)
  }

  lemma SwapRemoveIs(s: seq<Order>, i: nat)
    requires i < |s|
    ensures multiset(SwapRemove(s, i)) + multiset{s[i]} == multiset(s)
    ensures forall j :: 0 <= j < i ==> SwapRemove(s, i)[j] == s[j]
  {
    var last := s[|s| - 1];
    var u := s[i := last];
    assert multiset(u) == multiset(s) - multiset{s[i]} + multiset{last};
    assert u == SwapRemove(s, i) + [last];
    assert multiset(u) == multiset(SwapRemove(s, i)) + multiset{last};
  }

  lemma SwapRemoveDistinct(s: seq<Order>, i: nat)
    requires i < |s| && Distinct(s)
    ensures Distinct(SwapRemove(s, i)) && !HasId(SwapRemove(s, i), s[i].orderId)
    ensures forall o :: o in SwapRemove(s, i) ==> o in s
  {
    var r, last := SwapRemove(s, i), s[|s| - 1];
    assert forall j :: 0 <= j < |r| ==> r[j] == if j == i then last else s[j];
  }

  // The sweep splits the list exactly by its test: nothing lost, nothing
  // invented, everything taken passes and nothing kept does.
  lemma {:induction false} SweepSplits(s: seq<Order>, i: nat, test: StopTest)
    requires i <= |s|
    requires forall j :: 0 <= j < i ==> !test.Picks(s[j])
    ensures var (kept, taken) := Sweep(s, i, test);
      && multiset(kept) + multiset(taken) == multiset(s)
      && (forall o :: o in kept ==> !test.Picks(o))
      && (forall o :: o in taken ==> test.Picks(o))
    decreases |s| - i
  {
    if i < |s| {
      if test.Picks(s[i]) {
        SwapRemoveIs(s, i);
        SweepSplits(SwapRemove(s, i), i, test);
        var (kept, taken) := Sweep(SwapRemove(s, i), i, test);
        assert multiset([s[i]] + taken) == multiset{s[i]} + multiset(taken);
      } else {
        SweepSplits(s, i + 1, test);
      }
    }
  }

  lemma SweepMembers(s: seq<Order>, test: StopTest)
    ensures var (kept, taken) := Sweep(s, 0, test);
      && (forall o :: o in s && !test.Picks(o) <==> o in kept)
      && (forall o :: o in s && test.Picks(o) <==> o in taken)
  {
    SweepSplits(s, 0, test);
    var (kept, taken) := Sweep(s, 0, test);
    forall o
      ensures o in s <==> o in kept || o in taken
    {
      assert o in multiset(s) <==> o in multiset(kept) || o in multiset(taken);
    }
  }

  lemma {:induction false} SweepDistinct(s: seq<Order>, i: nat, test: StopTest)
    requires i <= |s| && Distinct(s)
    ensures var (kept, taken) := Sweep(s, i, test);
      && Distinct(kept) && Distinct(taken)
      && (forall o :: o in kept ==> o in s)
      && (forall o :: o in taken ==> o in s && !HasId(kept, o.orderId))
    decreases |s| - i
  {
    if i < |s| {
      if test.Picks(s[i]) {
        var s' := SwapRemove(s, i);
        SwapRemoveDistinct(s, i);
        SweepDistinct(s', i, test);
        var (kept, taken) := Sweep(s', i, test);
        NotInPart(s', kept, s[i].orderId);
        NotInPart(s', taken, s[i].orderId);
      } else {
        SweepDistinct(s, i + 1, test);
      }
    }
  }

  lemma NotInPart(s: seq<Order>, part: seq<Order>, id: OrderId)
    requires !HasId(s, id) && forall o :: o in part ==> o in s
    ensures !HasId(part, id)
  {
    forall i | 0 <= i < |part| ensures part[i].orderId != id {
      assert part[i] in part;
    }
  }

  // Triggered orders can enter the book one after the other.
  lemma TriggerOneIds(arr: seq<Order>, o: Order, timestamp: Micros, x: OrderId)
    requires !HasId(arr, x) && x != o.orderId
    ensures !HasId(TriggerOne(arr, o, timestamp).0, x)
  {
    MatchIds(arr, Promote(o), x);
    var m := Match(arr, Promote(o));
    assert m.taker.orderId == o.orderId;
    forall i | 0 <= i < |TriggerOne(arr, o, timestamp).0|
      ensures TriggerOne(arr, o, timestamp).0[i].orderId != x
    {
      if i < |m.arr| { assert m.arr[i].orderId != x; }
    }
  }
}
