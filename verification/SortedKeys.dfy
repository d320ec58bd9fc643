// Iteration order of the sorted maps that hold price levels.
module SortedKeys {
  import opened Common

  // Which of two prices on one side trades first: the higher bid, the lower ask.
  predicate Precedes(side: Side, a: int, b: int) {
    if side.Buy? then a > b else a < b
  }

  ghost predicate IsBest(b: int, keys: set<int>, side: Side) {
    b in keys && forall k :: k in keys && k != b ==> Precedes(side, b, k)
  }

  lemma {:induction false} BestExists(keys: set<int>, side: Side)
    requires keys != {}
    ensures exists b :: IsBest(b, keys, side)
    decreases |keys|
  {
    var k := Pick(keys);
    var rest := keys - {k};
    assert keys == rest + {k};
    if rest == {} {
      assert keys == {k};
      assert IsBest(k, keys, side);
    } else {
      BestExists(rest, side);
      var b :| IsBest(b, rest, side);
      assert IsBest(if Precedes(side, b, k) then b else k, keys, side);
    }
  }

  function Best(keys: set<int>, side: Side): (b: int)
    requires keys != {}
    ensures b in keys
    ensures forall k :: k in keys && k != b ==> Precedes(side, b, k)
  {
    BestExists(keys, side);
    assert exists b :: b in keys && forall k :: k in keys && k != b ==> Precedes(side, b, k) by {
      var b :| IsBest(b, keys, side);
    }
    var b :| b in keys && forall k :: k in keys && k != b ==> Precedes(side, b, k);
    b
  }

  ghost predicate Ranked(prices: seq<int>, side: Side) {
    forall i, j :: 0 <= i < j < |prices| ==> Precedes(side, prices[i], prices[j])
  }

  // The order in which a sorted map visits the prices of one side.
  function InOrder(keys: set<int>, side: Side): (r: seq<int>)
    ensures forall k :: k in r <==> k in keys
    ensures Ranked(r, side)
    decreases |keys|
  {
    if keys == {} then []
    else
      var b := Best(keys, side);
      [b] + InOrder(keys - {b}, side)
  }
}
