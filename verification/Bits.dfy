// Bitwise arithmetic on natural numbers and wrap-around at 64 bits.
module Bits {
  import opened Bytes
  import opened Common

  function Pow2(k: nat): (r: nat)
    ensures r > 0
  {
    if k == 0 then 1 else 2 * Pow2(k - 1)
  }

  // Bitwise and.
  function And(x: nat, y: nat): nat {
    if x == 0 || y == 0 then 0 else (x % 2) * (y % 2) + 2 * And(x / 2, y / 2)
  }

  // Bitwise or.
  function Or(x: nat, y: nat): nat {
    if x == 0 then y else if y == 0 then x
    else Max(x % 2, y % 2) + 2 * Or(x / 2, y / 2)
  }

  lemma OrDouble(x: nat, y: nat)
    ensures Or(2 * x, 2 * y) == 2 * Or(x, y)
  {
  }

  lemma OrOdd(x: nat)
    ensures Or(2 * x, 1) == 2 * x + 1
  {
    OrZero(x);
  }

  // Setting a bit below all the bits of a number adds it.
  lemma {:induction false} OrBelow(q: nat, i: nat)
    ensures Or(q * Pow2(i + 1), Pow2(i)) == q * Pow2(i + 1) + Pow2(i)
    decreases i
  {
    hide Or, Pow2;
    Pow2Step(i + 1);
    Pow2Step(i);
    Twice(q, Pow2(i));
    if i == 0 {
      OrOdd(q);
    } else {
      OrBelow(q, i - 1);
      OrDouble(q * Pow2(i), Pow2(i - 1));
    }
  }

  lemma Twice(q: nat, p: nat)
    ensures q * (2 * p) == 2 * (q * p) && q * p >= 0
  {
  }

  lemma OrZero(x: nat)
    ensures Or(x, 0) == x && Or(0, x) == x
  {
  }

  // Masking with one less than a power of two is the remainder by that power.
  lemma {:induction false} MaskIsRemainder(x: nat, k: nat)
    ensures And(x, Pow2(k) - 1) == x % Pow2(k)
    decreases k
  {
    hide And, Pow2;
    AndZero(x);
    Pow2Step(k);
    if k == 0 {
      assert x % 1 == 0;
    } else {
      var p := Pow2(k - 1);
      MaskIsRemainder(x / 2, k - 1);
      AndStep(x, p - 1);
      HalveRemainder(x, p);
      assert 2 * (p - 1) + 1 == Pow2(k) - 1;
    }
  }

  lemma AndZero(x: nat)
    ensures And(x, 0) == 0
  {
  }

  lemma Pow2Step(k: nat)
    ensures Pow2(k) == if k == 0 then 1 else 2 * Pow2(k - 1)
  {
  }

  lemma AndStep(x: nat, half: nat)
    ensures And(x, 2 * half + 1) == x % 2 + 2 * And(x / 2, half)
  {
    var y := 2 * half + 1;
    assert y % 2 == 1 && y / 2 == half;
    assert x == 0 ==> And(x / 2, half) == 0;
  }

  lemma HalveRemainder(x: nat, p: nat)
    requires p > 0
    ensures x % (2 * p) == x % 2 + 2 * ((x / 2) % p)
  {
    var h := x / 2;
    var q, r := h / p, h % p;
    assert h == q * p + r;
    assert x == q * (2 * p) + (x % 2 + 2 * r) by {
      assert x == 2 * h + x % 2;
    }
    RemainderIs(x, 2 * p, q, x % 2 + 2 * r);
  }

  lemma RemainderIs(x: nat, d: nat, q: nat, r: nat)
    requires d > 0 && x == q * d + r && r < d
    ensures x % d == r && x / d == q
  {
    var q', r' := x / d, x % d;
    Difference(q, q', d);
    MultipleSize(q - q', d);
  }

  lemma MultipleSize(k: int, d: nat)
    ensures k >= 1 ==> k * d >= d
    ensures k <= -1 ==> k * d + d <= 0
  {
    assert k >= 1 ==> (k - 1) * d >= 0;
    assert k <= -1 ==> (-k - 1) * d >= 0;
  }

  lemma {:induction false} Pow2Adds(a: nat, b: nat)
    ensures Pow2(a + b) == Pow2(a) * Pow2(b)
  {
    if a > 0 {
      Pow2Adds(a - 1, b);
      assert Pow2(a + b) == 2 * Pow2(a - 1 + b);
    }
  }

  lemma {:induction false} Pow2Of64()
    ensures Pow2(64) == U64_LIMIT
  {
    Pow2Of8();
    hide Pow2;
    Pow2Adds(8, 8);
    Pow2Adds(16, 16);
    Pow2Adds(32, 32);
  }

  lemma Pow2Of8()
    ensures Pow2(8) == 256
  {
    assert Pow2(4) == 16;
  }

  lemma RemainderOfRemainder(x: nat, a: nat, b: nat)
    requires a > 0 && b > 0
    ensures a * b > 0 && (x % (a * b)) % b == x % b
  {
    MultipleSize(a, b);
    var m := a * b;
    var q, r := Quotient(x, m);
    var q', r' := Quotient(r, b);
    Regroup(q, a, b, q');
    RemainderIs(x, b, q * a + q', r');
  }

  lemma Quotient(x: nat, d: nat) returns (q: nat, r: nat)
    requires d > 0
    ensures x == q * d + r && r == x % d && r < d
  {
    q, r := x / d, x % d;
  }

  lemma Regroup(q: nat, a: nat, b: nat, q': nat)
    ensures q * (a * b) + q' * b == (q * a + q') * b
  {
    Associate(q, a, b);
    var more: int := q';
    Difference(q * a, -more, b);
  }

  lemma Associate(a: int, b: int, c: int)
    ensures a * (b * c) == (a * b) * c
  {
  }

  // Counters wrap at 2^64.
  function WrappingAdd(a: nat, b: nat): nat {
    (a + b) % U64_LIMIT
  }

  function WrappingSub(a: nat, b: nat): nat {
    (a - b) % U64_LIMIT
  }

  // The difference of two wrapped counters is their true difference, if that is
  // less than 2^64.
  lemma WrappedDifference(a: nat, b: nat)
    requires b <= a < b + U64_LIMIT
    ensures WrappingSub(a % U64_LIMIT, b % U64_LIMIT) == a - b
  {
    var w := U64_LIMIT;
    assert a == (a / w) * w + a % w && b == (b / w) * w + b % w;
  }

  lemma WrappedNext(a: nat)
    ensures WrappingAdd(a % U64_LIMIT, 1) == (a + 1) % U64_LIMIT
  {
  }

  // A wrapped counter, masked, still finds slot number `i` modulo the slots.
  lemma MaskedIndex(i: nat, k: nat)
    requires k <= 64
    ensures And(i % U64_LIMIT, Pow2(k) - 1) == i % Pow2(k)
  {
    Pow2Of64();
    Pow2Adds(64 - k, k);
    MaskIsRemainder(i % U64_LIMIT, k);
    RemainderOfRemainder(i, Pow2(64 - k), Pow2(k));
  }
}
