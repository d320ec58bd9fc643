// Fixed-point multiplication and division on 128-bit words: the 256-bit
// product, the binary long division, and the exact truncated result.
module Decimals {
  import opened Common
  import opened Bytes
  import opened Bits

  const HALF_WORD: nat := 0x1_0000_0000_0000_0000
  const WORD: nat := 0x1_0000_0000_0000_0000_0000_0000_0000_0000
  const I128_MAX: int := 0x7FFF_FFFF_FFFF_FFFF_FFFF_FFFF_FFFF_FFFF
  const I128_MIN: int := -I128_MAX - 1

  type U128 = x: nat | x < WORD
  type I128 = x: int | I128_MIN <= x <= I128_MAX

  predicate Fits(x: int) {
    I128_MIN <= x <= I128_MAX
  }

  // ── Machine operations ────────────────────────────────────────────────

  function WrappingAdd128(a: U128, b: U128): U128 {
    (a + b) % WORD
  }

  function WrappingSub128(a: U128, b: U128): U128 {
    (a - b) % WORD
  }

  function Shr(a: U128, bits: nat): U128
    requires bits < 128
  {
    DivideSmaller(a, Pow2(bits));
    a / Pow2(bits)
  }

  lemma DivideSmaller(a: nat, d: nat)
    requires d > 0
    ensures 0 <= a / d <= a
  {
    var q, r := Quotient(a, d);
    assert q == a / d by { RemainderIs(a, d, q, r); }
    MultipleSize(d - 1, q);
    assert q * d == q * (d - 1) + q;
    assert q * (d - 1) >= 0;
  }

  // ── The product ───────────────────────────────────────────────────────

  // A 256-bit product from four 64-bit parts, as high and low words. The mask
  // and the shift by 64 bits are the remainder and the quotient by 2^64.
  function MulU128(a: U128, b: U128): (U128, U128) {
    var aLo, aHi := a % HALF_WORD, a / HALF_WORD;
    var bLo, bHi := b % HALF_WORD, b / HALF_WORD;
    HalvesFit(aLo, bLo);
    HalvesFit(aLo, bHi);
    HalvesFit(aHi, bLo);
    HalvesFit(aHi, bHi);
    var ll: U128, lh: U128 := aLo * bLo, aLo * bHi;
    var hl: U128, hh: U128 := aHi * bLo, aHi * bHi;
    var midSum := WrappingAdd128(lh, hl);
    var midCarry := if midSum < lh then 1 else 0;
    var lo := WrappingAdd128(ll, (midSum * HALF_WORD) % WORD);
    var carryFromLo := if lo < ll then 1 else 0;
    var hi := WrappingAdd128(WrappingAdd128(WrappingAdd128(hh, midSum / HALF_WORD), midCarry * HALF_WORD), carryFromLo);
    (hi, lo)
  }

  lemma HalvesFit(x: nat, y: nat)
    requires x < HALF_WORD && y < HALF_WORD
    ensures 0 <= x * y < WORD
    ensures x * y <= (HALF_WORD - 1) * (HALF_WORD - 1)
  {
    assert x * y <= x * (HALF_WORD - 1) by { MulMonotone(x, y, HALF_WORD - 1); }
    MulMonotone(HALF_WORD - 1, x, HALF_WORD - 1);
  }

  lemma MulMonotone(a: nat, b: nat, c: nat)
    requires b <= c
    ensures 0 <= a * b <= a * c
  {
    var d := c - b;
    assert a * c == a * b + a * d;
  }

  lemma SplitProduct(aHi: nat, aLo: nat, bHi: nat, bLo: nat, k: nat)
    ensures (aHi * k + aLo) * (bHi * k + bLo) == aHi * bHi * k * k + (aLo * bHi + aHi * bLo) * k + aLo * bLo
  {
    calc {
      (aHi * k + aLo) * (bHi * k + bLo);
      aHi * k * (bHi * k) + aHi * k * bLo + aLo * (bHi * k) + aLo * bLo;
      { assert aHi * k * (bHi * k) == aHi * bHi * k * k; }
      { assert aHi * k * bLo == aHi * bLo * k; }
      { assert aLo * (bHi * k) == aLo * bHi * k; }
      aHi * bHi * k * k + aHi * bLo * k + aLo * bHi * k + aLo * bLo;
    }
  }

  // A wrapped sum and its carry are the sum.
  lemma AddCarry(a: nat, b: nat)
    requires a < WORD && b < WORD
    ensures var s := WrappingAdd128(a, b); a + b == s + (if s < a then 1 else 0) * WORD
  {
  }

  // Moving a word up by half a word: what stays and what leaves.
  lemma ShiftHalf(x: nat)
    requires x < WORD
    ensures (x * HALF_WORD) % WORD == x % HALF_WORD * HALF_WORD
    ensures x * HALF_WORD == x % HALF_WORD * HALF_WORD + x / HALF_WORD * WORD
  {
    var low, high := x % HALF_WORD, x / HALF_WORD;
    assert x == high * HALF_WORD + low;
    RemainderIs(x * HALF_WORD, WORD, high, low * HALF_WORD);
  }

  lemma NoWrap(a: nat, b: nat, c: nat, d: nat)
    requires a + b + c + d < WORD
    ensures WrappingAdd128(WrappingAdd128(WrappingAdd128(a, b), c), d) == a + b + c + d
  {
  }

  // The carries, with the four products as given numbers.
  lemma CarriesAddUp(ll: nat, lh: nat, hl: nat, hh: nat)
    requires ll < WORD && lh < WORD && hl < WORD && hh < WORD
    requires hh * WORD + (lh + hl) * HALF_WORD + ll < WORD * WORD
    ensures var midSum := WrappingAdd128(lh, hl);
      var midCarry := if midSum < lh then 1 else 0;
      var lo := WrappingAdd128(ll, (midSum * HALF_WORD) % WORD);
      var carryFromLo := if lo < ll then 1 else 0;
      var hi := WrappingAdd128(WrappingAdd128(WrappingAdd128(hh, midSum / HALF_WORD), midCarry * HALF_WORD),
          carryFromLo);
      hi * WORD + lo == hh * WORD + (lh + hl) * HALF_WORD + ll
  {
    hide WrappingAdd128;
    var midSum := WrappingAdd128(lh, hl);
    var midCarry := if midSum < lh then 1 else 0;
    AddCarry(lh, hl);
    ShiftHalf(midSum);
    var up := (midSum * HALF_WORD) % WORD;
    var lo := WrappingAdd128(ll, up);
    var carryFromLo := if lo < ll then 1 else 0;
    AddCarry(ll, up);
    NoWrap(hh, midSum / HALF_WORD, midCarry * HALF_WORD, carryFromLo);
  }

  // High and low words together are the whole product.
  lemma ProductExact(a: U128, b: U128)
    ensures var (hi, lo) := MulU128(a, b); hi * WORD + lo == a * b
  {
    var aLo, aHi := a % HALF_WORD, a / HALF_WORD;
    var bLo, bHi := b % HALF_WORD, b / HALF_WORD;
    HalvesFit(aLo, bLo);
    HalvesFit(aLo, bHi);
    HalvesFit(aHi, bLo);
    HalvesFit(aHi, bHi);
    SplitProduct(aHi, aLo, bHi, bLo, HALF_WORD);
    var ll, lh, hl, hh := aLo * bLo, aLo * bHi, aHi * bLo, aHi * bHi;
    assert a * b == hh * WORD + (lh + hl) * HALF_WORD + ll;
    assert hh * WORD + (lh + hl) * HALF_WORD + ll < WORD * WORD;
    CarriesAddUp(ll, lh, hl, hh);
  }

  // ── Long division ─────────────────────────────────────────────────────

  // What the first 128 - i bits of the low word bring the dividend to.
  function Brought(hi: nat, lo: nat, i: nat): int
    requires i <= 128
  {
    hi * Pow2(128 - i) + lo / Pow2(i)
  }

  lemma NextBit(x: nat, p: nat)
    requires p > 0
    ensures x / p == 2 * (x / (2 * p)) + x / p % 2
  {
    var q, r := Quotient(x, p);
    RemainderIs(x, p, q, r);
    var h, b := q / 2, q % 2;
    ByHalves(h, b, p);
    assert q == 2 * h + b;
    RemainderIs(x, 2 * p, h, if b == 0 then r else p + r);
  }

  lemma ByHalves(h: nat, b: nat, p: nat)
    requires b < 2
    ensures (2 * h + b) * p == h * (2 * p) + if b == 0 then 0 else p
  {
    HalfTimes(h, b, p);
  }

  lemma HalfTimes(h: nat, b: nat, p: nat)
    ensures (2 * h + b) * p == h * (2 * p) + b * p
  {
  }

  lemma {:induction false} BringNext(hi: nat, lo: nat, i: nat)
    requires i < 128
    ensures Brought(hi, lo, i) == 2 * Brought(hi, lo, i + 1) + lo / Pow2(i) % 2
  {
    hide Pow2;
    Pow2Step(128 - i);
    Pow2Step(i + 1);
    NextBit(lo, Pow2(i));
    Twice(hi, Pow2(127 - i));
  }

  // One step on the numbers: the remainder with the next bit, and whether the
  // divisor goes into it.
  lemma {:induction false} DivisionStep(hi: nat, lo: nat, d: nat, q: nat, rem: nat, i: nat)
    requires i < 128 && rem < d && q < Pow2(127 - i) && q * Pow2(i + 1) < WORD
    requires Brought(hi, lo, i + 1) == q * d + rem
    ensures var full := 2 * rem + lo / Pow2(i) % 2;
      && 0 <= full < 2 * d
      && Brought(hi, lo, i) == (2 * q) * d + full == (2 * q + 1) * d + (full - d)
      && 2 * q + 1 < Pow2(128 - i)
      && (2 * q) * Pow2(i) == q * Pow2(i + 1)
      && (2 * q + 1) * Pow2(i) == q * Pow2(i + 1) + Pow2(i) == Or(q * Pow2(i + 1), Pow2(i)) < WORD
  {
    hide Pow2, Or, Brought;
    BringNext(hi, lo, i);
    Associate(2, q, d);
    HalfTimes(q, 1, d);
    Twice(q, d);
    DoubleBit(q, i);
    OrBelow(q, i);
    BitFits(q, i);
  }

  // With i bits of the low word still to come: the quotient so far, which stands
  // i bits up, and the remainder so far.
  ghost predicate Dividing(hi: nat, lo: nat, d: nat, i: nat, q: nat, rem: nat, quot: nat) {
    && i <= 128 && rem < d && q < Pow2(128 - i)
    && quot == q * Pow2(i) && quot < WORD
    && Brought(hi, lo, i) == q * d + rem
  }

  // The bit that leaves the word is made up for by the subtraction.
  lemma ShiftedOut(rem: nat, bit: nat, d: nat)
    requires rem < d < WORD && bit < 2
    ensures var full, low := 2 * rem + bit, (2 * rem + bit) % WORD;
      var overflow := rem >= 0x8000_0000_0000_0000_0000_0000_0000_0000;
      && (overflow || low >= d <==> full >= d)
      && (full >= d ==> WrappingSub128(low, d) == full - d < d)
      && (full < d ==> low == full)
  {
  }

  lemma {:induction false} DividingNext(hi: nat, lo: nat, d: nat, i: nat, q: nat, rem: nat, quot: nat)
    requires d < WORD && i < 128 && Dividing(hi, lo, d, i + 1, q, rem, quot)
    ensures var bit := lo / Pow2(i) % 2;
      var low := (2 * rem + bit) % WORD;
      if rem >= 0x8000_0000_0000_0000_0000_0000_0000_0000 || low >= d
      then Or(quot, Pow2(i)) < WORD
           && Dividing(hi, lo, d, i, 2 * q + 1, WrappingSub128(low, d), Or(quot, Pow2(i)))
      else Dividing(hi, lo, d, i, 2 * q, low, quot)
  {
    hide Pow2, Or, Brought, WrappingSub128;
    DivisionStep(hi, lo, d, q, rem, i);
    ShiftedOut(rem, lo / Pow2(i) % 2, d);
  }

  lemma {:induction false} DividingStarts(hi: nat, lo: nat, d: nat)
    requires hi < d && lo < WORD
    ensures Dividing(hi, lo, d, 128, 0, hi, 0)
  {
    BroughtNone(hi, lo);
  }

  lemma {:induction false} DividingEnds(hi: nat, lo: nat, d: nat, q: nat, rem: nat, quot: nat)
    requires Dividing(hi, lo, d, 0, q, rem, quot)
    ensures d > 0 && quot == (hi * WORD + lo) / d
  {
    BroughtAll(hi, lo);
    RemainderIs(hi * WORD + lo, d, q, rem);
  }

  // 256-bit by 128-bit division; the largest word stands for a quotient too
  // large for one. A zero divisor aborts.
  method DivU256ByU128(hi: U128, lo: U128, d: U128) returns (quot: U128)
    requires d > 0
    ensures (hi * WORD + lo) / d < WORD ==> quot == (hi * WORD + lo) / d
    ensures (hi * WORD + lo) / d >= WORD ==> quot == WORD - 1
  {
    hide Pow2, Or, Dividing;
    if hi == 0 {
      DivideSmaller(lo, d);
      return lo / d;
    }
    if hi >= d {
      TooLarge(hi, lo, d);
      return WORD - 1;
    }
    quot := LongDivide(hi, lo, d);
  }

  // Binary long division, one quotient bit at a time.
  method LongDivide(hi: U128, lo: U128, d: U128) returns (quot: U128)
    requires hi < d
    ensures quot == (hi * WORD + lo) / d
  {
    hide Pow2, Or, Dividing;
    var rem: U128 := hi;
    quot := 0;
    var i: nat := 128;
    ghost var q: nat := 0;
    DividingStarts(hi, lo, d);
    while i > 0
      invariant i <= 128 && Dividing(hi, lo, d, i, q, rem, quot)
      decreases i
    {
      i := i - 1;
      DividingNext(hi, lo, d, i, q, rem, quot);
      var bit := Shr(lo, i) % 2;
      var overflow := rem >= 0x8000_0000_0000_0000_0000_0000_0000_0000;
      rem := ShiftIn(rem, bit);
      if overflow || rem >= d {
        rem := WrappingSub128(rem, d);
        quot := Or(quot, Pow2(i));
        q := 2 * q + 1;
      } else {
        q := 2 * q;
      }
    }
    DividingEnds(hi, lo, d, q, rem, quot);
  }

  // Doubling a word and bringing in a bit, dropping the bit that leaves.
  function ShiftIn(rem: U128, bit: nat): (r: U128)
    requires bit < 2
    ensures r == (2 * rem + bit) % WORD
  {
    EvenOr((2 * rem) % WORD, bit);
    Or((2 * rem) % WORD, bit)
  }

  lemma EvenOr(x: nat, bit: nat)
    requires x % 2 == 0 && bit < 2
    ensures Or(x, bit) == x + bit
  {
    OrZero(x);
    OrOdd(x / 2);
  }

  lemma TooLarge(hi: nat, lo: nat, d: nat)
    requires hi >= d > 0
    ensures (hi * WORD + lo) / d >= WORD
  {
    var n := hi * WORD + lo;
    var q, r := Quotient(n, d);
    RemainderIs(n, d, q, r);
    assert (q + 1) * d == q * d + d;
    if q < WORD { MulMonotone(d, q + 1, WORD); }
  }

  lemma {:induction false} BroughtNone(hi: nat, lo: nat)
    requires lo < WORD
    ensures Brought(hi, lo, 128) == hi && Pow2(128) == WORD && Pow2(0) == 1
  {
    Pow2Of64();
    Pow2Adds(64, 64);
    assert Pow2(0) == 1;
    RemainderIs(lo, WORD, 0, lo);
  }

  lemma {:induction false} BroughtAll(hi: nat, lo: nat)
    ensures Brought(hi, lo, 0) == hi * WORD + lo && Pow2(0) == 1
  {
    Pow2Of64();
    Pow2Adds(64, 64);
    assert Pow2(0) == 1;
    assert lo / 1 == lo;
  }

  lemma {:induction false} DoubleBit(q: nat, i: nat)
    ensures q * Pow2(i + 1) == (2 * q) * Pow2(i)
  {
    hide Pow2;
    Pow2Step(i + 1);
    Twice(q, Pow2(i));
  }

  lemma {:induction false} BitFits(q: nat, i: nat)
    requires i < 128 && q < Pow2(127 - i)
    ensures 2 * q + 1 < Pow2(128 - i) && (2 * q + 1) * Pow2(i) < WORD
    ensures (2 * q + 1) * Pow2(i) == q * Pow2(i + 1) + Pow2(i)
  {
    hide Pow2;
    Pow2Step(128 - i);
    Pow2Step(i + 1);
    Pow2Of64();
    Pow2Adds(64, 64);
    Pow2Adds(128 - i, i);
    MulMonotone(Pow2(i), 2 * q + 2, Pow2(128 - i));
    assert (2 * q + 2) * Pow2(i) == (2 * q + 1) * Pow2(i) + Pow2(i);
    HalfTimes(q, 1, Pow2(i));
  }

  // ── Checked arithmetic ────────────────────────────────────────────────

  // (a * b) / d through 256 bits, if the result fits.
  method WideMulDiv(a: I128, b: I128, d: I128) returns (r: Option<I128>)
    requires d != 0
    ensures r == if Fits(TruncDiv(a * b, d)) then Some(TruncDiv(a * b, d)) else None
  {
    var neg := ((a < 0) != (b < 0)) != (d < 0);
    var aAbs: U128, bAbs: U128 := Abs(a), Abs(b);
    var dAbs: U128 := Abs(d);
    var (prodHi, prodLo) := MulU128(aAbs, bAbs);
    ProductExact(aAbs, bAbs);
    var quot := DivU256ByU128(prodHi, prodLo, dAbs);
    SignedQuotient(a, b, d);
    if neg {
      if quot > I128_MAX + 1 { return None; }
      if quot == I128_MAX + 1 { return Some(I128_MIN); }
      return Some(-quot);
    }
    if quot > I128_MAX { return None; }
    return Some(quot);
  }

  lemma SignedQuotient(a: int, b: int, d: int)
    requires d != 0
    ensures var quot := (Abs(a) * Abs(b)) / Abs(d);
      TruncDiv(a * b, d) == if ((a < 0) != (b < 0)) != (d < 0) then -quot else quot
  {
    AbsProduct(a, b);
    if a == 0 || b == 0 {
      assert a * b == 0;
      ZeroQuotient(Abs(d));
    } else {
      assert a * b < 0 <==> (a < 0) != (b < 0) by { SignOfProduct(a, b); }
    }
  }

  lemma AbsProduct(a: int, b: int)
    ensures Abs(a * b) == Abs(a) * Abs(b)
  {
    SignOfProduct(a, b);
    assert (-a) * b == -(a * b) && a * (-b) == -(a * b) && (-a) * (-b) == a * b;
  }

  lemma SignOfProduct(a: int, b: int)
    ensures a > 0 && b > 0 ==> a * b > 0
    ensures a < 0 && b < 0 ==> a * b > 0
    ensures a > 0 && b < 0 ==> a * b < 0
    ensures a < 0 && b > 0 ==> a * b < 0
  {
  }

  lemma ZeroQuotient(d: nat)
    requires d > 0
    ensures 0 / d == 0
  {
  }

  // The truncation of a * b / 10^18, exactly when it fits; the same on the fast
  // path, whose product fits one word, and on the slow one.
  method CheckedMul(a: I128, b: I128) returns (r: Option<I128>)
    ensures r == if Fits(Mul(a, b)) then Some(Mul(a, b)) else None
  {
    if Fits(a * b) {
      QuotientFits(a * b, SCALE);
      return Some(TruncDiv(a * b, SCALE));
    }
    r := WideMulDiv(a, b, SCALE);
  }

  // The truncation of a * 10^18 / b, exactly when it fits; none for a zero
  // divisor. The fast path cannot divide the smallest word by minus one: that
  // would take a multiple of 5^18 that is a power of two.
  method CheckedDiv(a: I128, b: I128) returns (r: Option<I128>)
    ensures r == if b != 0 && Fits(Div(a, b)) then Some(Div(a, b)) else None
  {
    if b == 0 { return None; }
    if Fits(a * SCALE) {
      NeverSmallest(a);
      QuotientFits(a * SCALE, b);
      return Some(TruncDiv(a * SCALE, b));
    }
    r := WideMulDiv(a, SCALE, b);
  }

  // A machine division overflows only for the smallest word by minus one.
  lemma QuotientFits(x: int, d: int)
    requires Fits(x) && d != 0
    ensures Fits(TruncDiv(x, d)) <==> !(x == I128_MIN && d == -1)
  {
    DivideSmaller(Abs(x), Abs(d));
    if x == I128_MIN && d == -1 {
      assert Abs(x) / 1 == Abs(x);
    } else if Abs(d) > 1 && x == I128_MIN {
      var q, r := Quotient(Abs(x), Abs(d));
      RemainderIs(Abs(x), Abs(d), q, r);
      MulMonotone(q, 2, Abs(d));
    }
  }

  // No decimal raw value times 10^18 is -2^127.
  lemma NeverSmallest(a: int)
    ensures a * SCALE != I128_MIN
  {
    var x := a * 200_000_000_000_000_000;
    assert a * SCALE == 5 * x;
  }
}
