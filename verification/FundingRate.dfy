// The funding rate: premium plus interest, clamped to three quarters of a percent.
module FundingRate {
  import opened Common
  import opened Rounding

  const RATE_BOUND: int := 7_500_000_000_000_000

  function CalcFundingRate(premiumIndex: int, interestRate: int): int {
    Min(Max(premiumIndex + interestRate, -RATE_BOUND), RATE_BOUND)
  }

  // How far the mark stands above the index, as a fraction of the index.
  function Premium(mark: int, index: int): int {
    if index == 0 then 0 else Div(mark - index, index)
  }

  predicate InBounds(rate: int) {
    -RATE_BOUND <= rate <= RATE_BOUND
  }

  // No rate within bounds is closer to the target.
  ghost predicate Nearest(rate: int, target: int) {
    InBounds(rate) && forall other :: InBounds(other) ==> Abs(rate - target) <= Abs(other - target)
  }

  // The clamp is the nearest rate within bounds.
  lemma RateIsClamped(premiumIndex: int, interestRate: int)
    ensures Nearest(CalcFundingRate(premiumIndex, interestRate), premiumIndex + interestRate)
  {
  }

  // The premium misses the exact fraction by less than one raw unit, and never
  // falls when the mark rises.
  lemma PremiumIsFraction(mark: int, index: int, higher: int)
    requires index != 0 && mark <= higher
    ensures Abs(Premium(mark, index) * index - (mark - index) * SCALE) < Abs(index)
    ensures index > 0 ==> Premium(mark, index) <= Premium(higher, index)
    ensures Premium(index, index) == 0
  {
    var a, b := (mark - index) * SCALE, (higher - index) * SCALE;
    TruncError(a, index);
    if index > 0 { TruncMonotone(a, b, index); }
    assert (index - index) * SCALE == 0;
    assert TruncDiv(0, index) == 0;
  }

  lemma TruncMonotone(a: int, b: int, d: int)
    requires d > 0 && a <= b
    ensures TruncDiv(a, d) <= TruncDiv(b, d)
  {
    hide TruncDiv;
    TruncCases(a, d);
    TruncCases(b, d);
    if 0 <= a {
      Quotients(a, b, d);
    } else if b < 0 {
      Quotients(-b, -a, d);
    }
  }

  lemma TruncCases(a: int, d: int)
    requires d > 0
    ensures TruncDiv(a, d) == if a >= 0 then a / d else -((-a) / d)
    ensures a >= 0 ==> TruncDiv(a, d) >= 0
    ensures a < 0 ==> TruncDiv(a, d) <= 0
  {
  }

  lemma Quotients(a: nat, b: nat, d: int)
    requires a <= b && d > 0
    ensures a / d <= b / d
  {
    var q, r := a / d, b / d;
    DivMod(a, d);
    DivMod(b, d);
    if q > r {
      NextMultiple(q, r, d);
    }
  }
}
