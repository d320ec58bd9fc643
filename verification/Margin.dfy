// Tiered maintenance margin: the closed form, notional times rate minus an
// amount, against the bracket-by-bracket sum it stands for.
module Margin {
  import opened Common

  datatype MarginTier = MarginTier(floor: int, cap: int, rate: int, amount: int)

  function Formula(notional: int, t: MarginTier): int {
    Mul(notional, t.rate) - t.amount
  }

  // The formula of the first tier that contains the notional; above all tiers,
  // that of the last.
  function CalcMaintenanceMargin(notional: int, tiers: seq<MarginTier>): int {
    var k := TierOf(notional, tiers);
    if k < |tiers| then Formula(notional, tiers[k])
    else if tiers != [] && notional >= tiers[|tiers| - 1].floor then Formula(notional, tiers[|tiers| - 1])
    else 0
  }

  function TierOf(notional: int, tiers: seq<MarginTier>): (k: nat)
    ensures k <= |tiers|
    ensures k < |tiers| ==> tiers[k].floor <= notional < tiers[k].cap
    ensures forall j :: 0 <= j < k ==> !(tiers[j].floor <= notional < tiers[j].cap)
  {
    if tiers == [] || tiers[0].floor <= notional < tiers[0].cap then 0 else 1 + TierOf(notional, tiers[1..])
  }

  // A schedule that starts at zero and is contiguous, with non-negative rates
  // and each amount making up for the change of rate at its floor.
  ghost predicate Schedule(tiers: seq<MarginTier>) {
    && tiers != [] && tiers[0].floor == 0 && tiers[0].amount == 0
    && (forall k :: 0 <= k < |tiers| ==> tiers[k].rate >= 0 && tiers[k].floor <= tiers[k].cap)
    && (forall k {:trigger tiers[k]} :: 0 < k < |tiers| ==> Follows(tiers[k - 1], tiers[k]))
  }

  predicate Follows(before: MarginTier, t: MarginTier) {
    before.cap == t.floor && t.amount * SCALE == before.amount * SCALE + t.floor * (t.rate - before.rate)
  }

  // ── The bracket sum ───────────────────────────────────────────────────

  // What one bracket charges, exactly: its rate on the part of the notional
  // inside it. The last bracket has no upper end.
  function Share(t: MarginTier, last: bool, notional: int): int {
    var top := if last then notional else Min(notional, t.cap);
    if top > t.floor then (top - t.floor) * t.rate else 0
  }

  // The first k brackets together, in units of 10^-36.
  function Brackets(tiers: seq<MarginTier>, k: nat, notional: int): int
    requires k <= |tiers|
  {
    if k == 0 then 0
    else Brackets(tiers, k - 1, notional) + Share(tiers[k - 1], k == |tiers|, notional)
  }

  lemma {:induction false} FloorsAscend(tiers: seq<MarginTier>, i: nat, j: nat)
    requires Schedule(tiers) && i <= j < |tiers|
    ensures tiers[i].floor <= tiers[j].floor
    ensures i < j ==> tiers[i].cap <= tiers[j].floor
  {
    if i < j {
      FloorsAscend(tiers, i, j - 1);
      assert Follows(tiers[j - 1], tiers[j]);
    }
  }

  lemma FullShare(t: MarginTier, notional: int)
    requires t.floor <= t.cap <= notional
    ensures Share(t, false, notional) == (t.cap - t.floor) * t.rate
  {
    if t.cap == t.floor { assert (t.cap - t.floor) * t.rate == 0; }
  }

  lemma OpenShare(t: MarginTier, last: bool, notional: int)
    requires t.floor <= notional && (last || notional <= t.cap)
    ensures Share(t, last, notional) == (notional - t.floor) * t.rate
  {
    if notional == t.floor { assert (notional - t.floor) * t.rate == 0; }
  }

  lemma ScheduleStep(tiers: seq<MarginTier>, k: nat)
    requires Schedule(tiers) && k < |tiers|
    ensures tiers[0].floor == 0 && tiers[0].amount == 0 && tiers[k].floor <= tiers[k].cap && tiers[k].rate >= 0
    ensures k > 0 ==> Follows(tiers[k - 1], tiers[k]) && tiers[k - 1].floor <= tiers[k - 1].cap
  {
  }

  // The brackets below a tier, all of them full, come to what the formula takes
  // off at its floor.
  lemma {:induction false} BracketsBelow(tiers: seq<MarginTier>, k: nat, notional: int)
    requires Schedule(tiers) && k < |tiers| && notional >= tiers[k].floor
    ensures Brackets(tiers, k, notional) == tiers[k].floor * tiers[k].rate - tiers[k].amount * SCALE
  {
    hide Schedule, Share;
    ScheduleStep(tiers, k);
    if k > 0 {
      var b, t := tiers[k - 1], tiers[k];
      BracketsBelow(tiers, k - 1, notional);
      FullShare(b, notional);
      Rearrange(b.floor, b.cap, b.rate, t.rate, b.amount, t.amount);
    } else {
      assert 0 * tiers[0].rate == 0;
    }
  }

  // With the notional in tier k, the whole sum is what the formula multiplies
  // out to before truncation.
  lemma {:induction false} BracketTotal(tiers: seq<MarginTier>, k: nat, notional: int)
    requires Schedule(tiers) && k < |tiers| && tiers[k].floor <= notional
    requires k + 1 < |tiers| ==> notional < tiers[k].cap
    ensures Brackets(tiers, |tiers|, notional) == notional * tiers[k].rate - tiers[k].amount * SCALE
  {
    hide Schedule, Share;
    var t := tiers[k];
    BracketsBelow(tiers, k, notional);
    BracketsAbove(tiers, k, |tiers|, notional);
    OpenShare(t, k + 1 == |tiers|, notional);
    Difference(notional, t.floor, t.rate);
  }

  lemma Rearrange(floor: int, cap: int, r: int, r': int, a: int, a': int)
    requires a' * SCALE == a * SCALE + cap * (r' - r)
    ensures floor * r - a * SCALE + (cap - floor) * r == cap * r' - a' * SCALE
  {
  }

  // The brackets above the notional charge nothing.
  lemma {:induction false} BracketsAbove(tiers: seq<MarginTier>, k: nat, n: nat, notional: int)
    requires Schedule(tiers) && k < n <= |tiers| && (k + 1 < |tiers| ==> notional < tiers[k].cap)
    ensures Brackets(tiers, n, notional) == Brackets(tiers, k + 1, notional)
    decreases n
  {
    if k + 1 < n {
      BracketsAbove(tiers, k, n - 1, notional);
      FloorsAscend(tiers, k, n - 1);
    }
  }

  lemma {:induction false} NothingBelowZero(tiers: seq<MarginTier>, k: nat, notional: int)
    requires Schedule(tiers) && k <= |tiers| && notional <= 0
    ensures Brackets(tiers, k, notional) == 0
  {
    if k > 0 {
      NothingBelowZero(tiers, k - 1, notional);
      FloorsAscend(tiers, 0, k - 1);
    }
  }

  lemma {:induction false} BracketsGrow(tiers: seq<MarginTier>, k: nat, a: int, b: int)
    requires Schedule(tiers) && k <= |tiers| && a <= b
    ensures 0 <= Brackets(tiers, k, a) <= Brackets(tiers, k, b)
  {
    hide Share;
    if k > 0 {
      BracketsGrow(tiers, k - 1, a, b);
      ShareGrows(tiers[k - 1], k == |tiers|, a, b);
    }
  }

  lemma ShareGrows(t: MarginTier, last: bool, a: int, b: int)
    requires t.rate >= 0 && a <= b
    ensures 0 <= Share(t, last, a) <= Share(t, last, b)
  {
    var x := (if last then a else Min(a, t.cap)) - t.floor;
    var y := (if last then b else Min(b, t.cap)) - t.floor;
    if x > 0 { Scaled(x, y, t.rate); } else if y > 0 { Scaled(0, y, t.rate); }
  }

  lemma Scaled(x: int, y: int, r: int)
    requires 0 <= x <= y && r >= 0
    ensures 0 <= x * r <= y * r
  {
    assert (y - x) * r >= 0;
    assert y * r == x * r + (y - x) * r;
  }

  // The tier in which a non-negative notional falls: every earlier one is full,
  // and unless it is the last, this one is not.
  lemma TierFound(tiers: seq<MarginTier>, notional: int) returns (k: nat)
    requires Schedule(tiers) && notional >= 0
    ensures k < |tiers| && tiers[k].floor <= notional && (k + 1 < |tiers| ==> notional < tiers[k].cap)
    ensures CalcMaintenanceMargin(notional, tiers) == Formula(notional, tiers[k])
  {
    k := TierOf(notional, tiers);
    if k == |tiers| {
      PastEveryCap(tiers, notional, |tiers| - 1);
      k := |tiers| - 1;
    }
  }

  lemma {:induction false} PastEveryCap(tiers: seq<MarginTier>, notional: int, j: nat)
    requires Schedule(tiers) && notional >= 0 && j < |tiers|
    requires forall i :: 0 <= i < |tiers| ==> !(tiers[i].floor <= notional < tiers[i].cap)
    ensures notional >= tiers[j].floor
  {
    if j > 0 {
      PastEveryCap(tiers, notional, j - 1);
      assert Follows(tiers[j - 1], tiers[j]);
    }
  }

  // The closed form is the truncation of the exact bracket sum, for every
  // notional and every schedule.
  lemma ClosedFormIsBracketSum(tiers: seq<MarginTier>, notional: int)
    requires Schedule(tiers)
    ensures CalcMaintenanceMargin(notional, tiers) == TruncDiv(Brackets(tiers, |tiers|, notional), SCALE)
  {
    if notional < 0 {
      NothingBelowZero(tiers, |tiers|, notional);
      NoTierBelowZero(tiers, notional);
    } else {
      hide Schedule, Brackets, CalcMaintenanceMargin, TruncDiv;
      var k := TierFound(tiers, notional);
      var t := tiers[k];
      ScheduleStep(tiers, k);
      BracketTotal(tiers, k, notional);
      BracketsGrow(tiers, |tiers|, notional, notional);
      Scaled(0, notional, t.rate);
      WholeUnits(notional * t.rate, t.amount);
    }
  }

  lemma NoTierBelowZero(tiers: seq<MarginTier>, notional: int)
    requires Schedule(tiers) && notional < 0
    ensures CalcMaintenanceMargin(notional, tiers) == 0
  {
    forall j | 0 <= j < |tiers| ensures tiers[j].floor >= 0 {
      FloorsAscend(tiers, 0, j);
    }
  }

  // Taking off whole units commutes with truncation.
  lemma WholeUnits(x: nat, a: int)
    requires x - a * SCALE >= 0
    ensures TruncDiv(x, SCALE) - a == TruncDiv(x - a * SCALE, SCALE)
  {
  }

  // So the margin is never negative and never falls as the notional grows, also
  // across tier boundaries and past the last cap.
  lemma MarginGrows(tiers: seq<MarginTier>, a: int, b: int)
    requires Schedule(tiers) && a <= b
    ensures 0 <= CalcMaintenanceMargin(a, tiers) <= CalcMaintenanceMargin(b, tiers)
  {
    hide CalcMaintenanceMargin, Schedule, Brackets;
    ClosedFormIsBracketSum(tiers, a);
    ClosedFormIsBracketSum(tiers, b);
    BracketsGrow(tiers, |tiers|, a, b);
    TruncGrows(Brackets(tiers, |tiers|, a), Brackets(tiers, |tiers|, b));
  }

  lemma TruncGrows(x: int, y: int)
    requires 0 <= x <= y
    ensures 0 <= TruncDiv(x, SCALE) <= TruncDiv(y, SCALE)
  {
  }

  // ── The shipped schedule ──────────────────────────────────────────────

  function Units(n: int): int {
    n * SCALE
  }

  // A rate in thousandths, as 0.004 is four of them.
  function Thousandths(n: int): int {
    n * 1_000_000_000_000_000
  }

  function ShippedTiers(): seq<MarginTier> {
    [MarginTier(Units(0), Units(50_000), Thousandths(4), Units(0)),
     MarginTier(Units(50_000), Units(250_000), Thousandths(5), Units(50)),
     MarginTier(Units(250_000), Units(1_000_000), Thousandths(10), Units(1_300)),
     MarginTier(Units(1_000_000), Units(5_000_000), Thousandths(25), Units(16_300)),
     MarginTier(Units(5_000_000), Units(20_000_000), Thousandths(50), Units(141_300)),
     MarginTier(Units(20_000_000), Units(100_000_000), Thousandths(100), Units(1_141_300)),
     MarginTier(Units(100_000_000), Units(200_000_000), Thousandths(125), Units(3_641_300)),
     MarginTier(Units(200_000_000), Units(500_000_000), Thousandths(250), Units(28_641_300))]
  }

  // The schedule the default configuration ships is one.
  lemma ShippedIsSchedule()
    ensures Schedule(ShippedTiers())
  {
  }
}
