/**
 What the premium promises over all inputs: how far rounding can move it, when
 the checked products overflow, how it grows, and what splitting an extension
 into pieces can save.
 */
module PremiumLaws {
  import opened Types
  import opened Premium

  lemma {:induction false} ProductMonotone(a: int, b: int, k: int)
    requires a <= b && k >= 0
    ensures a * k <= b * k
  {
  }

  lemma {:induction false} FloorMonotone(a: int, b: int, n: int)
    requires n > 0 && a <= b
    ensures a / n <= b / n
  {
    var q := a / n - b / n;
    assert q * n == a - a % n - (b - b % n);
    if q >= 1 {
      ProductMonotone(1, q, n);
    }
  }

  /** x + y divided once against x and y divided apart. */
  lemma {:induction false} FloorSum(x: int, y: int, n: int)
    requires n > 0
    ensures x / n + y / n <= (x + y) / n <= x / n + y / n + 1
  {
    var q, r := x / n, x % n;
    var q', r' := y / n, y % n;
    assert x + y == (q + q') * n + (r + r');
    if r + r' < n {
      QuotientIs(x + y, n, q + q', r + r');
    } else {
      assert (q + q') * n + n == (q + q' + 1) * n;
      QuotientIs(x + y, n, q + q' + 1, r + r' - n);
    }
  }

  lemma {:induction false} QuotientIs(x: int, n: int, q: int, r: int)
    requires n > 0 && x == q * n + r && 0 <= r < n
    ensures x / n == q
  {
    var d := x / n - q;
    assert x == (x / n) * n + x % n;
    assert d * n == r - x % n;
    if d >= 1 {
      ProductMonotone(1, d, n);
    } else if d <= -1 {
      ProductMonotone(d, -1, n);
    }
  }

  /** The exact total effect of the three floors: the raw premium never exceeds
      the rational premium, and falls short of it by no more than the three
      remainders allow. */
  lemma {:induction false} RoundingBound(kind: PolicyType, c: int, d: nat)
    requires c > 0
    ensures
      var rate, k, S := BaseRateBps(kind), BPS_DENOM + CoverageFactorBps(c), SECONDS_PER_YEAR;
      var loss := c * rate * d * k - 100_000_000 * S * RawPremium(kind, c, d);
      0 <= loss <= 9999 * 10_000 * S + 10_000 * k * (S - 1) + 9999 * d * k
  {
    var rate, k, S := BaseRateBps(kind), BPS_DENOM + CoverageFactorBps(c), SECONDS_PER_YEAR;
    var A := AnnualBase(kind, c);
    var D := DurationAdjusted(A, d);
    var P := RawPremium(kind, c, d);
    var r1, r2, r3 := c * rate % 10_000, A * d % S, D * k % 10_000;
    assert c * rate == 10_000 * A + r1;
    assert A * d == S * D + r2;
    assert D * k == 10_000 * P + r3;
    calc {
      c * rate * d * k;
      (10_000 * A + r1) * d * k;
      { ExpandFirst(A, d, k, r1); }
      10_000 * k * (A * d) + r1 * (d * k);
      10_000 * k * (S * D + r2) + r1 * (d * k);
      { ExpandSecond(k, S, D, r2); }
      10_000 * S * (D * k) + 10_000 * k * r2 + r1 * (d * k);
      10_000 * S * (10_000 * P + r3) + 10_000 * k * r2 + r1 * (d * k);
      100_000_000 * S * P + 10_000 * S * r3 + 10_000 * k * r2 + r1 * (d * k);
    }
    ProductMonotone(0, r1, d * k);
    ProductMonotone(r1, 9999, d * k);
    ProductMonotone(0, r2, k);
    ProductMonotone(r2, S - 1, k);
    assert 9999 * (d * k) == 9999 * d * k;
  }

  lemma {:induction false} ExpandFirst(A: int, d: int, k: int, r: int)
    ensures (10_000 * A + r) * d * k == 10_000 * k * (A * d) + r * (d * k)
  {
  }

  lemma {:induction false} ExpandSecond(k: int, S: int, D: int, r: int)
    ensures 10_000 * k * (S * D + r) == 10_000 * S * (D * k) + 10_000 * k * r
  {
  }

  /** Smaller positive inputs give intermediate values that are no larger. */
  lemma {:induction false} StepsMonotone(kind: PolicyType, c: int, d: nat, c': int, d': nat)
    requires 0 < c' <= c && d' <= d
    ensures 0 <= c' * BaseRateBps(kind) <= c * BaseRateBps(kind)
    ensures AnnualBase(kind, c') <= AnnualBase(kind, c)
    ensures 0 <= AnnualBase(kind, c') * d' <= AnnualBase(kind, c) * d
    ensures DurationAdjusted(AnnualBase(kind, c'), d') <= DurationAdjusted(AnnualBase(kind, c), d)
    ensures 0 <= DurationAdjusted(AnnualBase(kind, c'), d') * (BPS_DENOM + CoverageFactorBps(c'))
              <= DurationAdjusted(AnnualBase(kind, c), d) * (BPS_DENOM + CoverageFactorBps(c))
    ensures RawPremium(kind, c', d') <= RawPremium(kind, c, d)
  {
    var A', A := AnnualBase(kind, c'), AnnualBase(kind, c);
    FloorMonotone(c' * BaseRateBps(kind), c * BaseRateBps(kind), BPS_DENOM);
    ProductMonotone(A', A, d');
    ProductMonotone(d', d, A);
    ProductMonotone(0, d', A');
    FloorMonotone(A' * d', A * d, SECONDS_PER_YEAR);
    var D', D := DurationAdjusted(A', d'), DurationAdjusted(A, d);
    var k', k := BPS_DENOM + CoverageFactorBps(c'), BPS_DENOM + CoverageFactorBps(c);
    ProductMonotone(D', D, k');
    ProductMonotone(k', k, D);
    ProductMonotone(0, D', k');
    FloorMonotone(D' * k', D * k, BPS_DENOM);
  }

  /** Growing coverage (across both tier boundaries) or duration never lowers
      the premium, and an input that does not overflow vouches for every smaller
      positive one. */
  lemma {:induction false} Monotone(kind: PolicyType, c: int, d: nat, c': int, d': nat)
    requires 0 < c' <= c && 0 < d' <= d
    requires CalculatePremium(kind, c, d).Ok?
    ensures CalculatePremium(kind, c', d').Ok?
    ensures CalculatePremium(kind, c', d').value <= CalculatePremium(kind, c, d).value
  {
    StepsMonotone(kind, c, d, c', d');
  }

  /** Any coverage up to 2^67 is priced for every u64 duration. */
  lemma {:induction false} NoOverflow(kind: PolicyType, c: int, d: nat)
    requires 0 < c <= 0x8_0000_0000_0000_0000
    requires 0 < d <= U64_MAX
    ensures CalculatePremium(kind, c, d).Ok?
  {
    var C := 0x8_0000_0000_0000_0000;
    StepsMonotone(Health, C, U64_MAX, c, d);
    assert CalculatePremium(Health, C, U64_MAX).Ok?;
    CheaperKind(kind, c, d);
  }

  /** Health carries the highest rate, so it is the first to overflow. */
  lemma {:induction false} CheaperKind(kind: PolicyType, c: int, d: nat)
    requires 0 < c && 0 < d && CalculatePremium(Health, c, d).Ok?
    ensures CalculatePremium(kind, c, d).Ok?
  {
    var A', A := AnnualBase(kind, c), AnnualBase(Health, c);
    ProductMonotone(BaseRateBps(kind), 400, c);
    FloorMonotone(c * BaseRateBps(kind), c * 400, BPS_DENOM);
    ProductMonotone(A', A, d);
    FloorMonotone(A' * d, A * d, SECONDS_PER_YEAR);
    ProductMonotone(DurationAdjusted(A', d), DurationAdjusted(A, d), BPS_DENOM + CoverageFactorBps(c));
  }

  /** The yearly rates in basis points. */
  function YearlyBps(kind: PolicyType): int {
    match kind
    case Weather => 350
    case SmartContract => 300
    case Flight => 200
    case Health => 400
    case Asset => 250
  }

  /** The surcharge on large coverage: half a percent from 10^11, one percent from 10^12. */
  function SurchargeBps(coverage: int): int {
    if coverage < 100_000_000_000 then 0 else if coverage < 1_000_000_000_000 then 50 else 100
  }

  /** A year's premium on a round coverage is its rate and its surcharge, to the stroop. */
  lemma {:induction false} YearPrice(kind: PolicyType, lots: nat)
    requires 0 < lots <= 1_000_000_000_000
    ensures var coverage := 100_000_000 * lots;
      CalculatePremium(kind, coverage, 31_536_000) == Ok(lots * (YearlyBps(kind) * (10_000 + SurchargeBps(coverage))))
  {
    var c, rate, k := 100_000_000 * lots, YearlyBps(kind), 10_000 + SurchargeBps(100_000_000 * lots);
    NoOverflow(kind, c, 31_536_000);
    assert BaseRateBps(kind) == rate && BPS_DENOM + CoverageFactorBps(c) == k;
    RoundYear(lots, rate, k);
    assert RawPremium(kind, c, 31_536_000) == lots * (rate * k);
    ProductMonotone(1, lots, rate * k);
    ProductMonotone(200, rate, k);
  }

  lemma {:induction false} RoundYear(lots: nat, rate: int, k: int)
    ensures 100_000_000 * lots * rate / 10_000 == 10_000 * (lots * rate)
    ensures 10_000 * (lots * rate) * 31_536_000 / 31_536_000 == 10_000 * (lots * rate)
    ensures 10_000 * (lots * rate) * k / 10_000 == lots * (rate * k)
  {
    var x := lots * rate;
    assert 100_000_000 * lots * rate == 10_000 * x * 10_000;
    assert 10_000 * x * k == x * k * 10_000 && x * k == lots * (rate * k);
    QuotientIs(100_000_000 * lots * rate, 10_000, 10_000 * x, 0);
    QuotientIs(10_000 * x * 31_536_000, 31_536_000, 10_000 * x, 0);
    QuotientIs(10_000 * x * k, 10_000, x * k, 0);
  }

  /** A premium is refused for no coverage, then for no time, and then exactly when one
      of the three products leaves i128. */
  lemma {:induction false} PricedIff(kind: PolicyType, c: int, d: nat)
    ensures var r := CalculatePremium(kind, c, d);
      && (r == Err(InvalidDuration) <==> c > 0 && d == 0)
      && (r.Err? ==> r.error == InvalidDuration || r.error == InvalidAmount)
      && (r == Err(InvalidAmount) <==> c <= 0 || (d > 0 && ProductOverflows(c, d, YearlyBps(kind), SurchargeBps(c))))
  {
    if c > 0 && d > 0 { StepsMonotone(kind, c, d, c, d); }
  }

  predicate ProductOverflows(c: int, d: nat, rate: int, surcharge: int) {
    var yearly := c * rate / 10_000;
    var base := yearly * d / 31_536_000;
    c * rate > I128_MAX || yearly * d > I128_MAX || base * (10_000 + surcharge) > I128_MAX
  }

  /** Up to a year and 2 500 000 stroops of coverage the minimum of 100 000 is charged. */
  lemma {:induction false} MinimumCharge(kind: PolicyType, c: int, d: nat)
    requires 0 < c <= 2_500_000 && 0 < d <= 31_536_000
    ensures CalculatePremium(kind, c, d) == Ok(100_000)
  {
    NoOverflow(kind, 2_500_000, 31_536_000);
    Monotone(kind, 2_500_000, 31_536_000, c, d);
    assert CalculatePremium(kind, 2_500_000, 31_536_000) == Ok(100_000);
  }

  /** The duration step taken on d1 + d2 at once exceeds the two steps taken
      apart by at most one. */
  lemma {:induction false} DurationSplits(base: int, d1: nat, d2: nat)
    requires base >= 0
    ensures DurationAdjusted(base, d1 + d2) <= DurationAdjusted(base, d1) + DurationAdjusted(base, d2) + 1
  {
    assert base * (d1 + d2) == base * d1 + base * d2;
    FloorSum(base * d1, base * d2, SECONDS_PER_YEAR);
  }

  /** The surcharge step: for each of the three factors, one more stroop and two
      separate floors cost at most two stroops. */
  lemma {:induction false} SurchargeSplits(x: int, y: int, factor: int)
    requires factor == 0 || factor == 50 || factor == 100
    ensures (x + y + 1) * (BPS_DENOM + factor) / BPS_DENOM
         <= x * (BPS_DENOM + factor) / BPS_DENOM + y * (BPS_DENOM + factor) / BPS_DENOM + 2
  {
    SurchargeOf(x, factor);
    SurchargeOf(y, factor);
    SurchargeOf(x + y + 1, factor);
  }

  /** The surcharge adds nothing, a two-hundredth or a hundredth. */
  lemma {:induction false} SurchargeOf(x: int, factor: int)
    requires factor == 0 || factor == 50 || factor == 100
    ensures x * (BPS_DENOM + factor) / BPS_DENOM
         == x + if factor == 0 then 0 else if factor == 50 then x / 200 else x / 100
  {
    if factor == 50 {
      QuotientIs(x * 10_050, 10_000, x + x / 200, 50 * (x % 200));
    } else if factor == 100 {
      QuotientIs(x * 10_100, 10_000, x + x / 100, 100 * (x % 100));
    }
  }

  /** Splitting an extension in two saves at most two stroops, whatever the
      minimum charge does, and the pieces are priceable when the whole is. */
  lemma {:induction false} SplitSavesAtMostTwo(kind: PolicyType, c: int, d1: nat, d2: nat)
    requires d1 > 0 && d2 > 0
    requires CalculatePremium(kind, c, d1 + d2).Ok?
    ensures CalculatePremium(kind, c, d1).Ok? && CalculatePremium(kind, c, d2).Ok?
    ensures CalculatePremium(kind, c, d1 + d2).value
         <= CalculatePremium(kind, c, d1).value + CalculatePremium(kind, c, d2).value + 2
  {
    Monotone(kind, c, d1 + d2, c, d1);
    Monotone(kind, c, d1 + d2, c, d2);
    var A := AnnualBase(kind, c);
    var factor := CoverageFactorBps(c);
    var x, y, z := DurationAdjusted(A, d1), DurationAdjusted(A, d2), DurationAdjusted(A, d1 + d2);
    DurationSplits(A, d1, d2);
    ProductMonotone(z, x + y + 1, BPS_DENOM + factor);
    FloorMonotone(z * (BPS_DENOM + factor), (x + y + 1) * (BPS_DENOM + factor), BPS_DENOM);
    SurchargeSplits(x, y, factor);
  }

  /** Two stroops is the exact bound: splitting this extension saves both. */
  lemma {:induction false} SplitSavesTwo()
    ensures
      var whole := CalculatePremium(Health, 1_000_000_000_000, 1_970_378 + 9_847_136);
      var first := CalculatePremium(Health, 1_000_000_000_000, 1_970_378);
      var second := CalculatePremium(Health, 1_000_000_000_000, 9_847_136);
      whole.Ok? && first.Ok? && second.Ok? && whole.value == first.value + second.value + 2
  {
    HealthPrice(1_970_378, 2_499_211_060, 2_524_203_170);
    HealthPrice(9_847_136, 12_490_025_367, 12_614_925_620);
    HealthPrice(11_817_514, 14_989_236_428, 15_139_128_792);
  }

  /** One price at the third tier, step by step. */
  lemma {:induction false} HealthPrice(d: nat, adjusted: int, premium: int)
    requires 0 < d < 100_000_000 && MIN_PREMIUM_STROOPS < premium < I128_MAX / 100_000
    requires adjusted == 40_000_000_000 * d / SECONDS_PER_YEAR && premium == adjusted * 10_100 / BPS_DENOM
    ensures CalculatePremium(Health, 1_000_000_000_000, d) == Ok(premium)
  {
    assert AnnualBase(Health, 1_000_000_000_000) == 40_000_000_000;
  }

  function Sum(pieces: seq<nat>): nat {
    if pieces == [] then 0 else Sum(pieces[..|pieces| - 1]) + pieces[|pieces| - 1]
  }

  /** The total charged for buying the pieces one extend_duration at a time. */
  function TotalCharged(kind: PolicyType, c: int, pieces: seq<nat>): Result<int> {
    if pieces == [] then Ok(0)
    else
      var before := TotalCharged(kind, c, pieces[..|pieces| - 1]);
      if before.Err? then before else
      var last := CalculatePremium(kind, c, pieces[|pieces| - 1]);
      if last.Err? then last else Ok(before.value + last.value)
  }

  /** Over any number of extensions, each extra piece saves at most two stroops. */
  lemma {:induction false} ManyPiecesSaveLittle(kind: PolicyType, c: int, pieces: seq<nat>)
    requires |pieces| >= 1
    requires forall i :: 0 <= i < |pieces| ==> pieces[i] > 0
    requires CalculatePremium(kind, c, Sum(pieces)).Ok?
    ensures TotalCharged(kind, c, pieces).Ok?
    ensures CalculatePremium(kind, c, Sum(pieces)).value
         <= TotalCharged(kind, c, pieces).value + 2 * (|pieces| - 1)
  {
    var front, last := pieces[..|pieces| - 1], pieces[|pieces| - 1];
    if |pieces| == 1 {
      assert front == [];
    } else {
      SumPositive(front);
      SplitSavesAtMostTwo(kind, c, Sum(front), last);
      ManyPiecesSaveLittle(kind, c, front);
    }
  }

  lemma {:induction false} SumPositive(pieces: seq<nat>)
    requires |pieces| >= 1
    requires forall i :: 0 <= i < |pieces| ==> pieces[i] > 0
    ensures Sum(pieces) > 0
  {
  }
}
