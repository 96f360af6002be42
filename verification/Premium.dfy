/**
 The actuarial premium: three floor divisions, a tiered surcharge, a minimum
 charge and checked i128 multiplications.
 */
module Premium {
  import opened Types

  datatype PolicyType = Weather | SmartContract | Flight | Health | Asset

  const SECONDS_PER_YEAR: int := 31_536_000
  const MIN_PREMIUM_STROOPS: int := 100_000
  const BPS_DENOM: int := 10_000
  const TIER2_THRESHOLD: int := 100_000_000_000
  const TIER3_THRESHOLD: int := 1_000_000_000_000

  function BaseRateBps(kind: PolicyType): (rate: int)
    ensures 200 <= rate <= 400
  {
    match kind
    case Weather => 350
    case SmartContract => 300
    case Flight => 200
    case Health => 400
    case Asset => 250
  }

  function CoverageFactorBps(coverage: int): (surcharge: int)
    ensures 0 <= surcharge <= 100
  {
    if coverage >= TIER3_THRESHOLD then 100
    else if coverage >= TIER2_THRESHOLD then 50
    else 0
  }

  function CheckedMul(a: int, b: int): Option<int> {
    if FitsI128(a * b) then Some(a * b) else None
  }

  function CheckedDiv(a: Option<int>, b: int): Option<int>
    requires b > 0
    requires a.Some? ==> a.value >= 0
  {
    if a.Some? then Some(a.value / b) else None
  }

  /** The rate per policy year before pro-rating. */
  function AnnualBase(kind: PolicyType, coverage: int): (base: int)
    requires coverage > 0
    ensures base >= 0
  {
    coverage * BaseRateBps(kind) / BPS_DENOM
  }

  function DurationAdjusted(base: int, duration: nat): (adjusted: int)
    requires base >= 0
    ensures adjusted >= 0
  {
    base * duration / SECONDS_PER_YEAR
  }

  /** The premium before the minimum charge, in unbounded integers. */
  function RawPremium(kind: PolicyType, coverage: int, duration: nat): int
    requires coverage > 0
  {
    DurationAdjusted(AnnualBase(kind, coverage), duration)
      * (BPS_DENOM + CoverageFactorBps(coverage)) / BPS_DENOM
  }

  function Max(a: int, b: int): int { if a >= b then a else b }

  /** calculate_premium: an overflowing product is InvalidAmount. */
  function CalculatePremium(kind: PolicyType, coverage: int, duration: nat): (r: Result<int>)
    ensures r.Ok? ==> coverage > 0 && duration > 0 && r.value >= MIN_PREMIUM_STROOPS
    ensures r.Ok? ==> r.value == Max(RawPremium(kind, coverage, duration), MIN_PREMIUM_STROOPS)
  {
    if coverage <= 0 then Err(InvalidAmount)
    else if duration == 0 then Err(InvalidDuration)
    else
      var base := CheckedDiv(CheckedMul(coverage, BaseRateBps(kind)), BPS_DENOM);
      if base.None? then Err(InvalidAmount) else
      var adjusted := CheckedDiv(CheckedMul(base.value, duration), SECONDS_PER_YEAR);
      if adjusted.None? then Err(InvalidAmount) else
      var premium := CheckedDiv(CheckedMul(adjusted.value, BPS_DENOM + CoverageFactorBps(coverage)), BPS_DENOM);
      if premium.None? then Err(InvalidAmount)
      else Ok(Max(premium.value, MIN_PREMIUM_STROOPS))
  }
}
