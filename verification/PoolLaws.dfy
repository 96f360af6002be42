/**
 Laws of the risk pool: the provider registry agrees with the position map,
 contributions balance liquidity plus payouts, yield is split pro rata up to
 dust, and withdrawals respect the reserve over whole runs.
 */
module PoolLaws {
  import opened Types
  import opened Sequences
  import opened Pool
  import opened PremiumLaws

  // ---------------------------------------------------------------- registry

  /** The provider list is duplicate-free and lists exactly the stored positions. */
  ghost predicate RegistryAgrees(p: PoolState) {
    && Distinct(p.providers)
    && Elements(p.providers) == p.positions.Keys
  }

  ghost predicate Sound(p: PoolState) {
    && RegistryAgrees(p)
    && (forall a :: a in p.positions ==>
          p.positions[a].provider == a && p.positions[a].contribution >= 0 && p.positions[a].accruedYield >= 0)
    && p.totalLiquidity >= 0
    && p.totalYield >= 0
    && p.reserveRatio <= 10000
    && TotalContribution(p) >= p.totalLiquidity
  }

  /** A quantity of each position added up over the registry. */
  function SumOver(providers: seq<Address>, positions: Positions, f: Position -> int): int {
    if providers == [] then 0
    else
      (if providers[0] in positions then f(positions[providers[0]]) else 0)
      + SumOver(providers[1..], positions, f)
  }

  const CONTRIBUTION: Position -> int := (q: Position) => q.contribution
  const ACCRUED: Position -> int := (q: Position) => q.accruedYield

  function TotalContribution(p: PoolState): int { SumOver(p.providers, p.positions, CONTRIBUTION) }

  function TotalAccrued(p: PoolState): int { SumOver(p.providers, p.positions, ACCRUED) }

  lemma {:induction false} SumAgrees(providers: seq<Address>, m: Positions, m': Positions, f: Position -> int)
    requires forall a :: a in providers ==> (a in m <==> a in m') && (a in m ==> f(m[a]) == f(m'[a]))
    ensures SumOver(providers, m, f) == SumOver(providers, m', f)
  {
    if providers != [] {
      SumAgrees(providers[1..], m, m', f);
    }
  }

  /** Storing one listed position moves the sum by that position's change. */
  lemma {:induction false} SumUpdate(providers: seq<Address>, m: Positions, a: Address, q: Position, f: Position -> int)
    requires Distinct(providers) && a in providers
    ensures SumOver(providers, m[a := q], f) == SumOver(providers, m, f) + f(q) - (if a in m then f(m[a]) else 0)
  {
    var first, rest := providers[0], providers[1..];
    assert providers == [first] + rest;
    if first == a {
      SumAgrees(rest, m, m[a := q], f);
    } else {
      SumUpdate(rest, m, a, q, f);
    }
  }

  lemma {:induction false} SumWithout(providers: seq<Address>, m: Positions, a: Address, f: Position -> int)
    requires Distinct(providers) && a in providers
    ensures SumOver(Without(providers, a), m - {a}, f)
         == SumOver(providers, m, f) - (if a in m then f(m[a]) else 0)
  {
    var first, rest := providers[0], providers[1..];
    assert providers == [first] + rest;
    if first == a {
      assert a !in rest;
      WithoutAbsent(rest, a);
      SumAgrees(rest, m, m - {a}, f);
    } else {
      SumWithout(rest, m, a, f);
      assert Without(providers, a)[1..] == Without(rest, a);
    }
  }

  lemma {:induction false} SumSnoc(providers: seq<Address>, m: Positions, a: Address, f: Position -> int)
    ensures SumOver(providers + [a], m, f) == SumOver(providers, m, f) + (if a in m then f(m[a]) else 0)
  {
    if providers != [] {
      assert (providers + [a])[1..] == providers[1..] + [a];
      SumSnoc(providers[1..], m, a, f);
    }
  }

  lemma {:induction false} SumNonNegative(providers: seq<Address>, m: Positions, f: Position -> int)
    requires forall a :: a in m ==> f(m[a]) >= 0
    ensures SumOver(providers, m, f) >= 0
    ensures forall a :: a in providers && a in m ==> f(m[a]) <= SumOver(providers, m, f)
  {
    if providers != [] {
      SumNonNegative(providers[1..], m, f);
    }
  }

  // ------------------------------------------------------- yield distribution

  /** Every position credited at once from the same starting state. */
  function CreditAtOnce(positions: Positions, amount: int, totalLiquidity: int): Positions
    requires totalLiquidity > 0
  {
    map a | a in positions ::
      var q := positions[a];
      q.(accruedYield := q.accruedYield + Share(amount, q.contribution, totalLiquidity))
  }

  /** On a sound registry the loop credits each provider exactly once, never
      reports a missing provider, and equals the simultaneous update. */
  lemma {:induction false} LoopIsSimultaneous(p: PoolState, amount: int)
    requires RegistryAgrees(p) && p.totalLiquidity > 0
    ensures
      var r := CreditInOrder(p.positions, p.providers, amount, p.totalLiquidity);
      && (r.Err? ==> r.error == HostTrap)
      && (r.Ok? <==> forall a :: a in p.positions ==> Credited(p.positions[a], amount, p.totalLiquidity).Some?)
      && (r.Ok? ==> r.value == CreditAtOnce(p.positions, amount, p.totalLiquidity))
  {
    CreditSuffix(p.positions, p.providers, amount, p.totalLiquidity);
    var r := CreditInOrder(p.positions, p.providers, amount, p.totalLiquidity);
    assert forall a :: a in p.positions ==> a in p.providers by {
      assert forall a :: a in p.positions ==> a in Elements(p.providers);
    }
  }

  lemma {:induction false} CreditSuffix(m: Positions, providers: seq<Address>, amount: int, T: int)
    requires T > 0 && Distinct(providers)
    requires forall a :: a in providers ==> a in m
    ensures
      var r := CreditInOrder(m, providers, amount, T);
      && (r.Err? ==> r.error == HostTrap)
      && (r.Ok? <==> forall a :: a in providers ==> Credited(m[a], amount, T).Some?)
      && (r.Ok? ==> r.value.Keys == m.Keys && forall a :: a in m ==>
            r.value[a] == if a in providers then CreditAtOnce(m, amount, T)[a] else m[a])
  {
    if providers != [] {
      var a, rest := providers[0], providers[1..];
      assert providers == [a] + rest && a !in rest;
      var c := Credited(m[a], amount, T);
      if c.Some? {
        CreditSuffix(m[a := c.value], rest, amount, T);
      }
    }
  }

  /** What one distribution hands out in total. */
  function Allocated(p: PoolState, amount: int): int
    requires p.totalLiquidity > 0
  {
    AllocatedTo(p.providers, p.positions, amount, p.totalLiquidity)
  }

  function AllocatedTo(providers: seq<Address>, m: Positions, amount: int, T: int): int
    requires T > 0
  {
    SumOver(providers, m, (q: Position) => Share(amount, q.contribution, T))
  }

  /** The shares of any list of providers, against the exact pro-rata amount. */
  lemma {:induction false} AllocationBounds(providers: seq<Address>, m: Positions, amount: int, T: int)
    requires T > 0 && amount >= 0
    requires forall a :: a in m ==> m[a].contribution >= 0
    ensures var C := SumOver(providers, m, CONTRIBUTION);
      && C >= 0
      && T * AllocatedTo(providers, m, amount, T) <= amount * C
      && amount * C <= T * AllocatedTo(providers, m, amount, T) + |providers| * (T - 1)
  {
    if providers != [] {
      var first, rest := providers[0], providers[1..];
      AllocationBounds(rest, m, amount, T);
      var C := SumOver(rest, m, CONTRIBUTION);
      var F := AllocatedTo(rest, m, amount, T);
      assert AllocatedTo(providers, m, amount, T)
          == (if first in m then Share(amount, m[first].contribution, T) else 0) + F;
      if first in m { OneMoreShare(amount, m[first].contribution, C, F, T); }
      OneMore(|rest|, T - 1);
    }
  }

  lemma {:induction false} OneMoreShare(amount: int, c: int, C: int, F: int, T: int)
    requires T > 0 && amount >= 0 && c >= 0
    ensures var share := Share(amount, c, T);
      amount * (C + c) - T == amount * C - T + amount * c
      && T * (F + share) <= T * F + amount * c <= T * (F + share) + (T - 1)
  {
    ProductMonotone(0, amount, c);
    var share := amount * c / T;
    assert share * T + amount * c % T == amount * c;
    assert amount * (C + c) == amount * C + amount * c;
    assert T * (F + share) == T * F + share * T;
  }

  lemma {:induction false} OneMore(n: nat, k: int)
    ensures (n + 1) * k == n * k + k
  {
  }

  /** In general a distribution hands out at most the floor of amount times the
      contributions over the liquidity. */
  lemma {:induction false} AllocationAtMost(p: PoolState, amount: int)
    requires Sound(p) && p.totalLiquidity > 0 && amount >= 0
    ensures Allocated(p, amount) <= amount * TotalContribution(p) / p.totalLiquidity
  {
    AllocationBounds(p.providers, p.positions, amount, p.totalLiquidity);
    var T := p.totalLiquidity;
    FloorMonotone(T * Allocated(p, amount), amount * TotalContribution(p), T);
    QuotientIs(T * Allocated(p, amount), T, Allocated(p, amount), 0);
  }

  /** When contributions match the liquidity, the dust is less than one stroop a
      provider: between amount - (n - 1) and amount is handed out. */
  lemma {:induction false} AllocationIsTight(p: PoolState, amount: int)
    requires Sound(p) && p.totalLiquidity > 0 && amount >= 0
    requires TotalContribution(p) == p.totalLiquidity
    ensures amount - (|p.providers| - 1) <= Allocated(p, amount) <= amount
  {
    var T, F, n := p.totalLiquidity, Allocated(p, amount), |p.providers|;
    AllocationBounds(p.providers, p.positions, amount, T);
    assert n == 0 ==> p.providers == [];
    assert (F + n) * T == T * F + n * (T - 1) + n;
    assert (amount + 1) * T == amount * T + T;
    if F > amount {
      ProductMonotone(amount + 1, F, T);
    } else if F < amount - n + 1 {
      ProductMonotone(F + n, amount, T);
    }
  }

  /** An accepted distribution that credits more than it distributes. */
  predicate OverAllocates(p: PoolState, bank: Bank, auth: set<Address>, amount: int) {
    var out := DistributeStep(p, bank, auth, amount);
    out.Done? && TotalAccrued(out.pool) - TotalAccrued(p) > amount
  }

  /** While contributions do not exceed the liquidity, no accepted distribution
      over-allocates, whatever its amount. */
  lemma {:induction false} BalancedNeverOverAllocates(p: PoolState, bank: Bank, auth: set<Address>, amount: int)
    requires Sound(p) && TotalContribution(p) <= p.totalLiquidity
    ensures !OverAllocates(p, bank, auth, amount)
  {
    DistributeAccounts(p, bank, auth, amount);
    if DistributeStep(p, bank, auth, amount).Done? { AllocationIsTight(p, amount); }
  }

  /** The products and sums of distributing an amount equal to the liquidity stay
      within i128, so that this distribution is not refused as an overflow. */
  ghost predicate Headroom(p: PoolState) {
    && FitsI128(p.totalYield + p.totalLiquidity)
    && forall a :: a in p.positions ==>
         FitsI128(p.totalLiquidity * p.positions[a].contribution)
         && FitsI128(p.positions[a].accruedYield + p.positions[a].contribution)
  }

  /** Within that headroom some accepted distribution over-allocates exactly when
      contributions exceed the liquidity, which is so after a payout. */
  lemma {:induction false} OverAllocatesIff(p: PoolState, bank: Bank)
    requires Sound(p) && p.admin.Some? && p.totalLiquidity > 0 && Headroom(p)
    ensures (exists auth, amount :: OverAllocates(p, bank, auth, amount)) <==> TotalContribution(p) > p.totalLiquidity
  {
    if TotalContribution(p) <= p.totalLiquidity {
      forall auth, amount ensures !OverAllocates(p, bank, auth, amount) {
        BalancedNeverOverAllocates(p, bank, auth, amount);
      }
    } else {
      WholeLiquidityOverAllocates(p, bank);
    }
  }

  lemma {:induction false} WholeLiquidityOverAllocates(p: PoolState, bank: Bank)
    requires Sound(p) && p.admin.Some? && p.totalLiquidity > 0 && Headroom(p)
    requires TotalContribution(p) > p.totalLiquidity
    ensures OverAllocates(p, bank, {p.admin.value}, p.totalLiquidity)
  {
    var T := p.totalLiquidity;
    forall a | a in p.positions ensures Credited(p.positions[a], T, T).Some? {
      ShareOfWhole(p.positions[a].contribution, T);
    }
    LoopIsSimultaneous(p, T);
    WholeShares(p.providers, p.positions, T);
    DistributeAccounts(p, bank, {p.admin.value}, T);
  }

  lemma {:induction false} ShareOfWhole(c: int, T: int)
    requires T > 0 && c >= 0
    ensures Share(T, c, T) == c
  {
    ProductMonotone(0, c, T);
    QuotientIs(T * c, T, c, 0);
  }

  /** A pool with one provider, who has accrued nothing yet. */
  function OneProvider(admin: Address, a: Address, contribution: int, liquidity: int, token: Option<Address>)
    : PoolState
  {
    PoolState(Some(admin), liquidity, 0, 2000, map[a := Position(a, contribution, 0)], [a], token)
  }

  lemma {:induction false} OneProviderSound(admin: Address, a: Address, contribution: int, liquidity: int,
      token: Option<Address>)
    requires 0 <= liquidity <= contribution
    ensures var p := OneProvider(admin, a, contribution, liquidity, token);
      Sound(p) && TotalContribution(p) == contribution && TotalAccrued(p) == 0
  {
    var p := OneProvider(admin, a, contribution, liquidity, token);
    assert p.providers[1..] == [];
    assert SumOver([], p.positions, CONTRIBUTION) == 0 && SumOver([], p.positions, ACCRUED) == 0;
  }

  /** It happens: deposit 10, pay out 5, and distributing 5 credits 10. */
  lemma {:induction false} OverAllocationReached(admin: Address, a: Address, to: Address, token: Address)
    requires to != RiskPoolContract
    ensures
      var bank: Bank := map[(token, RiskPoolContract) := 5];
      var txs := [PoolTx({}, Init(admin)), PoolTx({a}, AddLiquidity(a, 10)), PoolTx({admin}, FundPayout(to, 5))];
      Run(Deployed(Some(token)), bank, txs) == OneProvider(admin, a, 10, 5, Some(token))
    ensures
      var bank: Bank := map[(token, RiskPoolContract) := 0, (token, to) := 5];
      OverAllocates(OneProvider(admin, a, 10, 5, Some(token)), bank, {admin}, 5)
  {
    var bank: Bank := map[(token, RiskPoolContract) := 5];
    var t1, t2, t3 := PoolTx({}, Init(admin)), PoolTx({a}, AddLiquidity(a, 10)), PoolTx({admin}, FundPayout(to, 5));
    DepositThenPayout(admin, a, to, token, bank);
    RunThree(Deployed(Some(token)), bank, t1, t2, t3);
    OneProviderSound(admin, a, 10, 5, Some(token));
    var left: Bank := map[(token, RiskPoolContract) := 0, (token, to) := 5];
    WholeLiquidityOverAllocates(OneProvider(admin, a, 10, 5, Some(token)), left);
  }

  lemma {:induction false} DepositThenPayout(admin: Address, a: Address, to: Address, token: Address, bank: Bank)
    requires to != RiskPoolContract && bank == map[(token, RiskPoolContract) := 5]
    ensures
      var (p1, bank1) := After(Deployed(Some(token)), bank, PoolTx({}, Init(admin)));
      var (p2, bank2) := After(p1, bank1, PoolTx({a}, AddLiquidity(a, 10)));
      After(p2, bank2, PoolTx({admin}, FundPayout(to, 5))).0 == OneProvider(admin, a, 10, 5, Some(token))
  {
    var (p1, bank1) := After(Deployed(Some(token)), bank, PoolTx({}, Init(admin)));
    assert [] + [a] == [a];
    assert After(p1, bank1, PoolTx({a}, AddLiquidity(a, 10))) == (OneProvider(admin, a, 10, 10, Some(token)), bank);
  }

  lemma {:induction false} RunThree(p: PoolState, bank: Bank, t1: PoolTx, t2: PoolTx, t3: PoolTx)
    ensures
      var (p1, bank1) := After(p, bank, t1);
      var (p2, bank2) := After(p1, bank1, t2);
      Run(p, bank, [t1, t2, t3]) == After(p2, bank2, t3).0
  {
    var (p1, bank1) := After(p, bank, t1);
    var (p2, bank2) := After(p1, bank1, t2);
    var (p3, bank3) := After(p2, bank2, t3);
    assert [t1, t2, t3][1..] == [t2, t3] && [t2, t3][1..] == [t3] && [t3][1..] == [];
    assert Run(p3, bank3, []) == p3;
    assert Run(p2, bank2, [t3]) == p3;
    assert Run(p1, bank1, [t2, t3]) == p3;
  }

  /** Without the headroom it need not: here contributions exceed the liquidity,
      but every distribution large enough to over-allocate overflows and is refused. */
  lemma {:induction false} OverflowShieldsAllocation(admin: Address, a: Address, token: Option<Address>, bank: Bank,
      auth: set<Address>, amount: int)
    ensures
      var p := OneProvider(admin, a, 0x1_0000_0000_0000_0000_0000_0001, 0x1_0000_0000_0000_0000_0000_0000, token);
      Sound(p) && TotalContribution(p) > p.totalLiquidity && !OverAllocates(p, bank, auth, amount)
  {
    var T := 0x1_0000_0000_0000_0000_0000_0000;
    var p := OneProvider(admin, a, T + 1, T, token);
    OneProviderSound(admin, a, T + 1, T, token);
    var out := DistributeStep(p, bank, auth, amount);
    if out.Done? {
      DistributeAccounts(p, bank, auth, amount);
      LoopIsSimultaneous(p, amount);
      assert FitsI128(amount * (T + 1)) && 0 < amount < T;
      QuotientIs(amount * (T + 1), T, amount, amount);
      assert amount * (T + 1) == amount * T + amount;
      assert p.providers[1..] == [] && AllocatedTo([], p.positions, amount, T) == 0;
      assert Allocated(p, amount) == Share(amount, T + 1, T) + AllocatedTo([], p.positions, amount, T);
    }
  }

  lemma {:induction false} WholeShares(providers: seq<Address>, m: Positions, T: int)
    requires T > 0
    requires forall a :: a in m ==> m[a].contribution >= 0
    ensures AllocatedTo(providers, m, T, T) == SumOver(providers, m, CONTRIBUTION)
  {
    if providers != [] {
      var first, rest := providers[0], providers[1..];
      WholeShares(rest, m, T);
      assert AllocatedTo(providers, m, T, T)
          == (if first in m then Share(T, m[first].contribution, T) else 0) + AllocatedTo(rest, m, T, T);
      if first in m {
        ProductMonotone(0, m[first].contribution, T);
        QuotientIs(T * m[first].contribution, T, m[first].contribution, 0);
      }
    }
  }

  /** Splitting a position over two addresses never gains, and loses at most one stroop. */
  lemma {:induction false} SplittingNeverGains(amount: int, c1: int, c2: int, T: int)
    requires T > 0 && amount >= 0 && c1 >= 0 && c2 >= 0
    ensures Share(amount, c1, T) + Share(amount, c2, T)
         <= Share(amount, c1 + c2, T)
         <= Share(amount, c1, T) + Share(amount, c2, T) + 1
  {
    ProductMonotone(0, amount, c1);
    ProductMonotone(0, amount, c2);
    assert amount * (c1 + c2) == amount * c1 + amount * c2;
    FloorSum(amount * c1, amount * c2, T);
  }

  /** The simultaneous update adds exactly Allocated to the accrued total and
      leaves contributions alone. */
  lemma {:induction false} CreditSums(providers: seq<Address>, m: Positions, amount: int, T: int)
    requires T > 0
    ensures SumOver(providers, CreditAtOnce(m, amount, T), ACCRUED)
         == SumOver(providers, m, ACCRUED) + AllocatedTo(providers, m, amount, T)
    ensures SumOver(providers, CreditAtOnce(m, amount, T), CONTRIBUTION)
         == SumOver(providers, m, CONTRIBUTION)
  {
    if providers != [] {
      var first, rest := providers[0], providers[1..];
      CreditSums(rest, m, amount, T);
      assert AllocatedTo(providers, m, amount, T)
          == (if first in m then Share(amount, m[first].contribution, T) else 0) + AllocatedTo(rest, m, amount, T);
    }
  }

  // -------------------------------------------------- what every step preserves

  /** What a successful call moves out of the pool as a payout. */
  function PaidOut(call: PoolCall): int {
    if call.FundPayout? then call.amount else 0
  }

  /** What a successful call adds to the providers' accrued yield. */
  function Credit(p: PoolState, call: PoolCall): int {
    if call.DistributeYield? && p.totalLiquidity > 0 then Allocated(p, call.amount) else 0
  }

  /** The liquidity that init sets to zero without looking. */
  function Forgotten(p: PoolState, call: PoolCall): int {
    if call.Init? then p.totalLiquidity else 0
  }

  /** The effect of one successful call on the totals. */
  ghost predicate Accounts(p: PoolState, call: PoolCall, out: PoolStep)
    requires out.Done?
  {
    var p' := out.pool;
    && Sound(p')
    && p'.admin == (if call.Init? then Some(call.admin) else p.admin) && p'.token == p.token
    && TotalContribution(p') - p'.totalLiquidity
       == TotalContribution(p) - p.totalLiquidity + PaidOut(call) + Forgotten(p, call)
    && TotalAccrued(p') + (if call.ClaimYield? then out.amount else 0)
       == TotalAccrued(p) + Credit(p, call)
    && p'.totalYield == (if call.Init? then 0 else p.totalYield + (if call.DistributeYield? then call.amount else 0))
    && out.amount >= 0
  }

  lemma {:induction false} StoreKeeps(p: PoolState, a: Address, q: Position)
    requires Sound(p) && a in p.positions
    requires q.provider == a && q.contribution >= 0 && q.accruedYield >= 0
    ensures var p' := p.(positions := p.positions[a := q]);
      && RegistryAgrees(p')
      && TotalContribution(p') == TotalContribution(p) + q.contribution - p.positions[a].contribution
      && TotalAccrued(p') == TotalAccrued(p) + q.accruedYield - p.positions[a].accruedYield
  {
    assert a in Elements(p.providers);
    SumUpdate(p.providers, p.positions, a, q, CONTRIBUTION);
    SumUpdate(p.providers, p.positions, a, q, ACCRUED);
  }

  lemma {:induction false} AddAccounts(p: PoolState, bank: Bank, auth: set<Address>, provider: Address, amount: int)
    requires Sound(p)
    ensures var out := AddStep(p, bank, auth, provider, amount);
      out.Done? ==> Accounts(p, AddLiquidity(provider, amount), out)
  {
    var out := AddStep(p, bank, auth, provider, amount);
    if out.Done? {
      if provider in p.positions {
        assert provider in Elements(p.providers);
        StoreKeeps(p, provider, out.pool.positions[provider]);
      } else {
        assert provider !in Elements(p.providers);
        DistinctSnoc(p.providers, provider);
        var grown := p.providers + [provider];
        SumSnoc(p.providers, out.pool.positions, provider, CONTRIBUTION);
        SumSnoc(p.providers, out.pool.positions, provider, ACCRUED);
        SumAgrees(p.providers, p.positions, out.pool.positions, CONTRIBUTION);
        SumAgrees(p.providers, p.positions, out.pool.positions, ACCRUED);
        assert Elements(grown) == Elements(p.providers) + {provider};
      }
    }
  }

  /** The reserve never exceeds the liquidity, so a permitted withdrawal leaves
      at least the reserve. */
  lemma {:induction false} ReserveWithinLiquidity(T: int, ratio: nat)
    requires T >= 0 && ratio <= 10000
    ensures 0 <= Reserve(T, ratio) <= T
  {
    ProductMonotone(0, T, ratio);
    ProductMonotone(ratio, 10000, T);
    FloorMonotone(T * ratio, T * 10000, 10000);
  }

  /** Dropping a listed position with nothing accrued keeps the registry exact. */
  lemma {:induction false} RemoveKeeps(p: PoolState, a: Address)
    requires Sound(p) && a in p.positions
    ensures var p' := p.(positions := p.positions - {a}, providers := Without(p.providers, a));
      && RegistryAgrees(p')
      && TotalContribution(p') == TotalContribution(p) - p.positions[a].contribution
      && TotalAccrued(p') == TotalAccrued(p) - p.positions[a].accruedYield
  {
    assert a in Elements(p.providers);
    WithoutDistinct(p.providers, a);
    SumWithout(p.providers, p.positions, a, CONTRIBUTION);
    SumWithout(p.providers, p.positions, a, ACCRUED);
    assert Elements(Without(p.providers, a)) == Elements(p.providers) - {a};
  }

  /** The storage a permitted withdrawal writes. */
  function Withdrawn(p: PoolState, provider: Address, amount: int): PoolState
    requires provider in p.positions
  {
    var q := p.positions[provider];
    var shrunk := p.(totalLiquidity := p.totalLiquidity - amount);
    if q.contribution == amount && q.accruedYield == 0 then
      shrunk.(positions := p.positions - {provider}, providers := Without(p.providers, provider))
    else
      shrunk.(positions := p.positions[provider := q.(contribution := q.contribution - amount)])
  }

  lemma {:induction false} WithdrawPermitted(p: PoolState, bank: Bank, auth: set<Address>, provider: Address,
                                             amount: int)
    requires p.totalLiquidity >= 0 && p.reserveRatio <= 10000
    ensures var out := WithdrawStep(p, bank, auth, provider, amount);
      out.Done? ==>
        && provider in p.positions
        && 0 < amount <= p.positions[provider].contribution
        && amount <= p.totalLiquidity - Reserve(p.totalLiquidity, p.reserveRatio) <= p.totalLiquidity
        && out == Done(Withdrawn(p, provider, amount), bank, 0)
  {
    ReserveWithinLiquidity(p.totalLiquidity, p.reserveRatio);
    ProductMonotone(0, p.totalLiquidity, p.reserveRatio);
  }

  lemma {:induction false} WithdrawnAccounts(p: PoolState, bank: Bank, provider: Address, amount: int)
    requires Sound(p) && provider in p.positions
    requires 0 < amount <= p.positions[provider].contribution && amount <= p.totalLiquidity
    ensures Accounts(p, WithdrawLiquidity(provider, amount), Done(Withdrawn(p, provider, amount), bank, 0))
  {
    var q := p.positions[provider];
    var p' := Withdrawn(p, provider, amount);
    if q.contribution == amount && q.accruedYield == 0 {
      RemoveKeeps(p, provider);
      var removed := p.(positions := p.positions - {provider}, providers := Without(p.providers, provider));
      assert p' == removed.(totalLiquidity := p.totalLiquidity - amount);
    } else {
      StoreKeeps(p, provider, q.(contribution := q.contribution - amount));
    }
    assert RegistryAgrees(p');
    assert TotalContribution(p') == TotalContribution(p) - amount;
    assert TotalAccrued(p') == TotalAccrued(p);
    assert Sound(p');
  }

  lemma {:induction false} WithdrawAccounts(p: PoolState, bank: Bank, auth: set<Address>, provider: Address,
                                            amount: int)
    requires Sound(p)
    ensures var out := WithdrawStep(p, bank, auth, provider, amount);
      out.Done? ==> Accounts(p, WithdrawLiquidity(provider, amount), out)
  {
    WithdrawPermitted(p, bank, auth, provider, amount);
    if WithdrawStep(p, bank, auth, provider, amount).Done? {
      WithdrawnAccounts(p, bank, provider, amount);
    }
  }

  lemma {:induction false} CreditKeeps(p: PoolState, amount: int)
    requires Sound(p) && p.totalLiquidity > 0 && amount > 0
    ensures var p' := p.(positions := CreditAtOnce(p.positions, amount, p.totalLiquidity));
      && Sound(p')
      && TotalContribution(p') == TotalContribution(p)
      && TotalAccrued(p') == TotalAccrued(p) + Allocated(p, amount)
  {
    CreditSums(p.providers, p.positions, amount, p.totalLiquidity);
    CreditedAreSound(p.positions, amount, p.totalLiquidity);
  }

  lemma {:induction false} CreditedAreSound(m: Positions, amount: int, T: int)
    requires amount > 0 && T > 0
    requires forall a :: a in m ==> m[a].provider == a && m[a].contribution >= 0 && m[a].accruedYield >= 0
    ensures var n := CreditAtOnce(m, amount, T);
      n.Keys == m.Keys
      && forall a :: a in n ==> n[a].provider == a && n[a].contribution >= 0 && n[a].accruedYield >= 0
  {
    forall a | a in m ensures Share(amount, m[a].contribution, T) >= 0 {
      ProductMonotone(0, amount, m[a].contribution);
    }
  }

  /** A sound pool never reports a missing provider. */
  lemma {:induction false} DistributeFindsAll(p: PoolState, bank: Bank, auth: set<Address>, amount: int)
    requires Sound(p)
    ensures var out := DistributeStep(p, bank, auth, amount);
      && (out.Failed? ==> out.error != ProviderNotFound)
      && (out.Done? ==> out.pool == p.(positions := CreditAtOnce(p.positions, amount, p.totalLiquidity),
                                       totalYield := p.totalYield + amount))
  {
    if p.admin.Some? && p.admin.value in auth && amount > 0 && p.totalLiquidity > 0 {
      LoopIsSimultaneous(p, amount);
      assert DistributeStep(p, bank, auth, amount).Failed? ==> DistributeStep(p, bank, auth, amount).error == HostTrap;
    }
  }

  lemma {:induction false} DistributeAccounts(p: PoolState, bank: Bank, auth: set<Address>, amount: int)
    requires Sound(p)
    ensures var out := DistributeStep(p, bank, auth, amount);
      out.Done? ==> Accounts(p, DistributeYield(amount), out)
  {
    DistributeFindsAll(p, bank, auth, amount);
    if DistributeStep(p, bank, auth, amount).Done? { CreditKeeps(p, amount); }
  }

  /** Every successful call on a sound pool, initialised or not, keeps it sound
      and moves the totals as stated. */
  lemma {:induction false} StepAccounts(p: PoolState, bank: Bank, auth: set<Address>, call: PoolCall)
    requires Sound(p)
    ensures var out := Apply(p, bank, auth, call); out.Done? ==> Accounts(p, call, out)
  {
    match call
    case Init(_) =>
    case SetReserveRatio(_, _) =>
    case AddLiquidity(provider, amount) => AddAccounts(p, bank, auth, provider, amount);
    case WithdrawLiquidity(provider, amount) => WithdrawAccounts(p, bank, auth, provider, amount);
    case DistributeYield(amount) => DistributeAccounts(p, bank, auth, amount);
    case ClaimYield(provider) =>
      if Apply(p, bank, auth, call).Done? {
        StoreKeeps(p, provider, p.positions[provider].(accruedYield := 0));
      }
    case FundPayout(_, _) =>
  }

  /** init zeroes the liquidity without looking at deposits made before it, so
      contributions match the liquidity afterwards exactly when nothing had been
      deposited. */
  lemma {:induction false} InitBalancesIff(p: PoolState, bank: Bank, auth: set<Address>, admin: Address)
    requires Sound(p) && p.admin.None?
    ensures var out := Apply(p, bank, auth, Init(admin));
      && out.Done?
      && Sound(out.pool)
      && (TotalContribution(out.pool) == out.pool.totalLiquidity
          <==> forall a :: a in p.positions ==> p.positions[a].contribution == 0)
  {
    SumNonNegative(p.providers, p.positions, CONTRIBUTION);
    assert forall a :: a in p.positions ==> a in Elements(p.providers);
    if forall a :: a in p.positions ==> p.positions[a].contribution == 0 {
      ZeroSum(p.providers, p.positions);
    }
  }

  lemma {:induction false} ZeroSum(providers: seq<Address>, m: Positions)
    requires forall a :: a in m ==> m[a].contribution == 0
    ensures SumOver(providers, m, CONTRIBUTION) == 0
  {
    if providers != [] {
      ZeroSum(providers[1..], m);
    }
  }

  // --------------------------------------------------------------- whole runs

  datatype PoolTx = PoolTx(auth: set<Address>, call: PoolCall)

  /** The pool and the ledger after one transaction; a failed one leaves both. */
  function After(p: PoolState, bank: Bank, tx: PoolTx): (PoolState, Bank) {
    match Apply(p, bank, tx.auth, tx.call)
    case Failed(_) => (p, bank)
    case Done(p', bank', _) => (p', bank')
  }

  function Run(p: PoolState, bank: Bank, txs: seq<PoolTx>): PoolState
    decreases |txs|
  {
    if txs == [] then p
    else var (p', bank') := After(p, bank, txs[0]); Run(p', bank', txs[1..])
  }

  /** A measure of each successful call, added up over a run. */
  function Tally(p: PoolState, bank: Bank, txs: seq<PoolTx>, measure: (PoolState, PoolCall, int) -> int): int
    decreases |txs|
  {
    if txs == [] then 0
    else
      var out := Apply(p, bank, txs[0].auth, txs[0].call);
      var (p', bank') := After(p, bank, txs[0]);
      (if out.Done? then measure(p, txs[0].call, out.amount) else 0) + Tally(p', bank', txs[1..], measure)
  }

  const INIT_LOSS: (PoolState, PoolCall, int) -> int :=
    (p: PoolState, c: PoolCall, amount: int) => Forgotten(p, c)

  const PAYOUTS: (PoolState, PoolCall, int) -> int :=
    (p: PoolState, c: PoolCall, amount: int) => PaidOut(c)

  const CLAIMS: (PoolState, PoolCall, int) -> int :=
    (p: PoolState, c: PoolCall, amount: int) => if c.ClaimYield? then amount else 0

  /** The dust a distribution may leave: one stroop less than the number of providers. */
  const DUST: (PoolState, PoolCall, int) -> int :=
    (p: PoolState, c: PoolCall, amount: int) => if c.DistributeYield? then |p.providers| - 1 else 0

  /** Conservation over every run, init anywhere in it: contributions stay ahead
      of the liquidity by exactly the payouts funded and what init forgot, and the
      registry stays exact, so get_pool_stats reports the true number of providers. */
  lemma {:induction false} RunConserves(p: PoolState, bank: Bank, txs: seq<PoolTx>)
    requires Sound(p)
    ensures var p' := Run(p, bank, txs);
      && Sound(p')
      && TotalContribution(p') - p'.totalLiquidity
         == TotalContribution(p) - p.totalLiquidity + Tally(p, bank, txs, PAYOUTS) + Tally(p, bank, txs, INIT_LOSS)
      && |p'.providers| == |p'.positions|
    decreases |txs|
  {
    if txs == [] {
      ListLength(p.providers);
    } else {
      StepAccounts(p, bank, txs[0].auth, txs[0].call);
      var (p', bank') := After(p, bank, txs[0]);
      RunConserves(p', bank', txs[1..]);
    }
  }

  lemma {:induction false} DeployedSound(token: Option<Address>)
    ensures Sound(Deployed(token)) && TotalContribution(Deployed(token)) == 0 && TotalAccrued(Deployed(token)) == 0
  {
  }

  /** In every state reachable from deployment the registry is duplicate-free and
      exact, liquidity is never negative, provider_count is the number of positions,
      and contributions less liquidity is what was paid out or forgotten by init. */
  lemma {:induction false} ReachablePool(token: Option<Address>, bank: Bank, txs: seq<PoolTx>)
    ensures var p := Run(Deployed(token), bank, txs);
      && RegistryAgrees(p) && p.totalLiquidity >= 0 && |p.providers| == |p.positions|
      && TotalContribution(p) - p.totalLiquidity
         == Tally(Deployed(token), bank, txs, PAYOUTS) + Tally(Deployed(token), bank, txs, INIT_LOSS)
  {
    DeployedSound(token);
    RunConserves(Deployed(token), bank, txs);
  }

  lemma {:induction false} ListLength(s: seq<Address>)
    requires Distinct(s)
    ensures |Elements(s)| == |s|
  {
    if s != [] {
      ListLength(s[1..]);
      assert s == [s[0]] + s[1..];
      assert s[0] !in s[1..];
      assert Elements(s) == {s[0]} + Elements(s[1..]);
    }
  }

  ghost predicate PayoutFree(txs: seq<PoolTx>) {
    forall i :: 0 <= i < |txs| ==> !txs[i].call.FundPayout?
  }

  /** In payout-free runs of a balanced pool, accrued plus claimed yield never
      exceeds the yield distributed and lags it by at most the summed dust. */
  lemma {:induction false} YieldNeverRunsAhead(p: PoolState, bank: Bank, txs: seq<PoolTx>)
    requires Sound(p) && p.admin.Some? && PayoutFree(txs)
    requires TotalContribution(p) == p.totalLiquidity
    ensures var p' := Run(p, bank, txs);
      var held := TotalAccrued(p') - TotalAccrued(p) + Tally(p, bank, txs, CLAIMS);
      held <= p'.totalYield - p.totalYield <= held + Tally(p, bank, txs, DUST)
    decreases |txs|
  {
    if txs != [] {
      var call := txs[0].call;
      var out := Apply(p, bank, txs[0].auth, call);
      StepAccounts(p, bank, txs[0].auth, call);
      if out.Done? && call.DistributeYield? {
        AllocationIsTight(p, call.amount);
      }
      var (p', bank') := After(p, bank, txs[0]);
      YieldNeverRunsAhead(p', bank', txs[1..]);
    }
  }

  /** In particular in every payout-free run of a pool initialised when deployed. */
  lemma {:induction false} YieldAfterDeployment(p: PoolState, token: Option<Address>, bank: Bank, admin: Address,
      txs: seq<PoolTx>)
    requires PayoutFree(txs) && p == After(Deployed(token), bank, PoolTx({}, Init(admin))).0
    ensures var p' := Run(p, bank, txs);
      var held := TotalAccrued(p') + Tally(p, bank, txs, CLAIMS);
      held <= p'.totalYield <= held + Tally(p, bank, txs, DUST)
  {
    InitialisedSound(p, token, bank, admin);
    YieldNeverRunsAhead(p, bank, txs);
  }

  lemma {:induction false} InitialisedSound(p: PoolState, token: Option<Address>, bank: Bank, admin: Address)
    requires p == After(Deployed(token), bank, PoolTx({}, Init(admin))).0
    ensures Sound(p) && p.admin.Some? && TotalContribution(p) == p.totalLiquidity
    ensures TotalAccrued(p) == 0 && p.totalYield == 0
  {
  }

  /** f applied k times. */
  function ReserveIterated(k: nat, T: int, ratio: nat): int {
    if k == 0 then T else ReserveIterated(k - 1, Reserve(T, ratio), ratio)
  }

  lemma {:induction false} ReserveIteratedMonotone(k: nat, T: int, T': int, ratio: nat)
    requires T <= T'
    ensures ReserveIterated(k, T, ratio) <= ReserveIterated(k, T', ratio)
  {
    if k > 0 {
      ProductMonotone(T, T', ratio);
      FloorMonotone(T * ratio, T' * ratio, 10000);
      ReserveIteratedMonotone(k - 1, Reserve(T, ratio), Reserve(T', ratio), ratio);
    }
  }

  const WITHDRAWALS: (PoolState, PoolCall, int) -> int :=
    (p: PoolState, c: PoolCall, amount: int) => if c.WithdrawLiquidity? then 1 else 0

  lemma {:induction false} TallyNonNegative(p: PoolState, bank: Bank, txs: seq<PoolTx>)
    ensures Tally(p, bank, txs, WITHDRAWALS) >= 0
    decreases |txs|
  {
    if txs != [] {
      var (p', bank') := After(p, bank, txs[0]);
      TallyNonNegative(p', bank', txs[1..]);
    }
  }

  /** One call other than a payout or a change of ratio lowers the liquidity only
      by a withdrawal, and then to no less than the reserve. */
  lemma {:induction false} ReserveStep(p: PoolState, bank: Bank, auth: set<Address>, call: PoolCall)
    requires Sound(p) && p.admin.Some?
    requires !call.FundPayout? && !call.SetReserveRatio?
    ensures var out := Apply(p, bank, auth, call);
      out.Done? ==>
        && out.pool.reserveRatio == p.reserveRatio
        && out.pool.totalLiquidity >=
             if call.WithdrawLiquidity? then Reserve(p.totalLiquidity, p.reserveRatio) else p.totalLiquidity
  {
    if call.WithdrawLiquidity? {
      WithdrawPermitted(p, bank, auth, call.provider, call.amount);
    }
  }

  /** With the ratio fixed and no payout, a run with k successful withdrawals,
      interleaved with any deposits, distributions and claims, leaves at least
      the reserve of the reserve ... (k times) of the starting liquidity. */
  lemma {:induction false} ReserveOverRuns(p: PoolState, bank: Bank, txs: seq<PoolTx>)
    requires Sound(p) && p.admin.Some? && PayoutFree(txs)
    requires forall i :: 0 <= i < |txs| ==> !txs[i].call.SetReserveRatio?
    ensures Tally(p, bank, txs, WITHDRAWALS) >= 0
    ensures Run(p, bank, txs).totalLiquidity
         >= ReserveIterated(Tally(p, bank, txs, WITHDRAWALS), p.totalLiquidity, p.reserveRatio)
    decreases |txs|
  {
    TallyNonNegative(p, bank, txs);
    if txs != [] {
      var call := txs[0].call;
      StaysSound(p, bank, txs[0].auth, call);
      ReserveStep(p, bank, txs[0].auth, call);
      var (p', bank') := After(p, bank, txs[0]);
      ReserveOverRuns(p', bank', txs[1..]);
      var withdrawn := Apply(p, bank, txs[0].auth, call).Done? && call.WithdrawLiquidity?;
      var k := Tally(p', bank', txs[1..], WITHDRAWALS);
      ReserveNext(k, p.totalLiquidity, p'.totalLiquidity, p.reserveRatio, withdrawn);
    }
  }

  lemma {:induction false} StaysSound(p: PoolState, bank: Bank, auth: set<Address>, call: PoolCall)
    requires Sound(p) && p.admin.Some?
    ensures var out := Apply(p, bank, auth, call); out.Done? ==> Sound(out.pool) && out.pool.admin == p.admin
  {
    StepAccounts(p, bank, auth, call);
  }

  lemma {:induction false} ReserveNext(k: nat, T: int, T': int, ratio: nat, withdrawn: bool)
    requires T' >= if withdrawn then Reserve(T, ratio) else T
    ensures ReserveIterated(k, T', ratio) >= ReserveIterated(if withdrawn then k + 1 else k, T, ratio)
  {
    ReserveIteratedMonotone(k, if withdrawn then Reserve(T, ratio) else T, T', ratio);
  }
}
