/**
 What each call on the risk pool needs and what it leaves, read off the pool before
 and after it.
 */
module PoolEffects {
  import opened Types
  import opened Sequences
  import opened Tokens
  import opened Pool
  import opened PremiumLaws
  import PoolLaws

  function Contribution(p: PoolState, a: Address): int {
    if a in p.positions then p.positions[a].contribution else 0
  }

  function Accrued(p: PoolState, a: Address): int { if a in p.positions then p.positions[a].accruedYield else 0 }

  // ----------------------------------------------------------- when it succeeds

  /** Leaves more than the reserve less one stroop: the reserve is rounded down. */
  predicate LeavesReserve(p: PoolState, amount: int) {
    10000 * (p.totalLiquidity - amount) > p.totalLiquidity * p.reserveRatio - 10000
  }

  /** Some provider's share cannot be computed or added. */
  ghost predicate ShareOverflows(p: PoolState, amount: int)
    requires p.totalLiquidity > 0
  {
    exists a :: a in p.positions
      && (!FitsI128(amount * p.positions[a].contribution)
          || !FitsI128(p.positions[a].accruedYield + amount * p.positions[a].contribution / p.totalLiquidity))
  }

  /** Why the pool refuses a call: the first reason that holds, in its own order. */
  ghost function NoPoolCall(p: PoolState, bank: Bank, auth: set<Address>, call: PoolCall): Option<Error> {
    match call
    case Init(_) => if p.admin.Some? then Some(AlreadyInitialized) else None
    case SetReserveRatio(caller, ratio) =>
      if caller !in auth || p.admin.None? then Some(HostTrap)
      else if p.admin != Some(caller) then Some(Unauthorized)
      else if ratio > 10000 then Some(InvalidAmount)
      else None
    case AddLiquidity(provider, amount) =>
      if provider !in auth then Some(HostTrap)
      else if amount <= 0 then Some(InvalidAmount)
      else if !FitsI128(Contribution(p, provider) + amount) || !FitsI128(p.totalLiquidity + amount) then Some(HostTrap)
      else None
    case WithdrawLiquidity(provider, amount) =>
      if provider !in auth then Some(HostTrap)
      else if amount <= 0 then Some(InvalidAmount)
      else if provider !in p.positions then Some(ProviderNotFound)
      else if amount > Contribution(p, provider) then Some(InsufficientLiquidity)
      else if !FitsI128(p.totalLiquidity * p.reserveRatio) then Some(HostTrap)
      else if !LeavesReserve(p, amount) then Some(InsufficientPoolReserve)
      else None
    case DistributeYield(amount) =>
      if p.admin.None? || p.admin.value !in auth then Some(HostTrap)
      else if amount <= 0 then Some(InvalidAmount)
      else if p.totalLiquidity <= 0 then Some(InsufficientLiquidity)
      else if ShareOverflows(p, amount) || !FitsI128(p.totalYield + amount) then Some(HostTrap)
      else None
    case ClaimYield(provider) =>
      if provider !in auth then Some(HostTrap)
      else if provider !in p.positions then Some(ProviderNotFound)
      else if Accrued(p, provider) <= 0 then Some(NoYieldAvailable)
      else None
    case FundPayout(to, amount) =>
      if p.admin.None? || p.admin.value !in auth then Some(HostTrap)
      else if amount <= 0 then Some(InvalidAmount)
      else if amount > p.totalLiquidity then Some(InsufficientLiquidity)
      else if p.token.None? then Some(NotInitialized)
      else if !CanSend(bank, p.token.value, RiskPoolContract, to, amount) then Some(HostTrap)
      else None
  }

  ghost predicate Meets(out: PoolStep, reason: Option<Error>) {
    if reason.Some? then out == Failed(reason.value) else out.Done?
  }

  lemma {:induction false} ReserveIsLeft(T: int, ratio: nat, amount: int)
    requires T >= 0
    ensures T * ratio >= 0
    ensures amount <= T - Reserve(T, ratio) <==> 10000 * (T - amount) > T * ratio - 10000
  {
    ProductMonotone(0, T, ratio);
  }

  lemma {:induction false} SharesFit(p: PoolState, amount: int)
    requires PoolLaws.Sound(p) && p.totalLiquidity > 0 && amount > 0
    ensures CreditInOrder(p.positions, p.providers, amount, p.totalLiquidity)
      == if ShareOverflows(p, amount) then Err(HostTrap)
         else Ok(PoolLaws.CreditAtOnce(p.positions, amount, p.totalLiquidity))
  {
    PoolLaws.LoopIsSimultaneous(p, amount);
    forall a | a in p.positions ensures amount * p.positions[a].contribution >= 0 {
      ProductMonotone(0, amount, p.positions[a].contribution);
    }
  }

  /** Each call fails with its first reason, and succeeds without one. */
  lemma {:induction false} PoolCallAnswers(p: PoolState, bank: Bank, auth: set<Address>, call: PoolCall)
    requires PoolLaws.Sound(p)
    ensures Meets(Apply(p, bank, auth, call), NoPoolCall(p, bank, auth, call))
  {
    match call
    case WithdrawLiquidity(_, amount) => ReserveIsLeft(p.totalLiquidity, p.reserveRatio, amount);
    case DistributeYield(amount) => if p.totalLiquidity > 0 && amount > 0 { SharesFit(p, amount); }
    case _ =>
  }

  /** A withdrawal succeeds exactly when it is the provider's own, out of its
      contribution, and leaves the reserve. */
  lemma {:induction false} WithdrawsIff(p: PoolState, bank: Bank, auth: set<Address>, provider: Address, amount: int)
    requires PoolLaws.Sound(p) && FitsI128(p.totalLiquidity * p.reserveRatio)
    ensures Apply(p, bank, auth, WithdrawLiquidity(provider, amount)).Done? <==>
      && provider in auth && provider in p.positions
      && 0 < amount <= p.positions[provider].contribution
      && 10000 * (p.totalLiquidity - amount) > p.totalLiquidity * p.reserveRatio - 10000
  {
    PoolCallAnswers(p, bank, auth, WithdrawLiquidity(provider, amount));
  }

  // ------------------------------------------------------------ what it leaves

  /** Only this provider's contribution and accrued yield have changed, by these amounts. */
  ghost predicate Holds(p: PoolState, p': PoolState, provider: Address, contributed: int, accrued: int) {
    forall a ::
      && Contribution(p', a) == Contribution(p, a) + (if a == provider then contributed else 0)
      && Accrued(p', a) == Accrued(p, a) + (if a == provider then accrued else 0)
  }

  /** Every provider gets the whole part of its share of the amount by contribution. */
  ghost predicate Shared(p: PoolState, p': PoolState, amount: int) {
    forall a ::
      var credit := Accrued(p', a) - Accrued(p, a);
      && Contribution(p', a) == Contribution(p, a)
      && p.totalLiquidity * credit <= amount * Contribution(p, a) < p.totalLiquidity * (credit + 1)
  }

  /** The pool differs at most in its positions and provider list, apart from these fields. */
  predicate Totals(p: PoolState, p': PoolState, liquidity: int, distributed: int) {
    p' == p.(totalLiquidity := liquidity, totalYield := distributed, positions := p'.positions,
             providers := p'.providers)
  }

  /** Nothing is left of a position. */
  predicate Emptied(p: PoolState, provider: Address, withdrawn: int) {
    Contribution(p, provider) == withdrawn && Accrued(p, provider) == 0
  }

  ghost predicate Leaves(p: PoolState, bank: Bank, call: PoolCall, p': PoolState, bank': Bank, paid: int) {
    && (call.FundPayout? || bank' == bank)
    && paid == (if call.ClaimYield? then Accrued(p, call.provider) else 0)
    && match call
       case Init(admin) =>
         p' == p.(admin := Some(admin), totalLiquidity := 0, totalYield := 0, reserveRatio := 2000)
       case SetReserveRatio(_, ratio) => p' == p.(reserveRatio := ratio)
       case AddLiquidity(provider, amount) =>
         && Totals(p, p', p.totalLiquidity + amount, p.totalYield)
         && Holds(p, p', provider, amount, 0)
         && p'.positions.Keys == p.positions.Keys + {provider}
         && p'.providers == p.providers + (if provider in p.positions then [] else [provider])
       case WithdrawLiquidity(provider, amount) =>
         && Totals(p, p', p.totalLiquidity - amount, p.totalYield)
         && Holds(p, p', provider, -amount, 0)
         && p'.positions.Keys == p.positions.Keys
              - (if Emptied(p, provider, amount) then {provider} else {})
         && (Emptied(p, provider, amount) ==> Filtered(p.providers, provider, p'.providers))
         && (!Emptied(p, provider, amount) ==> p'.providers == p.providers)
       case DistributeYield(amount) =>
         && Totals(p, p', p.totalLiquidity, p.totalYield + amount)
         && Shared(p, p', amount)
         && p'.positions.Keys == p.positions.Keys && p'.providers == p.providers
       case ClaimYield(provider) =>
         && Totals(p, p', p.totalLiquidity, p.totalYield)
         && Holds(p, p', provider, 0, -Accrued(p, provider))
         && p'.positions.Keys == p.positions.Keys && p'.providers == p.providers
       case FundPayout(to, amount) =>
         && p.token.Some? && p' == p.(totalLiquidity := p.totalLiquidity - amount)
         && Moves(bank, bank', p.token.value, RiskPoolContract, to, amount)
  }

  lemma {:induction false} ShareIs(amount: int, c: int, T: int)
    requires T > 0 && amount >= 0 && c >= 0
    ensures T * Share(amount, c, T) <= amount * c < T * (Share(amount, c, T) + 1)
  {
    ProductMonotone(0, amount, c);
  }

  lemma {:induction false} DistributionLeaves(p: PoolState, bank: Bank, auth: set<Address>, amount: int)
    requires PoolLaws.Sound(p)
    ensures var out := Apply(p, bank, auth, DistributeYield(amount));
      out.Done? ==> Leaves(p, bank, DistributeYield(amount), out.pool, out.bank, out.amount)
  {
    var out := Apply(p, bank, auth, DistributeYield(amount));
    if out.Done? {
      PoolLaws.DistributeFindsAll(p, bank, auth, amount);
      forall a
        ensures var credit := Accrued(out.pool, a) - Accrued(p, a);
          && Contribution(out.pool, a) == Contribution(p, a)
          && p.totalLiquidity * credit <= amount * Contribution(p, a) < p.totalLiquidity * (credit + 1)
      {
        if a in p.positions { ShareIs(amount, p.positions[a].contribution, p.totalLiquidity); }
      }
    }
  }

  lemma {:induction false} DepositLeaves(p: PoolState, bank: Bank, auth: set<Address>, provider: Address, amount: int)
    requires PoolLaws.RegistryAgrees(p)
    ensures var out := Apply(p, bank, auth, AddLiquidity(provider, amount));
      out.Done? ==> Leaves(p, bank, AddLiquidity(provider, amount), out.pool, out.bank, out.amount)
  {
    assert provider in p.providers <==> provider in Elements(p.providers);
  }

  lemma {:induction false} WithdrawalLeaves(p: PoolState, bank: Bank, auth: set<Address>, provider: Address,
                                            amount: int)
    ensures var out := Apply(p, bank, auth, WithdrawLiquidity(provider, amount));
      out.Done? ==> Leaves(p, bank, WithdrawLiquidity(provider, amount), out.pool, out.bank, out.amount)
  {
    WithoutFilters(p.providers, provider);
  }

  lemma {:induction false} ClaimLeaves(p: PoolState, bank: Bank, auth: set<Address>, provider: Address)
    ensures var out := Apply(p, bank, auth, ClaimYield(provider));
      out.Done? ==> Leaves(p, bank, ClaimYield(provider), out.pool, out.bank, out.amount)
  {
  }

  lemma {:induction false} PayoutLeaves(p: PoolState, bank: Bank, auth: set<Address>, to: Address, amount: int)
    ensures var out := Apply(p, bank, auth, FundPayout(to, amount));
      out.Done? ==> Leaves(p, bank, FundPayout(to, amount), out.pool, out.bank, out.amount)
  {
    if p.token.Some? { TransferMoves(bank, p.token.value, RiskPoolContract, to, amount); }
  }

  /** Each successful call leaves exactly that, on every provider and in every total. */
  lemma {:induction false} PoolCallLeaves(p: PoolState, bank: Bank, auth: set<Address>, call: PoolCall)
    requires PoolLaws.Sound(p)
    ensures var out := Apply(p, bank, auth, call);
      out.Done? ==> Leaves(p, bank, call, out.pool, out.bank, out.amount)
  {
    match call
    case Init(_) =>
    case SetReserveRatio(_, _) =>
    case AddLiquidity(provider, amount) => DepositLeaves(p, bank, auth, provider, amount);
    case WithdrawLiquidity(provider, amount) => WithdrawalLeaves(p, bank, auth, provider, amount);
    case DistributeYield(amount) => DistributionLeaves(p, bank, auth, amount);
    case ClaimYield(provider) => ClaimLeaves(p, bank, auth, provider);
    case FundPayout(to, amount) => PayoutLeaves(p, bank, auth, to, amount);
  }
}
