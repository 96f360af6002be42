/**
 The risk pool as a value: its storage, and each entry point as a step that
 either fails and changes nothing or returns the new storage and token ledger.
 */
module Pool {
  import opened Types
  import opened Sequences

  datatype Position = Position(provider: Address, contribution: int, accruedYield: int)

  type Positions = map<Address, Position>

  /** token is the pool's own PremiumToken key.  No entry point of the pool
      writes it, so it keeps the value it has at construction. */
  datatype PoolState = PoolState(
    admin: Option<Address>,
    totalLiquidity: int,
    totalYield: int,
    reserveRatio: nat,
    positions: Positions,
    providers: seq<Address>,
    token: Option<Address>)

  /** A pool nobody has called yet: every key absent, read as its default. */
  function Deployed(token: Option<Address>): PoolState {
    PoolState(None, 0, 0, 2000, map[], [], token)
  }

  datatype PoolCall =
    | Init(admin: Address)
    | SetReserveRatio(caller: Address, ratio: nat)
    | AddLiquidity(provider: Address, amount: int)
    | WithdrawLiquidity(provider: Address, amount: int)
    | DistributeYield(amount: int)
    | ClaimYield(provider: Address)
    | FundPayout(to: Address, amount: int)

  /** On success: the new pool, the new ledger, and the amount claim_yield returns. */
  datatype PoolStep = Failed(error: Error) | Done(pool: PoolState, bank: Bank, amount: int)

  /** The fraction of the liquidity that withdrawals must leave behind. */
  function Reserve(totalLiquidity: int, ratio: nat): int {
    totalLiquidity * ratio / 10000
  }

  /** Rust's division: it truncates toward zero. */
  function TruncDiv(a: int, b: int): int
    requires b > 0
  {
    if a >= 0 then a / b else -((-a) / b)
  }

  function Share(amount: int, contribution: int, totalLiquidity: int): int
    requires totalLiquidity > 0
  {
    TruncDiv(amount * contribution, totalLiquidity)
  }

  /** One provider's credit, or None when a product or sum leaves i128. */
  function Credited(p: Position, amount: int, totalLiquidity: int): Option<Position>
    requires totalLiquidity > 0
  {
    var share := Share(amount, p.contribution, totalLiquidity);
    if !FitsI128(amount * p.contribution) || !FitsI128(p.accruedYield + share) then None
    else Some(p.(accruedYield := p.accruedYield + share))
  }

  /** The distribution loop: credit the registered providers in list order. */
  function CreditInOrder(positions: Positions, providers: seq<Address>, amount: int, totalLiquidity: int)
    : (r: Result<Positions>)
    requires totalLiquidity > 0
    ensures r.Err? ==> r.error == ProviderNotFound || r.error == HostTrap
  {
    if providers == [] then Ok(positions)
    else if providers[0] !in positions then Err(ProviderNotFound)
    else
      var credited := Credited(positions[providers[0]], amount, totalLiquidity);
      if credited.None? then Err(HostTrap)
      else CreditInOrder(positions[providers[0] := credited.value], providers[1..], amount, totalLiquidity)
  }

  function Registered(providers: seq<Address>, provider: Address): seq<Address> {
    if provider in providers then providers else providers + [provider]
  }

  function AddStep(p: PoolState, bank: Bank, auth: set<Address>, provider: Address, amount: int): PoolStep {
    if provider !in auth then Failed(HostTrap)
    else if amount <= 0 then Failed(InvalidAmount)
    else
      var position := if provider in p.positions then p.positions[provider] else Position(provider, 0, 0);
      if !FitsI128(position.contribution + amount) || !FitsI128(p.totalLiquidity + amount) then Failed(HostTrap)
      else Done(p.(totalLiquidity := p.totalLiquidity + amount,
                   positions := p.positions[provider := position.(contribution := position.contribution + amount)],
                   providers := Registered(p.providers, provider)),
                bank, 0)
  }

  function WithdrawStep(p: PoolState, bank: Bank, auth: set<Address>, provider: Address, amount: int): PoolStep {
    if provider !in auth then Failed(HostTrap)
    else if amount <= 0 then Failed(InvalidAmount)
    else if provider !in p.positions then Failed(ProviderNotFound)
    else
      var position := p.positions[provider];
      if amount > position.contribution then Failed(InsufficientLiquidity)
      else if !FitsI128(p.totalLiquidity * p.reserveRatio) then Failed(HostTrap)
      else if amount > p.totalLiquidity - TruncDiv(p.totalLiquidity * p.reserveRatio, 10000) then
        Failed(InsufficientPoolReserve)
      else
        var left := position.(contribution := position.contribution - amount);
        var shrunk := p.(totalLiquidity := p.totalLiquidity - amount);
        if left.contribution == 0 && left.accruedYield == 0 then
          Done(shrunk.(positions := p.positions - {provider}, providers := Without(p.providers, provider)), bank, 0)
        else
          Done(shrunk.(positions := p.positions[provider := left]), bank, 0)
  }

  function DistributeStep(p: PoolState, bank: Bank, auth: set<Address>, amount: int): PoolStep {
    if p.admin.None? || p.admin.value !in auth then Failed(HostTrap)
    else if amount <= 0 then Failed(InvalidAmount)
    else if p.totalLiquidity <= 0 then Failed(InsufficientLiquidity)
    else
      var credited := CreditInOrder(p.positions, p.providers, amount, p.totalLiquidity);
      if credited.Err? then Failed(credited.error)
      else if !FitsI128(p.totalYield + amount) then Failed(HostTrap)
      else Done(p.(positions := credited.value, totalYield := p.totalYield + amount), bank, 0)
  }

  function ClaimStep(p: PoolState, bank: Bank, auth: set<Address>, provider: Address): PoolStep {
    if provider !in auth then Failed(HostTrap)
    else if provider !in p.positions then Failed(ProviderNotFound)
    else
      var position := p.positions[provider];
      if position.accruedYield <= 0 then Failed(NoYieldAvailable)
      else Done(p.(positions := p.positions[provider := position.(accruedYield := 0)]), bank, position.accruedYield)
  }

  function FundStep(p: PoolState, bank: Bank, auth: set<Address>, to: Address, amount: int): PoolStep {
    if p.admin.None? || p.admin.value !in auth then Failed(HostTrap)
    else if amount <= 0 then Failed(InvalidAmount)
    else if amount > p.totalLiquidity then Failed(InsufficientLiquidity)
    else if p.token.None? then Failed(NotInitialized)
    else
      var moved := Transfer(bank, p.token.value, RiskPoolContract, to, amount);
      if moved.None? then Failed(HostTrap)
      else Done(p.(totalLiquidity := p.totalLiquidity - amount), moved.value, 0)
  }

  function Apply(p: PoolState, bank: Bank, auth: set<Address>, call: PoolCall): PoolStep {
    match call
    case Init(admin) =>
      if p.admin.Some? then Failed(AlreadyInitialized)
      else Done(p.(admin := Some(admin), totalLiquidity := 0, totalYield := 0, reserveRatio := 2000), bank, 0)
    case SetReserveRatio(caller, ratio) =>
      if caller !in auth || p.admin.None? then Failed(HostTrap)
      else if caller != p.admin.value then Failed(Unauthorized)
      else if ratio > 10000 then Failed(InvalidAmount)
      else Done(p.(reserveRatio := ratio), bank, 0)
    case AddLiquidity(provider, amount) => AddStep(p, bank, auth, provider, amount)
    case WithdrawLiquidity(provider, amount) => WithdrawStep(p, bank, auth, provider, amount)
    case DistributeYield(amount) => DistributeStep(p, bank, auth, amount)
    case ClaimYield(provider) => ClaimStep(p, bank, auth, provider)
    case FundPayout(to, amount) => FundStep(p, bank, auth, to, amount)
  }
}
