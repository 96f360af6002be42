/**
 The RiskPool contract in its own form: an object whose entry points read and
 rewrite storage in place, with the loops the source has.  Each entry point is
 proved against the corresponding step of module Pool.
 */
module PoolContract {
  import opened Types
  import opened Sequences
  import opened Pool

  /** What the ledger host keeps for every contract: the clock and the balances
      held by token contracts. */
  class Host {
    var time: nat
    var bank: Bank

    constructor (time: nat, bank: Bank)
      ensures this.time == time && this.bank == bank
    {
      this.time := time;
      this.bank := bank;
    }

    /** TokenClient.transfer; false is a trap. */
    method TransferToken(token: Address, from: Address, to: Address, amount: int) returns (ok: bool)
      modifies this`bank
      ensures var moved := Transfer(old(bank), token, from, to, amount);
        && ok == moved.Some?
        && bank == if ok then moved.value else old(bank)
    {
      var moved := Transfer(bank, token, from, to, amount);
      if moved.Some? {
        bank := moved.value;
      }
      return moved.Some?;
    }

    /** A call on the token contract itself. */
    method MoveTokens(token: Address, from: Option<Address>, to: Address, amount: int) returns (ok: bool)
      modifies this`bank
      ensures var moved := Move(old(bank), token, from, to, amount);
        && ok == moved.Some?
        && bank == if ok then moved.value else old(bank)
    {
      var moved := Move(bank, token, from, to, amount);
      if moved.Some? {
        bank := moved.value;
      }
      return moved.Some?;
    }
  }

  /** A body meets its step when it returns the step's verdict and, on success,
      has written exactly the step's storage.  What a failing body leaves behind
      is undone by the host. */
  ghost predicate Meets(step: PoolStep, r: Result<int>, pool: PoolState, bank: Bank) {
    match step
    case Failed(e) => r == Err(e)
    case Done(pool', bank', amount) => r == Ok(amount) && pool == pool' && bank == bank'
  }

  class RiskPool {
    const host: Host
    var admin: Option<Address>
    var totalLiquidity: int
    var totalYield: int
    var reserveRatio: nat
    var positions: Positions
    var providers: seq<Address>
    const token: Option<Address>

    constructor (host: Host, token: Option<Address>)
      ensures this.host == host
      ensures State() == Deployed(token)
    {
      this.host := host;
      this.token := token;
      admin := None;
      totalLiquidity, totalYield, reserveRatio := 0, 0, 2000;
      positions, providers := map[], [];
    }

    function State(): PoolState
      reads this
    {
      PoolState(admin, totalLiquidity, totalYield, reserveRatio, positions, providers, token)
    }

    method InitBody(newAdmin: Address) returns (r: Result<int>)
      modifies this
      ensures Meets(Apply(old(State()), old(host.bank), {}, Init(newAdmin)), r, State(), host.bank)
    {
      if admin.Some? { return Err(AlreadyInitialized); }
      admin := Some(newAdmin);
      totalLiquidity := 0;
      totalYield := 0;
      reserveRatio := 2000;
      return Ok(0);
    }

    method SetReserveRatioBody(auth: set<Address>, caller: Address, ratio: nat) returns (r: Result<int>)
      modifies this
      ensures Meets(Apply(old(State()), old(host.bank), auth, SetReserveRatio(caller, ratio)), r, State(), host.bank)
    {
      if caller !in auth || admin.None? { return Err(HostTrap); }
      if caller != admin.value { return Err(Unauthorized); }
      if ratio > 10000 { return Err(InvalidAmount); }
      reserveRatio := ratio;
      return Ok(0);
    }

    /** ensure_provider_registered: scan, then append. */
    method EnsureProviderRegistered(provider: Address)
      modifies this`providers
      ensures providers == Registered(old(providers), provider)
    {
      var alreadyRegistered := VecContains(providers, provider);
      if !alreadyRegistered {
        providers := providers + [provider];
      }
    }

    method AddLiquidityBody(auth: set<Address>, provider: Address, amount: int) returns (r: Result<int>)
      modifies this
      ensures Meets(AddStep(old(State()), old(host.bank), auth, provider, amount), r, State(), host.bank)
    {
      if provider !in auth { return Err(HostTrap); }
      if amount <= 0 { return Err(InvalidAmount); }
      var position := Position(provider, 0, 0);
      if provider in positions {
        position := positions[provider];
      }
      if !FitsI128(position.contribution + amount) { return Err(HostTrap); }
      position := position.(contribution := position.contribution + amount);
      if !FitsI128(totalLiquidity + amount) { return Err(HostTrap); }
      var newTotal := totalLiquidity + amount;
      positions := positions[provider := position];
      EnsureProviderRegistered(provider);
      totalLiquidity := newTotal;
      return Ok(0);
    }

    method WithdrawLiquidityBody(auth: set<Address>, provider: Address, amount: int) returns (r: Result<int>)
      modifies this
      ensures Meets(WithdrawStep(old(State()), old(host.bank), auth, provider, amount), r, State(), host.bank)
    {
      if provider !in auth { return Err(HostTrap); }
      if amount <= 0 { return Err(InvalidAmount); }
      if provider !in positions { return Err(ProviderNotFound); }
      var position := positions[provider];
      if amount > position.contribution { return Err(InsufficientLiquidity); }
      if !FitsI128(totalLiquidity * reserveRatio) { return Err(HostTrap); }
      var available := totalLiquidity - TruncDiv(totalLiquidity * reserveRatio, 10000);
      if amount > available { return Err(InsufficientPoolReserve); }
      position := position.(contribution := position.contribution - amount);
      totalLiquidity := totalLiquidity - amount;
      if position.contribution == 0 && position.accruedYield == 0 {
        positions := positions - {provider};
        providers := FilterOut(providers, provider);
      } else {
        positions := positions[provider := position];
      }
      return Ok(0);
    }

    /** The distribution loop writes one position at a time. */
    method DistributeYieldBody(auth: set<Address>, amount: int) returns (r: Result<int>)
      modifies this
      ensures Meets(DistributeStep(old(State()), old(host.bank), auth, amount), r, State(), host.bank)
    {
      if admin.None? || admin.value !in auth { return Err(HostTrap); }
      if amount <= 0 { return Err(InvalidAmount); }
      if totalLiquidity <= 0 { return Err(InsufficientLiquidity); }
      var list := providers;
      for i := 0 to |list|
        invariant State() == old(State()).(positions := positions)
        invariant CreditInOrder(positions, list[i..], amount, totalLiquidity)
               == CreditInOrder(old(positions), list, amount, totalLiquidity)
      {
        var provider := list[i];
        assert list[i..][0] == provider && list[i..][1..] == list[i + 1..];
        if provider !in positions { return Err(ProviderNotFound); }
        var position := positions[provider];
        if !FitsI128(amount * position.contribution) { return Err(HostTrap); }
        var share := TruncDiv(amount * position.contribution, totalLiquidity);
        if !FitsI128(position.accruedYield + share) { return Err(HostTrap); }
        position := position.(accruedYield := position.accruedYield + share);
        positions := positions[provider := position];
      }
      if !FitsI128(totalYield + amount) { return Err(HostTrap); }
      totalYield := totalYield + amount;
      return Ok(0);
    }

    method ClaimYieldBody(auth: set<Address>, provider: Address) returns (r: Result<int>)
      modifies this
      ensures Meets(ClaimStep(old(State()), old(host.bank), auth, provider), r, State(), host.bank)
    {
      if provider !in auth { return Err(HostTrap); }
      if provider !in positions { return Err(ProviderNotFound); }
      var position := positions[provider];
      if position.accruedYield <= 0 { return Err(NoYieldAvailable); }
      var amount := position.accruedYield;
      positions := positions[provider := position.(accruedYield := 0)];
      return Ok(amount);
    }

    method FundPayoutBody(auth: set<Address>, to: Address, amount: int) returns (r: Result<int>)
      modifies this, host`bank
      ensures Meets(FundStep(old(State()), old(host.bank), auth, to, amount), r, State(), host.bank)
    {
      if admin.None? || admin.value !in auth { return Err(HostTrap); }
      if amount <= 0 { return Err(InvalidAmount); }
      if amount > totalLiquidity { return Err(InsufficientLiquidity); }
      totalLiquidity := totalLiquidity - amount;
      if token.None? { return Err(NotInitialized); }
      var ok := host.TransferToken(token.value, RiskPoolContract, to, amount);
      if !ok { return Err(HostTrap); }
      return Ok(0);
    }

    /** The host's undo after a failed call. */
    method Restore(saved: PoolState)
      requires saved.token == token
      modifies this
      ensures State() == saved
    {
      admin, totalLiquidity, totalYield := saved.admin, saved.totalLiquidity, saved.totalYield;
      reserveRatio, positions, providers := saved.reserveRatio, saved.positions, saved.providers;
    }

    /** One call from outside: run the body, and undo every write if it failed. */
    method Invoke(auth: set<Address>, call: PoolCall) returns (r: Result<int>)
      modifies this, host`bank
      ensures var step := Apply(old(State()), old(host.bank), auth, call);
        && Meets(step, r, State(), host.bank)
        && (step.Failed? ==> State() == old(State()) && host.bank == old(host.bank))
    {
      var savedPool, savedBank := State(), host.bank;
      match call {
      case Init(newAdmin) => r := InitBody(newAdmin);
      case SetReserveRatio(caller, ratio) => r := SetReserveRatioBody(auth, caller, ratio);
      case AddLiquidity(provider, amount) => r := AddLiquidityBody(auth, provider, amount);
      case WithdrawLiquidity(provider, amount) => r := WithdrawLiquidityBody(auth, provider, amount);
      case DistributeYield(amount) => r := DistributeYieldBody(auth, amount);
      case ClaimYield(provider) => r := ClaimYieldBody(auth, provider);
      case FundPayout(to, amount) => r := FundPayoutBody(auth, to, amount);
      }
      if r.Err? {
        host.bank := savedBank;
        Restore(savedPool);
      }
    }
  }
}
