/**
 Values shared by the insurance contract and the risk pool: addresses, errors,
 results, machine-integer bounds and the token ledger the two contracts draw on.
 */
module Types {

  const I128_MAX: int := 0x7FFF_FFFF_FFFF_FFFF_FFFF_FFFF_FFFF_FFFF
  const I128_MIN: int := -0x8000_0000_0000_0000_0000_0000_0000_0000
  const U64_MAX: int := 0xFFFF_FFFF_FFFF_FFFF

  /** The two contracts are told apart from every other address; token
      contracts, oracles and users are all accounts here. */
  datatype Address = InsuranceContract | RiskPoolContract | Account(key: nat)

  datatype Option<+T> = None | Some(value: T)

  /** The contract errors the model can return.  HostTrap stands for every host
      abort: a missing authorisation, an arithmetic overflow, an unwrap of an
      absent value, and an error returned by a called contract. */
  datatype Error =
    | InvalidAmount | InvalidPremium | PolicyNotFound | PolicyNotActive | PolicyExpired
    | ClaimExceedsCoverage | NoPendingClaim | Unauthorized | ClaimNotFound
    | AlreadyInitialized | InvalidDuration | InvalidClaimAmount | InsufficientLiquidity
    | ProviderNotFound | NoYieldAvailable | NotInitialized | ContractPaused
    | AdminAlreadyExists | AdminNotFound | InvalidThreshold | AlreadyVoted
    | RenewalGracePeriodExpired | PolicyNotRenewable | InsufficientContractBalance
    | OracleVerificationFailed | CoverageDecrease | PolicyAlreadyExpired | PremiumMismatch
    | MaxPoliciesReached | InsufficientPoolReserve | OracleNotRegistered
    | OracleConditionNotMet | ProofTooLong | ClaimAmountOverflow | PremiumOverflow
    | TriggerConditionTooLong | OracleDataUnavailable | InvalidOracleTimestamp
    | InvalidQuorumThreshold
    | HostTrap

  datatype Result<+T> = Ok(value: T) | Err(error: Error)

  predicate FitsI128(x: int) { I128_MIN <= x <= I128_MAX }

  /** Balances by (token, owner); an absent entry is zero. */
  type Bank = map<(Address, Address), int>

  function Balance(bank: Bank, token: Address, owner: Address): int {
    if (token, owner) in bank then bank[(token, owner)] else 0
  }

  /** A token transfer.  None is a trap: negative amount, too small a balance,
      or a recipient balance outside i128. */
  function Transfer(bank: Bank, token: Address, from: Address, to: Address, amount: int): Option<Bank> {
    if amount < 0 || Balance(bank, token, from) < amount then None
    else if from == to then Some(bank)
    else if !FitsI128(Balance(bank, token, to) + amount) then None
    else Some(bank[(token, from) := Balance(bank, token, from) - amount]
                  [(token, to) := Balance(bank, token, to) + amount])
  }

  /** Tokens moved outside the two contracts: by an owner, or newly issued. */
  function Move(bank: Bank, token: Address, from: Option<Address>, to: Address, amount: int): Option<Bank> {
    if from.Some? then Transfer(bank, token, from.value, to, amount)
    else if amount < 0 || !FitsI128(Balance(bank, token, to) + amount) then None
    else Some(bank[(token, to) := Balance(bank, token, to) + amount])
  }
}
