/**
 What a token transfer does to the balances, and when it goes through.
 */
module Tokens {
  import opened Types

  predicate CanSend(bank: Bank, token: Address, from: Address, to: Address, amount: int) {
    0 <= amount <= Balance(bank, token, from) && (from == to || FitsI128(Balance(bank, token, to) + amount))
  }

  /** Exactly this amount has left one balance and reached another. */
  ghost predicate Moves(bank: Bank, bank': Bank, token: Address, from: Address, to: Address, amount: int) {
    forall t, o :: Balance(bank', t, o)
      == Balance(bank, t, o) + (if t == token && o == to then amount else 0)
         - (if t == token && o == from then amount else 0)
  }

  /** Newly issued tokens come out of nobody's balance. */
  ghost predicate Issues(bank: Bank, bank': Bank, token: Address, to: Address, amount: int) {
    forall t, o :: Balance(bank', t, o) == Balance(bank, t, o) + if t == token && o == to then amount else 0
  }

  lemma {:induction false} TransferMoves(bank: Bank, token: Address, from: Address, to: Address, amount: int)
    ensures var moved := Transfer(bank, token, from, to, amount);
      && (moved.Some? <==> CanSend(bank, token, from, to, amount))
      && (moved.Some? ==> Moves(bank, moved.value, token, from, to, amount))
  {
  }

  lemma {:induction false} MoveMoves(bank: Bank, token: Address, from: Option<Address>, to: Address, amount: int)
    ensures var moved := Move(bank, token, from, to, amount);
      && (from.Some? ==> moved == Transfer(bank, token, from.value, to, amount))
      && (from.None? ==>
            && (moved.Some? <==> amount >= 0 && FitsI128(Balance(bank, token, to) + amount))
            && (moved.Some? ==> Issues(bank, moved.value, token, to, amount)))
  {
  }

  /** Who has never held a token has none of it. */
  lemma {:induction false} NothingHeld(bank: Bank, token: Address, owner: Address)
    requires (token, owner) !in bank
    ensures Balance(bank, token, owner) == 0
    ensures !CanSend(bank, token, owner, owner, 1)
  {
  }
}
