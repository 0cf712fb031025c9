/**
 * Fungible-token balances as a map from holder to amount, as an ERC-20
 * token keeps them. Holders missing from the map hold zero.
 */
module Ledger {
  import opened Wrappers

  /** An account address; 0 stands for the zero address. */
  type Address = nat

  const ZeroAddress: Address := 0

  type Balances = map<Address, nat>

  function BalanceOf(b: Balances, a: Address): nat
  {
    if a in b then b[a] else 0
  }

  /** Adds `amount` to the balance of `to`; every other holder keeps its balance. */
  function Credit(b: Balances, to: Address, amount: nat): (r: Balances)
    ensures BalanceOf(r, to) == BalanceOf(b, to) + amount
    ensures forall a :: a != to ==> BalanceOf(r, a) == BalanceOf(b, a)
  {
    b[to := BalanceOf(b, to) + amount]
  }

  /**
   * Moves `amount` from `from` to `to`. Fails, as a token transfer reverts,
   * when `from` holds less than `amount`.
   */
  function Transfer(b: Balances, from: Address, to: Address, amount: nat): (r: Option<Balances>)
    ensures r.Some? <==> amount <= BalanceOf(b, from)
    ensures r.Some? && from != to ==>
      BalanceOf(r.value, from) == BalanceOf(b, from) - amount &&
      BalanceOf(r.value, to) == BalanceOf(b, to) + amount
    ensures r.Some? ==> forall a :: a != from && a != to ==> BalanceOf(r.value, a) == BalanceOf(b, a)
    ensures r.Some? && from == to ==> forall a :: BalanceOf(r.value, a) == BalanceOf(b, a)
  {
    if amount <= BalanceOf(b, from) then
      var debited := b[from := BalanceOf(b, from) - amount];
      Some(Credit(debited, to, amount))
    else
      None
  }
}
