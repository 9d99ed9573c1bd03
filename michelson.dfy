// The few pieces of the Tezos/Michelson execution model that the lottery
// contract relies on: amounts in mutez, addresses, queued transfers, and the
// primitive operations that abort the whole call instead of returning a value.

module Michelson {

  /** An amount of tez, counted in mutez (1 tez = 1_000_000 mutez). */
  type Mutez = nat

  const MutezPerTez: nat := 1_000_000

  /** `sp.tez(n)` */
  function Tez(n: nat): Mutez
  {
    n * MutezPerTez
  }

  /** An account identity; only compared for equality. */
  datatype Address = Address(name: string)

  /** One outgoing `sp.send(destination, amount)`, queued until the call commits. */
  datatype Transfer = Transfer(destination: Address, amount: Mutez)

  datatype Option<T> = None | Some(value: T)

  /** Why a call was aborted.  Every abort rolls back the whole call. */
  datatype Abort =
    | Verify(reason: string)  // a failed `sp.verify(cond, reason)`
    | AsNatNegative           // `sp.as_nat` applied to a negative int
    | MutezUnderflow          // mutez subtraction below zero
    | DivisionByZero          // `%` by zero
    | MissingKey(key: nat)    // lookup of a key that is not in a map

  /** `sp.as_nat(i)`: the natural number `i`, or an abort when `i < 0`. */
  function AsNat(i: int): (r: Option<nat>)
    ensures r.Some? <==> 0 <= i
    ensures r.Some? ==> r.value as int == i
  {
    if i < 0 then None else Some(i)
  }

  /**
   * Subtraction of two mutez amounts.  Michelson has no negative amounts:
   * the subtraction fails (and with it the whole call) when `b > a`.
   */
  function SubMutez(a: Mutez, b: Mutez): (r: Option<Mutez>)
    ensures r.Some? <==> b <= a
    ensures r.Some? ==> r.value + b == a
  {
    if b <= a then Some(a - b) else None
  }
}
