/**
 * A lot (batch) of a product: the unit of truth for quantity on hand and expiration
 * (catalog/models/lot.py). Only remaining_quantity changes; it changes through
 * adjust_quantity, or directly when an ADJUSTMENT movement is applied.
 */
module Lots {
  import opened Wrappers

  /** The validator on the initial quantity. Validators run in forms, not in save(). */
  const MinInitialQuantity: nat := 1

  /** The two ValueError branches of adjust_quantity. */
  datatype AdjustError =
    | InsufficientInLot(remaining: nat, requested: nat)
    | AboveInitial(initial: nat, attempted: int)

  function Abs(x: int): nat { if x < 0 then -x else x }

  /**
   * The remaining quantity adjust_quantity stores for a lot holding `remaining`
   * out of `initial`, or the error it raises instead.
   */
  function Adjusted(remaining: nat, initial: nat, delta: int): Result<nat, AdjustError>
  {
    var n := remaining + delta;
    if n < 0 then Failure(InsufficientInLot(remaining, Abs(delta)))
    else if n > initial then Failure(AboveInitial(initial, n))
    else Success(n)
  }

  /** An adjustment succeeds exactly when the new value lies in [0, initial], and then adds delta. */
  lemma AdjustedSucceedsIff(remaining: nat, initial: nat, delta: int)
    ensures Adjusted(remaining, initial, delta).Success? <==> 0 <= remaining + delta <= initial
    ensures Adjusted(remaining, initial, delta).Success? ==>
              Adjusted(remaining, initial, delta).value == remaining + delta
  {
  }

  /** Which error is raised: going below zero is checked first, then exceeding the initial quantity. */
  lemma AdjustedErrors(remaining: nat, initial: nat, delta: int)
    ensures remaining + delta < 0 ==>
              Adjusted(remaining, initial, delta) == Failure(InsufficientInLot(remaining, Abs(delta)))
    ensures 0 <= remaining + delta && remaining + delta > initial ==>
              Adjusted(remaining, initial, delta) == Failure(AboveInitial(initial, remaining + delta))
  {
  }

  /** Taking d out of an in-bounds lot and putting d back restores the lot. */
  lemma AdjustRoundTrip(remaining: nat, initial: nat, d: nat)
    requires remaining <= initial
    requires Adjusted(remaining, initial, -(d as int)).Success?
    ensures Adjusted(Adjusted(remaining, initial, -(d as int)).value, initial, d) == Success(remaining)
  {
  }

  /** Applying a sequence of adjustments one after the other, stopping at the first error. */
  function AdjustedAll(remaining: nat, initial: nat, deltas: seq<int>): Result<nat, AdjustError>
    decreases |deltas|
  {
    if deltas == [] then Success(remaining)
    else match Adjusted(remaining, initial, deltas[0])
      case Failure(e) => Failure(e)
      case Success(n) => AdjustedAll(n, initial, deltas[1..])
  }

  function SumInts(s: seq<int>): int
    decreases |s|
  {
    if s == [] then 0 else s[0] + SumInts(s[1..])
  }

  /**
   * Lot conservation: when a whole sequence of adjustments succeeds, the lot ends at its
   * start value plus the net delta, and every value after a step stays in [0, initial].
   */
  lemma {:induction false} AdjustedAllConserves(remaining: nat, initial: nat, deltas: seq<int>)
    requires AdjustedAll(remaining, initial, deltas).Success?
    ensures AdjustedAll(remaining, initial, deltas).value == remaining + SumInts(deltas)
    ensures forall k :: 0 < k <= |deltas| ==> 0 <= remaining + SumInts(deltas[..k]) <= initial
    decreases |deltas|
  {
    if deltas != [] {
      var n := Adjusted(remaining, initial, deltas[0]).value;
      AdjustedAllConserves(n, initial, deltas[1..]);
      forall k | 0 < k <= |deltas|
        ensures 0 <= remaining + SumInts(deltas[..k]) <= initial
      {
        assert deltas[..k][1..] == deltas[1..][..k - 1];
        if k == 1 {
          assert deltas[1..][..0] == [];
        }
      }
      assert deltas[..|deltas|] == deltas;
    }
  }

  class Lot {
    /** Initial quantity, fixed at creation. */
    const quantity: nat
    /** Day ordinal of date of expiry. */
    const expirationDate: int
    /** Creation ordinal: the created_at timestamp that breaks ties in the FEFO order. */
    const createdAt: int
    const purchasePrice: nat
    const salePrice: nat
    const isActive: bool
    /** remaining_quantity (a PositiveIntegerField, so never negative). */
    var remaining: nat

    /** Lot.save for a new instance: remaining_quantity starts at the initial quantity. */
    constructor (quantity: nat, expirationDate: int, createdAt: int,
                 purchasePrice: nat, salePrice: nat, isActive: bool)
      ensures this.quantity == quantity && this.expirationDate == expirationDate
      ensures this.createdAt == createdAt && this.isActive == isActive
      ensures this.purchasePrice == purchasePrice && this.salePrice == salePrice
      ensures remaining == quantity
    {
      this.quantity := quantity;
      this.expirationDate := expirationDate;
      this.createdAt := createdAt;
      this.purchasePrice := purchasePrice;
      this.salePrice := salePrice;
      this.isActive := isActive;
      remaining := quantity;
    }

    /** The validator on the initial quantity. */
    predicate QuantityValid() { quantity >= MinInitialQuantity }

    /** is_expired, with today passed in. */
    predicate IsExpired(today: int) { expirationDate <= today }

    /** is_exhausted. */
    predicate IsExhausted() reads this { remaining == 0 }

    /** The invariant adjust_quantity defends: 0 <= remaining <= quantity. */
    predicate InBounds() reads this { remaining <= quantity }

    /**
     * adjust_quantity: on success the lot holds remaining + delta; on error it raises
     * and the lot keeps its value.
     */
    method AdjustQuantity(delta: int) returns (r: Outcome<AdjustError>)
      modifies this
      ensures Adjusted(old(remaining), quantity, delta).Success? ==>
                r.Pass? && remaining == Adjusted(old(remaining), quantity, delta).value
      ensures Adjusted(old(remaining), quantity, delta).Failure? ==>
                r == Fail(Adjusted(old(remaining), quantity, delta).error) && remaining == old(remaining)
      ensures r.Pass? ==> InBounds()
    {
      var n := remaining + delta;
      if n < 0 {
        return Fail(InsufficientInLot(remaining, Abs(delta)));
      }
      if n > quantity {
        return Fail(AboveInitial(quantity, n));
      }
      remaining := n;
      r := Pass;
    }
  }
}
