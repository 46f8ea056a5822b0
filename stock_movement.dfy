/**
 * Stock movements (catalog/models/stock_movement.py): an append-only log of IN, OUT and
 * ADJUSTMENT records. Saving a new movement applies it to its lot first, unless the
 * instance carries the skip flag.
 */
module Movements {
  import opened Wrappers
  import opened Lots

  datatype MovementType = In | Out | Adjustment

  /** One persisted row of the movement table. Dates are day ordinals. */
  datatype MovementRecord = MovementRecord(
    lot: Lot, movementType: MovementType, quantity: nat,
    source: string, date: int, comment: string)

  /** The stock_movement table, in insertion order. */
  class MovementTable {
    var rows: seq<MovementRecord>

    constructor ()
      ensures rows == []
    {
      rows := [];
    }
  }

  /**
   * The remaining quantity a lot holds after apply_to_lot, or the error it raises.
   * ADJUSTMENT assigns the field directly and so bypasses both checks of adjust_quantity.
   */
  function Applied(t: MovementType, q: nat, remaining: nat, initial: nat): Result<nat, AdjustError>
  {
    match t
    case Adjustment => Success(q)
    case In => Adjusted(remaining, initial, q)
    case Out => Adjusted(remaining, initial, -(q as int))
  }

  /** IN adds q and OUT subtracts q, each within [0, initial]; ADJUSTMENT always sets q. */
  lemma AppliedMeaning(t: MovementType, q: nat, remaining: nat, initial: nat)
    ensures t == In ==>
              (Applied(t, q, remaining, initial).Success? <==> remaining + q <= initial)
    ensures t == Out ==>
              (Applied(t, q, remaining, initial).Success? <==> q <= remaining && remaining - q <= initial)
    ensures Applied(t, q, remaining, initial).Success? ==>
              Applied(t, q, remaining, initial).value ==
                (match t case In => remaining + q case Out => remaining - q case Adjustment => q)
  {
    AdjustedSucceedsIff(remaining, initial, if t == In then q else -(q as int));
  }

  /**
   * An ADJUSTMENT above the initial quantity is accepted and leaves the lot over its
   * bound, while an IN reaching the same value is refused.
   */
  lemma AdjustmentIgnoresBounds(remaining: nat, initial: nat)
    requires remaining <= initial
    ensures Applied(Adjustment, initial + 1, remaining, initial) == Success(initial + 1)
    ensures Applied(In, initial + 1 - remaining, remaining, initial) ==
              Failure(AboveInitial(initial, initial + 1))
  {
  }

  /** An OUT of q followed by an IN of q restores an in-bounds lot. */
  lemma OutThenInRestores(q: nat, remaining: nat, initial: nat)
    requires remaining <= initial
    requires Applied(Out, q, remaining, initial).Success?
    ensures Applied(In, q, Applied(Out, q, remaining, initial).value, initial) == Success(remaining)
  {
    AdjustRoundTrip(remaining, initial, q);
  }

  class StockMovement {
    const lot: Lot
    const movementType: MovementType
    const quantity: nat
    const source: string
    const date: int
    const comment: string
    /** The `_skip_lot_update` attribute some callers attach before saving. */
    const skipLotUpdate: bool
    /** Whether the instance has a primary key (has been inserted). */
    var saved: bool

    constructor (lot: Lot, movementType: MovementType, quantity: nat,
                 source: string, date: int, comment: string, skipLotUpdate: bool)
      ensures this.lot == lot && this.movementType == movementType && this.quantity == quantity
      ensures this.source == source && this.date == date && this.comment == comment
      ensures this.skipLotUpdate == skipLotUpdate && !saved
    {
      this.lot := lot;
      this.movementType := movementType;
      this.quantity := quantity;
      this.source := source;
      this.date := date;
      this.comment := comment;
      this.skipLotUpdate := skipLotUpdate;
      saved := false;
    }

    function Record(): MovementRecord
    {
      MovementRecord(lot, movementType, quantity, source, date, comment)
    }

    /** apply_to_lot: the lot's new remaining quantity is given by Applied. */
    method ApplyToLot() returns (r: Outcome<AdjustError>)
      modifies lot
      ensures Applied(movementType, quantity, old(lot.remaining), lot.quantity).Success? ==>
                r.Pass? && lot.remaining == Applied(movementType, quantity, old(lot.remaining), lot.quantity).value
      ensures Applied(movementType, quantity, old(lot.remaining), lot.quantity).Failure? ==>
                r == Fail(Applied(movementType, quantity, old(lot.remaining), lot.quantity).error) &&
                lot.remaining == old(lot.remaining)
    {
      match movementType
      case Adjustment =>
        lot.remaining := quantity;
        r := Pass;
      case In =>
        r := lot.AdjustQuantity(quantity);
      case Out =>
        r := lot.AdjustQuantity(-(quantity as int));
    }

    /**
     * save: a new movement without the skip flag is applied to its lot, then inserted;
     * an error from the lot aborts the insert. Re-saving an inserted movement rewrites
     * the same row and leaves the lot alone.
     */
    method Save(table: MovementTable) returns (r: Outcome<AdjustError>)
      modifies this, lot, table
      ensures old(saved) ==>
                r.Pass? && saved && lot.remaining == old(lot.remaining) && table.rows == old(table.rows)
      ensures !old(saved) && skipLotUpdate ==>
                r.Pass? && saved && lot.remaining == old(lot.remaining) &&
                table.rows == old(table.rows) + [Record()]
      ensures !old(saved) && !skipLotUpdate ==>
                match Applied(movementType, quantity, old(lot.remaining), lot.quantity)
                case Success(n) =>
                  r.Pass? && saved && lot.remaining == n && table.rows == old(table.rows) + [Record()]
                case Failure(e) =>
                  r == Fail(e) && !saved && lot.remaining == old(lot.remaining) && table.rows == old(table.rows)
    {
      if saved {
        return Pass;
      }
      if !skipLotUpdate {
        r := ApplyToLot();
        if r.Fail? {
          return;
        }
      }
      table.rows := table.rows + [Record()];
      saved := true;
      r := Pass;
    }
  }

  /** StockMovement.objects.create: a fresh instance, saved at once. */
  method Create(table: MovementTable, lot: Lot, movementType: MovementType, quantity: nat,
                source: string, date: int, comment: string)
    returns (m: StockMovement, r: Outcome<AdjustError>)
    modifies lot, table
    ensures fresh(m) && m.lot == lot && m.Record() == MovementRecord(lot, movementType, quantity, source, date, comment)
    ensures match Applied(movementType, quantity, old(lot.remaining), lot.quantity)
            case Success(n) =>
              r.Pass? && lot.remaining == n && table.rows == old(table.rows) + [m.Record()]
            case Failure(e) =>
              r == Fail(e) && lot.remaining == old(lot.remaining) && table.rows == old(table.rows)
  {
    m := new StockMovement(lot, movementType, quantity, source, date, comment, false);
    r := m.Save(table);
  }
}
