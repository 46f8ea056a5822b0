/**
 * The two data migrations of the sales app. Migration 0007 moves the legacy
 * discount_amount into discount_type/discount_value and back; migration 0010
 * recomputes every sale's totals from its items and discount. Both run on the
 * historical models, whose save writes the named columns and nothing else.
 */
module Migrations {
  import opened Wrappers
  import opened SaleRules
  import opened SalesDb
  import opened Sales

  // ---------------------------------------------------------------------------
  // 0010_recalculate_total_amount_after_discount
  // ---------------------------------------------------------------------------

  /** The status the migration writes: paid, partial, or the literal 'pending' where the model would say draft. */
  function MigrationStatus(amountPaid: int, totalAmount: real): (r: Status)
    ensures r != Draft
  {
    if amountPaid as real >= totalAmount then Paid
    else if amountPaid > 0 then Partial
    else Pending
  }

  /** The migration agrees with compute_status except that it writes Pending for Draft. */
  lemma MigrationStatusIsComputeStatus(amountPaid: int, totalAmount: real)
    ensures MigrationStatus(amountPaid, totalAmount) ==
              if ComputeStatus(amountPaid, totalAmount) == Draft then Pending
              else ComputeStatus(amountPaid, totalAmount)
    ensures MigrationStatus(amountPaid, totalAmount) == Pending <==>
              amountPaid <= 0 && (amountPaid as real) < totalAmount
  {
    ComputeStatusCases(amountPaid, totalAmount);
  }

  /** The columns one sale holds after the migration, given the sum of its items' line totals. */
  function Recalculated(d: SaleData, itemsTotal: nat): SaleData
  {
    var subtotal := itemsTotal as real - DiscountAmount(d.discountType, d.discountValue, itemsTotal);
    var total := subtotal + d.taxAmount as real;
    d.(subtotal := subtotal, totalAmount := total, balanceDue := total - d.amountPaid as real,
       status := MigrationStatus(d.amountPaid, total))
  }

  /**
   * A recalculated sale's subtotal is the items total less the discount its type and
   * value describe; total = subtotal + tax; balance = total − paid; the status is
   * never draft; only those four columns change; and running it again changes nothing.
   */
  lemma RecalculatedMeaning(d: SaleData, itemsTotal: nat)
    ensures var e := Recalculated(d, itemsTotal);
            e.subtotal == itemsTotal as real - DiscountAmount(d.discountType, d.discountValue, itemsTotal) &&
            e.totalAmount == e.subtotal + d.taxAmount as real &&
            e.balanceDue == e.totalAmount - d.amountPaid as real &&
            e.status != Draft &&
            e == d.(subtotal := e.subtotal, totalAmount := e.totalAmount, balanceDue := e.balanceDue, status := e.status)
    ensures Recalculated(Recalculated(d, itemsTotal), itemsTotal) == Recalculated(d, itemsTotal)
  {
  }

  /**
   * The migration computes the same subtotal, total and balance as update_totals_from_items
   * assigns before its save, and the same status but for Pending in place of Draft.
   */
  lemma RecalculatedMatchesTotalsAssigned(d: SaleData, itemsTotal: nat)
    ensures var e := Recalculated(d, itemsTotal);
            var f := TotalsAssigned(d, itemsTotal);
            e.subtotal == f.subtotal && e.totalAmount == f.totalAmount && e.balanceDue == f.balanceDue &&
            e.status == (if f.status == Draft then Pending else f.status)
  {
    var total := TotalsAssigned(d, itemsTotal).totalAmount;
    MigrationStatusIsComputeStatus(d.amountPaid, total);
  }

  /** The inner loop: the sum of the line totals of the items filtered to one sale. */
  method SumLineTotals(items: seq<ItemRow>, sale: nat) returns (total: nat)
    ensures total == ItemsTotal(items, sale)
  {
    total := 0;
    var j := 0;
    while j < |items|
      invariant 0 <= j <= |items|
      invariant total == ItemsTotal(items[..j], sale)
    {
      ItemsTotalAppend(items[..j], items[j], sale);
      assert items[..j + 1] == items[..j] + [items[j]];
      if items[j].sale == sale {
        total := total + items[j].lineTotal;
      }
      j := j + 1;
    }
    assert items[..j] == items;
  }

  /** The sales table after migration 0010. */
  function RecalculatedTable(sales: seq<SaleRow>, items: seq<ItemRow>): (r: seq<SaleRow>)
    ensures |r| == |sales|
  {
    seq(|sales|, i requires 0 <= i < |sales| =>
      SaleRow(sales[i].id, Recalculated(sales[i].data, ItemsTotal(items, sales[i].id))))
  }

  /** The update_fields of the migration's save. */
  const RecalculatedColumns: Fields := Only({SubtotalField, TotalAmountField, BalanceDueField, StatusField})

  /**
   * recalculate_total_amount_after_discount: every sale, in table order, gets the
   * columns Recalculated gives from its own items; no other table changes.
   */
  method RecalculateTotalAmountAfterDiscount(db: Db)
    modifies db
    ensures db.sales == RecalculatedTable(old(db.sales), old(db.items))
    ensures db.customers == old(db.customers) && db.items == old(db.items) && db.itemLots == old(db.itemLots)
    ensures db.payments == old(db.payments) && db.nextId == old(db.nextId)
  {
    var i := 0;
    while i < |db.sales|
      invariant 0 <= i <= |db.sales| == |old(db.sales)|
      invariant db.items == old(db.items)
      invariant forall k :: 0 <= k < i ==> db.sales[k] == RecalculatedTable(old(db.sales), old(db.items))[k]
      invariant forall k :: i <= k < |db.sales| ==> db.sales[k] == old(db.sales)[k]
      invariant db.customers == old(db.customers) && db.itemLots == old(db.itemLots)
      invariant db.payments == old(db.payments) && db.nextId == old(db.nextId)
    {
      var sale := db.sales[i];
      var itemsTotal := SumLineTotals(db.items, sale.id);
      var discountAmount := DiscountAmount(sale.data.discountType, sale.data.discountValue, itemsTotal);
      var subtotalAfterDiscount := itemsTotal as real - discountAmount;
      var totalAmount := subtotalAfterDiscount + sale.data.taxAmount as real;
      var newStatus := MigrationStatus(sale.data.amountPaid, totalAmount);
      var updated := sale.data.(subtotal := subtotalAfterDiscount, totalAmount := totalAmount,
                                balanceDue := totalAmount - sale.data.amountPaid as real, status := newStatus);
      db.sales := db.sales[i := SaleRow(sale.id, Merge(sale.data, updated, RecalculatedColumns))];
      i := i + 1;
    }
    assert db.sales == RecalculatedTable(old(db.sales), old(db.items));
  }

  /** reverse_migrate of 0010: nothing is undone; the recalculated columns stay. */
  method ReverseRecalculate(db: Db)
    ensures unchanged(db)
  {
  }

  // ---------------------------------------------------------------------------
  // 0007_migrate_discount_amount_to_type_value
  // ---------------------------------------------------------------------------

  /** Whether the forward migration touches a sale: a positive legacy amount and no value yet. */
  predicate Migrates(d: SaleData)
  {
    d.discountAmount > 0 && d.discountValue == 0
  }

  /** The forward migration on one sale. */
  function Forward(d: SaleData): SaleData
  {
    if Migrates(d) then d.(discountType := Amount, discountValue := d.discountAmount) else d
  }

  /** The reverse migration on one sale. */
  function Reverse(d: SaleData): SaleData
  {
    if d.discountType == Amount && d.discountValue > 0 then d.(discountAmount := d.discountValue) else d
  }

  /**
   * A migrated sale becomes an amount discount whose value is the legacy amount, and
   * nothing else about it changes; every other sale is untouched. Migrating again
   * changes nothing.
   */
  lemma ForwardMeaning(d: SaleData)
    ensures Migrates(d) ==>
              Forward(d).discountType == Amount && Forward(d).discountValue == d.discountAmount &&
              Forward(d).(discountType := d.discountType, discountValue := d.discountValue) == d
    ensures !Migrates(d) ==> Forward(d) == d
    ensures Forward(Forward(d)) == Forward(d)
    ensures Forward(d).discountAmount == d.discountAmount
  {
  }

  /**
   * Reverse only ever copies an amount discount's positive value back to the legacy
   * field; a percentage discount and a zero value are left alone.
   */
  lemma ReverseMeaning(d: SaleData)
    ensures d.discountType == Amount && d.discountValue > 0 ==>
              Reverse(d) == d.(discountAmount := d.discountValue)
    ensures d.discountType == Percentage || d.discountValue <= 0 ==> Reverse(d) == d
  {
  }

  /**
   * Forward then reverse leaves a migrated sale exactly as forward left it, so its
   * legacy amount is the one it started with.
   */
  lemma ForwardThenReverse(d: SaleData)
    requires Migrates(d)
    ensures Reverse(Forward(d)) == Forward(d)
    ensures Reverse(Forward(d)).discountAmount == d.discountAmount
  {
  }

  /**
   * The round trip does not hold for sales the forward step skipped: an amount
   * discount whose value was already set overwrites an unrelated legacy amount.
   */
  lemma ReverseOverwritesUnmigrated(d: SaleData)
    requires d.discountType == Amount && d.discountValue > 0 && d.discountAmount != d.discountValue
    ensures !Migrates(d)
    ensures Reverse(Forward(d)).discountAmount != d.discountAmount
  {
  }

  /** The sales table after the forward migration. */
  function ForwardTable(sales: seq<SaleRow>): (r: seq<SaleRow>)
    ensures |r| == |sales|
  {
    seq(|sales|, i requires 0 <= i < |sales| => SaleRow(sales[i].id, Forward(sales[i].data)))
  }

  /** The sales table after the reverse migration. */
  function ReverseTable(sales: seq<SaleRow>): (r: seq<SaleRow>)
    ensures |r| == |sales|
  {
    seq(|sales|, i requires 0 <= i < |sales| => SaleRow(sales[i].id, Reverse(sales[i].data)))
  }

  /**
   * On the whole table, forward then reverse keeps every migrated sale's legacy amount
   * and every sale's id and order.
   */
  lemma TableRoundTrip(sales: seq<SaleRow>)
    ensures |ReverseTable(ForwardTable(sales))| == |sales|
    ensures forall i :: 0 <= i < |sales| ==> ReverseTable(ForwardTable(sales))[i].id == sales[i].id
    ensures forall i :: 0 <= i < |sales| && Migrates(sales[i].data) ==>
              ReverseTable(ForwardTable(sales))[i].data.discountAmount == sales[i].data.discountAmount
  {
    forall i | 0 <= i < |sales| && Migrates(sales[i].data)
      ensures ReverseTable(ForwardTable(sales))[i].data.discountAmount == sales[i].data.discountAmount
    {
      ForwardThenReverse(sales[i].data);
    }
  }

  /** The update_fields of the forward migration's save. */
  function ForwardWrite(stored: SaleData, d: SaleData): SaleData
  {
    stored.(discountType := d.discountType, discountValue := d.discountValue)
  }

  /** migrate_discount_amount_to_type_value: every sale, in table order, becomes Forward of itself. */
  method MigrateDiscountAmountToTypeValue(db: Db)
    modifies db
    ensures db.sales == ForwardTable(old(db.sales))
    ensures db.customers == old(db.customers) && db.items == old(db.items) && db.itemLots == old(db.itemLots)
    ensures db.payments == old(db.payments) && db.nextId == old(db.nextId)
  {
    var i := 0;
    while i < |db.sales|
      invariant 0 <= i <= |db.sales| == |old(db.sales)|
      invariant forall k :: 0 <= k < i ==> db.sales[k] == ForwardTable(old(db.sales))[k]
      invariant forall k :: i <= k < |db.sales| ==> db.sales[k] == old(db.sales)[k]
      invariant db.customers == old(db.customers) && db.items == old(db.items) && db.itemLots == old(db.itemLots)
      invariant db.payments == old(db.payments) && db.nextId == old(db.nextId)
    {
      var sale := db.sales[i];
      if sale.data.discountAmount > 0 {
        if sale.data.discountValue == 0 {
          var updated := sale.data.(discountType := Amount, discountValue := sale.data.discountAmount);
          db.sales := db.sales[i := SaleRow(sale.id, ForwardWrite(sale.data, updated))];
        }
      }
      i := i + 1;
    }
    assert db.sales == ForwardTable(old(db.sales));
  }

  /** reverse_migrate of 0007: every sale, in table order, becomes Reverse of itself. */
  method ReverseMigrate(db: Db)
    modifies db
    ensures db.sales == ReverseTable(old(db.sales))
    ensures db.customers == old(db.customers) && db.items == old(db.items) && db.itemLots == old(db.itemLots)
    ensures db.payments == old(db.payments) && db.nextId == old(db.nextId)
  {
    var i := 0;
    while i < |db.sales|
      invariant 0 <= i <= |db.sales| == |old(db.sales)|
      invariant forall k :: 0 <= k < i ==> db.sales[k] == ReverseTable(old(db.sales))[k]
      invariant forall k :: i <= k < |db.sales| ==> db.sales[k] == old(db.sales)[k]
      invariant db.customers == old(db.customers) && db.items == old(db.items) && db.itemLots == old(db.itemLots)
      invariant db.payments == old(db.payments) && db.nextId == old(db.nextId)
    {
      var sale := db.sales[i];
      if sale.data.discountType == Amount && sale.data.discountValue > 0 {
        db.sales := db.sales[i := SaleRow(sale.id, sale.data.(discountAmount := sale.data.discountValue))];
      }
      i := i + 1;
    }
    assert db.sales == ReverseTable(old(db.sales));
  }
}
