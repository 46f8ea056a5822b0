/**
 * A sale and its settlement (sales/models/sale.py): re-totalling from the items,
 * rolling up payments, deriving the status, and re-aggregating customer credit on
 * every save.
 */
module Sales {
  import opened Wrappers
  import opened SaleRules
  import opened SalesDb

  /** The columns update_totals_from_items saves. */
  const TotalsFields: Fields := Only({SubtotalField, TotalAmountField, BalanceDueField, StatusField})

  /** The columns refresh_payment_summary saves. */
  const PaymentFields: Fields := Only({AmountPaidField, BalanceDueField, StatusField})

  /**
   * The in-memory recomputation save performs before writing. An existing sale
   * (itemsTotal present) always gets subtotal = Σ line_total − discount_amount, with the
   * legacy discount_amount field whatever the discount type; then total, balance and
   * status follow.
   */
  function Recomputed(d: SaleData, itemsTotal: Option<nat>): SaleData
  {
    var subtotal := if itemsTotal.Some? then itemsTotal.value as real - d.discountAmount as real
                    else d.subtotal;
    var total := subtotal + d.taxAmount as real;
    d.(subtotal := subtotal, totalAmount := total, balanceDue := total - d.amountPaid as real,
       status := ComputeStatus(d.amountPaid, total))
  }

  /** The settlement identities: total = subtotal + tax, balance = total − paid, derived status. */
  predicate Settled(d: SaleData)
  {
    d.totalAmount == d.subtotal + d.taxAmount as real &&
    d.balanceDue == d.totalAmount - d.amountPaid as real &&
    d.status == ComputeStatus(d.amountPaid, d.totalAmount)
  }

  /**
   * After a save the instance is settled, its subtotal is the legacy one for an existing
   * sale and kept for a new one, no input column changes, and saving again changes nothing.
   */
  lemma RecomputedMeaning(d: SaleData, itemsTotal: Option<nat>)
    ensures Settled(Recomputed(d, itemsTotal))
    ensures itemsTotal.Some? ==>
              Recomputed(d, itemsTotal).subtotal == itemsTotal.value as real - d.discountAmount as real
    ensures itemsTotal.None? ==> Recomputed(d, itemsTotal).subtotal == d.subtotal
    ensures var e := Recomputed(d, itemsTotal);
            e.customer == d.customer && e.saleDate == d.saleDate && e.taxAmount == d.taxAmount &&
            e.discountType == d.discountType && e.discountValue == d.discountValue &&
            e.discountAmount == d.discountAmount && e.amountPaid == d.amountPaid
    ensures Recomputed(Recomputed(d, itemsTotal), itemsTotal) == Recomputed(d, itemsTotal)
  {
  }

  /**
   * The legacy override: for an existing sale, the totals save resets do not depend on
   * the discount type or value at all, only on the legacy discount_amount.
   */
  lemma DiscountTypeIgnoredOnSave(d: SaleData, itemsTotal: nat, t: DiscountType, v: int)
    ensures var e := Recomputed(d.(discountType := t, discountValue := v), Some(itemsTotal));
            var f := Recomputed(d, Some(itemsTotal));
            e.subtotal == f.subtotal && e.totalAmount == f.totalAmount &&
            e.balanceDue == f.balanceDue && e.status == f.status
  {
  }

  /** The fields update_totals_from_items assigns before it saves. */
  function TotalsAssigned(d: SaleData, itemsTotal: nat): SaleData
  {
    var subtotal := itemsTotal as real - DiscountAmount(d.discountType, d.discountValue, itemsTotal);
    var total := subtotal + d.taxAmount as real;
    d.(subtotal := subtotal, totalAmount := total, balanceDue := total - d.amountPaid as real,
       status := ComputeStatus(d.amountPaid, total))
  }

  /**
   * A percentage discount shows in the values update_totals_from_items assigns, and save
   * then replaces them: what it leaves is the legacy subtotal.
   */
  lemma PercentageDiscountOverridden(d: SaleData, itemsTotal: nat)
    ensures TotalsAssigned(d, itemsTotal).subtotal ==
              itemsTotal as real - DiscountAmount(d.discountType, d.discountValue, itemsTotal)
    ensures Recomputed(TotalsAssigned(d, itemsTotal), Some(itemsTotal)) == Recomputed(d, Some(itemsTotal))
    ensures d.discountType == Percentage && d.discountAmount == 0 && d.discountValue != 0 && itemsTotal > 0 ==>
              Recomputed(TotalsAssigned(d, itemsTotal), Some(itemsTotal)).subtotal != TotalsAssigned(d, itemsTotal).subtotal
  {
    if d.discountType == Percentage && d.discountAmount == 0 && d.discountValue != 0 && itemsTotal > 0 {
      var x := itemsTotal as real;
      var f := d.discountValue as real / 10000.0;
      assert f != 0.0;
      NonZeroProduct(x, f);
    }
  }

  lemma NonZeroProduct(a: real, b: real)
    requires a != 0.0 && b != 0.0
    ensures a * b != 0.0
  {
  }

  /**
   * The row a totals save leaves is settled when the in-memory tax, payment and legacy
   * discount agree with the stored ones.
   */
  lemma TotalsStoredSettled(stored: SaleData, d: SaleData, itemsTotal: nat)
    requires stored.taxAmount == d.taxAmount && stored.amountPaid == d.amountPaid
    ensures var row := Merge(stored, Recomputed(d, Some(itemsTotal)), TotalsFields);
            Settled(row) && row.subtotal == itemsTotal as real - d.discountAmount as real
  {
  }

  /**
   * A payment save writes amount_paid, balance and status, and never the subtotal or
   * total_amount columns.
   */
  lemma PaymentSaveColumns(stored: SaleData, d: SaleData)
    ensures var row := Merge(stored, d, PaymentFields);
            row.subtotal == stored.subtotal && row.totalAmount == stored.totalAmount &&
            row.amountPaid == d.amountPaid && row.balanceDue == d.balanceDue && row.status == d.status &&
            row.customer == stored.customer
  {
  }

  /** recalculate_customer_credit on the tables: a no-op for no id or a missing customer. */
  function RecalcCredit(customers: seq<CustomerRow>, sales: seq<SaleRow>, id: Option<nat>): seq<CustomerRow>
  {
    if id.None? || !HasCustomer(customers, id.value) then customers
    else SetCredit(customers, id.value, CreditOf(sales, id.value))
  }

  /**
   * The customer's row now holds the full re-aggregation of its positive balances, and
   * no other customer changes; no id or a missing customer changes nothing.
   */
  lemma RecalcCreditMeaning(customers: seq<CustomerRow>, sales: seq<SaleRow>, id: Option<nat>)
    ensures |RecalcCredit(customers, sales, id)| == |customers|
    ensures id.None? || !HasCustomer(customers, id.value) ==> RecalcCredit(customers, sales, id) == customers
    ensures forall i :: 0 <= i < |customers| ==>
              RecalcCredit(customers, sales, id)[i] ==
                if Some(customers[i].id) == id then CustomerRow(customers[i].id, CreditOf(sales, customers[i].id))
                else customers[i]
    ensures forall x :: x in RecalcCredit(customers, sales, id) ==> x.creditBalance >= 0.0 || x in customers
  {
    forall x | x in RecalcCredit(customers, sales, id)
      ensures x.creditBalance >= 0.0 || x in customers
    {
      CreditOfMeaning(sales, x.id);
    }
  }

  /** The two credit recomputations at the end of save: previous customer if changed, then current. */
  function CreditsAfterSave(customers: seq<CustomerRow>, sales: seq<SaleRow>,
                            previous: Option<nat>, current: Option<nat>): seq<CustomerRow>
  {
    var c1 := if previous.Some? && previous != current then RecalcCredit(customers, sales, previous)
              else customers;
    RecalcCredit(c1, sales, current)
  }

  /**
   * After a save, the customer the sale left and the customer it now has both hold
   * their full credit aggregate over the new sales table; every other customer is untouched.
   */
  lemma CreditsAfterSaveMeaning(customers: seq<CustomerRow>, sales: seq<SaleRow>,
                                previous: Option<nat>, current: Option<nat>)
    ensures |CreditsAfterSave(customers, sales, previous, current)| == |customers|
    ensures forall i :: 0 <= i < |customers| ==>
              CreditsAfterSave(customers, sales, previous, current)[i] ==
                if Some(customers[i].id) == current || Some(customers[i].id) == previous
                then CustomerRow(customers[i].id, CreditOf(sales, customers[i].id))
                else customers[i]
  {
    var c1 := if previous.Some? && previous != current then RecalcCredit(customers, sales, previous)
              else customers;
    RecalcCreditMeaning(customers, sales, previous);
    RecalcCreditMeaning(c1, sales, current);
    forall i | 0 <= i < |customers|
      ensures HasCustomer(c1, customers[i].id)
    {
      assert c1[i] in c1;
    }
  }

  /**
   * The in-memory columns refresh_payment_summary assigns before its save: the payments'
   * sum as amount_paid, the balance left on the current total, and the status that follows.
   */
  function PaymentsRolledUp(d: SaleData, paid: int): SaleData
  {
    d.(amountPaid := paid, balanceDue := d.totalAmount - paid as real,
       status := ComputeStatus(paid, d.totalAmount))
  }

  /**
   * Rolling up the payments leaves the subtotal and total alone and settles the balance
   * and status against them; the save that follows on an existing row then changes nothing
   * of what was rolled up, apart from the legacy subtotal and the total it drives.
   */
  lemma PaymentsRolledUpMeaning(d: SaleData, paid: int, itemsTotal: nat)
    requires d.totalAmount == d.subtotal + d.taxAmount as real
    ensures var e := PaymentsRolledUp(d, paid);
            e.amountPaid == paid && e.subtotal == d.subtotal && e.totalAmount == d.totalAmount &&
            Settled(e) && e.customer == d.customer
    ensures Recomputed(PaymentsRolledUp(d, paid), Some(itemsTotal)) == Recomputed(d.(amountPaid := paid), Some(itemsTotal))
  {
  }

  class Sale {
    /** The primary key; None until the first save. */
    var pk: Option<nat>
    var customer: Option<nat>
    var saleDate: int
    var subtotal: real
    var taxAmount: int
    var discountType: DiscountType
    var discountValue: int
    var discountAmount: int
    var totalAmount: real
    var amountPaid: int
    var balanceDue: real
    var status: Status

    /** A new, unsaved sale with the model defaults. */
    constructor (customer: Option<nat>, saleDate: int)
      ensures pk.None? && Data() == SaleData(customer, saleDate, 0.0, 0, Amount, 0, 0, 0.0, 0, 0.0, Draft)
    {
      pk := None;
      this.customer := customer;
      this.saleDate := saleDate;
      subtotal := 0.0;
      taxAmount := 0;
      discountType := Amount;
      discountValue := 0;
      discountAmount := 0;
      totalAmount := 0.0;
      amountPaid := 0;
      balanceDue := 0.0;
      status := Draft;
    }

    /** The instance's columns. */
    function Data(): SaleData
      reads this
    {
      SaleData(customer, saleDate, subtotal, taxAmount, discountType, discountValue,
               discountAmount, totalAmount, amountPaid, balanceDue, status)
    }

    /**
     * save(update_fields=fields). An existing sale re-reads its previous customer (and
     * fails if its row is gone), recomputes as Recomputed says, writes the named columns,
     * then recomputes the credit of the previous customer if it changed and of the
     * current one. A new sale is inserted with a fresh id; naming fields for a new sale
     * is refused after the in-memory recomputation.
     */
    method Save(db: Db, fields: Fields) returns (r: Outcome<DbError>)
      modifies this, db
      ensures db.items == old(db.items) && db.itemLots == old(db.itemLots) && db.payments == old(db.payments)
      ensures old(pk).Some? && FindSale(old(db.sales), old(pk).value).None? ==>
                r == Fail(DoesNotExist) && Data() == old(Data()) && pk == old(pk) && unchanged(db)
      ensures old(pk).Some? && FindSale(old(db.sales), old(pk).value).Some? ==>
                r.Pass? && pk == old(pk) &&
                Data() == Recomputed(old(Data()), Some(ItemsTotal(old(db.items), old(pk).value))) &&
                db.sales == WriteSale(old(db.sales), old(pk).value, Data(), fields) &&
                db.nextId == old(db.nextId) &&
                db.customers == CreditsAfterSave(old(db.customers), db.sales,
                                  FindSale(old(db.sales), old(pk).value).value.data.customer, customer)
      ensures old(pk).None? && fields != AllFields ==>
                r == Fail(Unsaved) && pk.None? && Data() == Recomputed(old(Data()), None) && unchanged(db)
      ensures old(pk).None? && fields == AllFields ==>
                r.Pass? && pk == Some(old(db.nextId)) && Data() == Recomputed(old(Data()), None) &&
                db.sales == old(db.sales) + [SaleRow(old(db.nextId), Data())] &&
                db.nextId == old(db.nextId) + 1 &&
                db.customers == CreditsAfterSave(old(db.customers), db.sales, None, customer)
    {
      var previous: Option<nat> := None;
      if pk.Some? {
        var row := FindSale(db.sales, pk.value);
        if row.None? {
          return Fail(DoesNotExist);
        }
        previous := row.value.data.customer;
        Recompute(Some(ItemsTotal(db.items, pk.value)));
      } else {
        Recompute(None);
      }
      if pk.None? {
        if fields != AllFields {
          return Fail(Unsaved);
        }
        pk := Some(db.nextId);
        db.sales := db.sales + [SaleRow(db.nextId, Data())];
        db.nextId := db.nextId + 1;
      } else {
        db.sales := WriteSale(db.sales, pk.value, Data(), fields);
      }
      RecalculateCredits(db, previous, customer);
      r := Pass;
    }

    /** The in-memory part of save: the subtotal from the lines (for a saved sale), total, balance, status. */
    method Recompute(itemsTotal: Option<nat>)
      modifies this`subtotal, this`totalAmount, this`balanceDue, this`status
      ensures Data() == Recomputed(old(Data()), itemsTotal)
    {
      if itemsTotal.Some? {
        subtotal := itemsTotal.value as real - discountAmount as real;
      }
      totalAmount := subtotal + taxAmount as real;
      balanceDue := totalAmount - amountPaid as real;
      status := ComputeStatus(amountPaid, totalAmount);
    }

    /**
     * update_totals_from_items: assigns the discounted totals, then saves the four totals
     * columns, and that save replaces them with the legacy ones.
     */
    method UpdateTotalsFromItems(db: Db) returns (r: Outcome<DbError>)
      modifies this, db
      ensures db.items == old(db.items) && db.itemLots == old(db.itemLots) && db.payments == old(db.payments)
      ensures old(pk).None? ==> r == Fail(Unsaved) && unchanged(this) && unchanged(db)
      ensures old(pk).Some? && FindSale(old(db.sales), old(pk).value).None? ==>
                r == Fail(DoesNotExist) && pk == old(pk) && unchanged(db) &&
                Data() == TotalsAssigned(old(Data()), ItemsTotal(old(db.items), old(pk).value))
      ensures old(pk).Some? && FindSale(old(db.sales), old(pk).value).Some? ==>
                r.Pass? && pk == old(pk) &&
                Data() == Recomputed(old(Data()), Some(ItemsTotal(old(db.items), old(pk).value))) &&
                db.sales == WriteSale(old(db.sales), old(pk).value, Data(), TotalsFields) &&
                db.nextId == old(db.nextId) &&
                db.customers == CreditsAfterSave(old(db.customers), db.sales,
                                  FindSale(old(db.sales), old(pk).value).value.data.customer, customer)
    {
      if pk.None? {
        return Fail(Unsaved);
      }
      ghost var d0 := Data();
      var itemsSubtotal := ItemsTotal(db.items, pk.value);
      var discount := DiscountAmount(discountType, discountValue, itemsSubtotal);
      subtotal := itemsSubtotal as real - discount;
      totalAmount := subtotal + taxAmount as real;
      balanceDue := totalAmount - amountPaid as real;
      status := ComputeStatus(amountPaid, totalAmount);
      assert Data() == TotalsAssigned(d0, itemsSubtotal);
      PercentageDiscountOverridden(d0, itemsSubtotal);
      r := Save(db, TotalsFields);
    }

    /**
     * refresh_payment_summary: amount_paid becomes the sum of the sale's payments, then
     * the payment columns are saved (after save's own recomputation).
     */
    method RefreshPaymentSummary(db: Db) returns (r: Outcome<DbError>)
      modifies this, db
      ensures db.items == old(db.items) && db.itemLots == old(db.itemLots) && db.payments == old(db.payments)
      ensures old(pk).None? ==> r == Fail(Unsaved) && unchanged(this) && unchanged(db)
      ensures old(pk).Some? && FindSale(old(db.sales), old(pk).value).None? ==>
                r == Fail(DoesNotExist) && pk == old(pk) && unchanged(db) &&
                Data() == PaymentsRolledUp(old(Data()), PaymentsTotal(old(db.payments), old(pk).value))
      ensures old(pk).Some? && FindSale(old(db.sales), old(pk).value).Some? ==>
                r.Pass? && pk == old(pk) &&
                amountPaid == PaymentsTotal(db.payments, pk.value) &&
                Data() == Recomputed(old(Data()).(amountPaid := PaymentsTotal(old(db.payments), old(pk).value)),
                                     Some(ItemsTotal(old(db.items), old(pk).value))) &&
                db.sales == WriteSale(old(db.sales), old(pk).value, Data(), PaymentFields) &&
                db.nextId == old(db.nextId) &&
                db.customers == CreditsAfterSave(old(db.customers), db.sales,
                                  FindSale(old(db.sales), old(pk).value).value.data.customer, customer)
    {
      if pk.None? {
        return Fail(Unsaved);
      }
      ghost var d0 := Data();
      var paymentsTotal := PaymentsTotal(db.payments, pk.value);
      amountPaid := paymentsTotal;
      balanceDue := totalAmount - paymentsTotal as real;
      status := ComputeStatus(amountPaid, totalAmount);
      assert Data() == PaymentsRolledUp(d0, paymentsTotal);
      ghost var d1 := Data();
      assert Recomputed(d1, Some(ItemsTotal(db.items, pk.value))) ==
             Recomputed(d0.(amountPaid := paymentsTotal), Some(ItemsTotal(db.items, pk.value)));
      r := Save(db, PaymentFields);
    }
  }

  /** The credit recomputations that end save: the customer the sale left, if it changed, then its own. */
  method RecalculateCredits(db: Db, previous: Option<nat>, current: Option<nat>)
    modifies db`customers
    ensures db.customers == CreditsAfterSave(old(db.customers), db.sales, previous, current)
  {
    if previous.Some? && previous != current {
      RecalculateCustomerCredit(db, previous);
    }
    RecalculateCustomerCredit(db, current);
  }

  /** recalculate_customer_credit (a static method of Sale). */
  method RecalculateCustomerCredit(db: Db, id: Option<nat>)
    modifies db`customers
    ensures db.customers == RecalcCredit(old(db.customers), db.sales, id)
  {
    if id.None? {
      return;
    }
    if !HasCustomer(db.customers, id.value) {
      return;
    }
    var creditTotal := CreditOf(db.sales, id.value);
    db.customers := SetCredit(db.customers, id.value, creditTotal);
  }
}
