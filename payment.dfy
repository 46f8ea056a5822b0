/**
 * Payments against a sale (sales/models/payment.py). Saving or deleting a payment
 * persists the change first and then refreshes the sale's payment summary.
 */
module Payments {
  import opened Wrappers
  import opened SalesDb
  import opened Sales

  /** The validator on amount: at least 0.01, in minor units. Validators run in forms only. */
  const MinAmount: int := 1

  class Payment {
    var pk: Option<nat>
    const sale: Sale
    var amount: int
    var paymentMethod: PaymentMethod
    var paymentDate: int

    /** A new, unsaved payment with the default method. */
    constructor (sale: Sale, amount: int, paymentDate: int)
      ensures pk.None? && this.sale == sale && this.amount == amount
      ensures paymentMethod == DefaultPaymentMethod && this.paymentDate == paymentDate
    {
      pk := None;
      this.sale := sale;
      this.amount := amount;
      paymentMethod := DefaultPaymentMethod;
      this.paymentDate := paymentDate;
    }

    /** The amount validator. */
    predicate AmountValid()
      reads this
    {
      amount >= MinAmount
    }

    /**
     * save: inserts a new payment under a fresh id (or rewrites an existing one), then
     * refreshes the sale, whose amount_paid then counts this payment. A sale without a
     * primary key cannot take a payment.
     */
    method Save(db: Db) returns (r: Outcome<DbError>)
      modifies this, sale, db
      ensures old(sale.pk).None? ==> r == Fail(Unsaved) && unchanged(this) && unchanged(sale) && unchanged(db)
      ensures old(sale.pk).Some? ==>
                var id := if old(pk).Some? then old(pk).value else old(db.nextId);
                var row := PaymentRow(id, old(sale.pk).value, amount, paymentMethod, paymentDate);
                pk == Some(id) &&
                db.payments == (if old(pk).Some? then WritePayment(old(db.payments), row)
                                else old(db.payments) + [row]) &&
                db.items == old(db.items) && db.itemLots == old(db.itemLots) &&
                db.nextId == (if old(pk).Some? then old(db.nextId) else old(db.nextId) + 1) &&
                sale.pk == old(sale.pk) &&
                (FindSale(old(db.sales), old(sale.pk).value).None? ==>
                   r == Fail(DoesNotExist) && db.sales == old(db.sales) && db.customers == old(db.customers) &&
                   sale.Data() == PaymentsRolledUp(old(sale.Data()), PaymentsTotal(db.payments, old(sale.pk).value))) &&
                (FindSale(old(db.sales), old(sale.pk).value).Some? ==>
                   r.Pass? &&
                   sale.amountPaid == PaymentsTotal(db.payments, old(sale.pk).value) &&
                   (old(pk).None? ==>
                      sale.amountPaid == PaymentsTotal(old(db.payments), old(sale.pk).value) + amount) &&
                   Settled(sale.Data()) &&
                   sale.Data() == Recomputed(old(sale.Data()).(amountPaid := sale.amountPaid),
                                             Some(ItemsTotal(db.items, old(sale.pk).value))) &&
                   db.sales == WriteSale(old(db.sales), old(sale.pk).value, sale.Data(), PaymentFields) &&
                   db.customers == CreditsAfterSave(old(db.customers), db.sales,
                                     FindSale(old(db.sales), old(sale.pk).value).value.data.customer, sale.customer))
    {
      if sale.pk.None? {
        return Fail(Unsaved);
      }
      ghost var before := db.payments;
      var id: nat;
      if pk.None? {
        id := db.nextId;
        db.nextId := db.nextId + 1;
        db.payments := db.payments + [PaymentRow(id, sale.pk.value, amount, paymentMethod, paymentDate)];
        pk := Some(id);
        PaymentsTotalAppend(before, PaymentRow(id, sale.pk.value, amount, paymentMethod, paymentDate), sale.pk.value);
      } else {
        id := pk.value;
        db.payments := WritePayment(db.payments, PaymentRow(id, sale.pk.value, amount, paymentMethod, paymentDate));
      }
      ghost var d := sale.Data();
      r := sale.RefreshPaymentSummary(db);
      if r.Pass? {
        RecomputedMeaning(d.(amountPaid := PaymentsTotal(db.payments, sale.pk.value)),
                          Some(ItemsTotal(db.items, sale.pk.value)));
      }
    }

    /**
     * delete: removes the row first, so the refresh no longer counts it, and clears the
     * primary key; the deletion stands even if the refresh then fails.
     */
    method Delete(db: Db) returns (r: Outcome<DbError>)
      modifies this, sale, db
      ensures old(pk).None? ==> r == Fail(Unsaved) && unchanged(this) && unchanged(sale) && unchanged(db)
      ensures old(pk).Some? ==>
                pk.None? && db.payments == RemovePayment(old(db.payments), old(pk).value) &&
                db.items == old(db.items) && db.itemLots == old(db.itemLots) && db.nextId == old(db.nextId) &&
                sale.pk == old(sale.pk) &&
                (old(sale.pk).None? ==>
                   r == Fail(Unsaved) && sale.Data() == old(sale.Data()) &&
                   db.sales == old(db.sales) && db.customers == old(db.customers)) &&
                (old(sale.pk).Some? && FindSale(old(db.sales), old(sale.pk).value).None? ==>
                   r == Fail(DoesNotExist) && db.sales == old(db.sales) && db.customers == old(db.customers) &&
                   sale.Data() == PaymentsRolledUp(old(sale.Data()), PaymentsTotal(db.payments, old(sale.pk).value))) &&
                (old(sale.pk).Some? && FindSale(old(db.sales), old(sale.pk).value).Some? ==>
                   r.Pass? &&
                   sale.amountPaid == PaymentsTotal(old(db.payments), old(sale.pk).value)
                                      - RemovedAmount(old(db.payments), old(pk).value, old(sale.pk).value) &&
                   Settled(sale.Data()) &&
                   sale.Data() == Recomputed(old(sale.Data()).(amountPaid := sale.amountPaid),
                                             Some(ItemsTotal(db.items, old(sale.pk).value))) &&
                   db.sales == WriteSale(old(db.sales), old(sale.pk).value, sale.Data(), PaymentFields) &&
                   db.customers == CreditsAfterSave(old(db.customers), db.sales,
                                     FindSale(old(db.sales), old(sale.pk).value).value.data.customer, sale.customer))
    {
      if pk.None? {
        return Fail(Unsaved);
      }
      ghost var before := db.payments;
      db.payments := RemovePayment(db.payments, pk.value);
      if sale.pk.Some? {
        PaymentsTotalRemove(before, pk.value, sale.pk.value);
      }
      pk := None;
      ghost var d := sale.Data();
      r := sale.RefreshPaymentSummary(db);
      if r.Pass? {
        RecomputedMeaning(d.(amountPaid := PaymentsTotal(db.payments, sale.pk.value)),
                          Some(ItemsTotal(db.items, sale.pk.value)));
      }
    }
  }
}
