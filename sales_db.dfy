/**
 * The persisted tables of the sales side: sales, customers, sale items, the lots each
 * item drew from (SaleItemLot), and payments, plus the stock movement log. Rows are
 * values; the Sale, SaleItem and Payment instances of sale.py, sale_item.py and
 * payment.py read and write them through save and delete. The aggregates here are the
 * ORM's Sum(...) queries.
 */
module SalesDb {
  import opened Wrappers
  import opened Lots
  import opened Movements
  import opened SaleRules

  /** Payment.PaymentMethod. */
  datatype PaymentMethod = Cash | Card | MobileMoney | BankTransfer | Other

  /** The default of Payment.payment_method. */
  const DefaultPaymentMethod: PaymentMethod := Cash

  /** The persisted columns of a sale (without its id). */
  datatype SaleData = SaleData(
    customer: Option<nat>, saleDate: int, subtotal: real, taxAmount: int,
    discountType: DiscountType, discountValue: int, discountAmount: int,
    totalAmount: real, amountPaid: int, balanceDue: real, status: Status)

  datatype SaleRow = SaleRow(id: nat, data: SaleData)
  datatype CustomerRow = CustomerRow(id: nat, creditBalance: real)
  datatype ItemRow = ItemRow(id: nat, sale: nat, product: nat, quantity: nat, unitPrice: nat, lineTotal: nat)
  /** A SaleItemLot row: the item it belongs to, the lot, the quantity drawn and the lot's price. */
  datatype ItemLotRow = ItemLotRow(item: nat, lot: Lot, quantity: nat, unitPrice: nat)
  datatype PaymentRow = PaymentRow(id: nat, sale: nat, amount: int, paymentMethod: PaymentMethod, date: int)

  /** The sale columns a save(update_fields=...) can name. */
  datatype SaleField = SubtotalField | TotalAmountField | BalanceDueField | StatusField | AmountPaidField

  /** A plain save writes every column; update_fields restricts it to a set of them. */
  datatype Fields = AllFields | Only(fields: set<SaleField>)

  /** Errors the ORM raises in the modelled paths. */
  datatype DbError =
    | DoesNotExist        // .get(pk=...) found no row
    | Unsaved             // the instance (or its parent) has no primary key yet
    | IntegrityError      // a unique_together constraint would be violated

  /** The row a write with the given fields leaves behind. */
  function Merge(old_: SaleData, new_: SaleData, f: Fields): (r: SaleData)
    ensures f == AllFields ==> r == new_
    ensures r.customer == (if f == AllFields then new_.customer else old_.customer)
    ensures f.Only? ==> r.subtotal == (if SubtotalField in f.fields then new_.subtotal else old_.subtotal)
    ensures f.Only? ==> r.totalAmount == (if TotalAmountField in f.fields then new_.totalAmount else old_.totalAmount)
    ensures f.Only? ==> r.balanceDue == (if BalanceDueField in f.fields then new_.balanceDue else old_.balanceDue)
    ensures f.Only? ==> r.status == (if StatusField in f.fields then new_.status else old_.status)
    ensures f.Only? ==> r.amountPaid == (if AmountPaidField in f.fields then new_.amountPaid else old_.amountPaid)
    ensures f.Only? ==> r.saleDate == old_.saleDate && r.taxAmount == old_.taxAmount &&
                        r.discountType == old_.discountType && r.discountValue == old_.discountValue &&
                        r.discountAmount == old_.discountAmount
  {
    match f
    case AllFields => new_
    case Only(fs) =>
      old_.(subtotal := if SubtotalField in fs then new_.subtotal else old_.subtotal,
            totalAmount := if TotalAmountField in fs then new_.totalAmount else old_.totalAmount,
            balanceDue := if BalanceDueField in fs then new_.balanceDue else old_.balanceDue,
            status := if StatusField in fs then new_.status else old_.status,
            amountPaid := if AmountPaidField in fs then new_.amountPaid else old_.amountPaid)
  }

  /** Sale.objects.get(pk=id): the row with that id, if any. */
  function FindSale(sales: seq<SaleRow>, id: nat): (r: Option<SaleRow>)
    ensures r.Some? ==> r.value in sales && r.value.id == id
    ensures r.None? ==> forall x :: x in sales ==> x.id != id
    decreases |sales|
  {
    if sales == [] then None
    else if sales[0].id == id then Some(sales[0])
    else FindSale(sales[1..], id)
  }

  /** UPDATE sale SET <fields> WHERE id = id. */
  function WriteSale(sales: seq<SaleRow>, id: nat, d: SaleData, f: Fields): (r: seq<SaleRow>)
    ensures |r| == |sales|
    ensures forall i :: 0 <= i < |sales| ==>
              r[i] == if sales[i].id == id then SaleRow(id, Merge(sales[i].data, d, f)) else sales[i]
    decreases |sales|
  {
    if sales == [] then []
    else [if sales[0].id == id then SaleRow(id, Merge(sales[0].data, d, f)) else sales[0]]
         + WriteSale(sales[1..], id, d, f)
  }

  /** items.aggregate(Sum('line_total')) for one sale, 0 when it has none. */
  function ItemsTotal(items: seq<ItemRow>, sale: nat): nat
    decreases |items|
  {
    if items == [] then 0
    else (if items[0].sale == sale then items[0].lineTotal else 0) + ItemsTotal(items[1..], sale)
  }

  /** Appending an item adds its line total to its own sale's sum and to no other. */
  lemma {:induction false} ItemsTotalAppend(items: seq<ItemRow>, row: ItemRow, sale: nat)
    ensures ItemsTotal(items + [row], sale) ==
              ItemsTotal(items, sale) + (if row.sale == sale then row.lineTotal else 0)
    decreases |items|
  {
    if items != [] {
      assert (items + [row])[1..] == items[1..] + [row];
      ItemsTotalAppend(items[1..], row, sale);
    }
  }

  /** payments.aggregate(Sum('amount')) for one sale, 0 when it has none. */
  function PaymentsTotal(payments: seq<PaymentRow>, sale: nat): int
    decreases |payments|
  {
    if payments == [] then 0
    else (if payments[0].sale == sale then payments[0].amount else 0) + PaymentsTotal(payments[1..], sale)
  }

  /** Σ balance_due over the customer's sales whose balance_due is positive. */
  function CreditOf(sales: seq<SaleRow>, customer: nat): real
    decreases |sales|
  {
    if sales == [] then 0.0
    else (if sales[0].data.customer == Some(customer) && sales[0].data.balanceDue > 0.0
          then sales[0].data.balanceDue else 0.0)
         + CreditOf(sales[1..], customer)
  }

  /** A customer's credit is never negative; it is zero when none of its sales owes anything. */
  lemma {:induction false} CreditOfMeaning(sales: seq<SaleRow>, customer: nat)
    ensures CreditOf(sales, customer) >= 0.0
    ensures (forall x :: x in sales && x.data.customer == Some(customer) ==> x.data.balanceDue <= 0.0)
              <==> CreditOf(sales, customer) == 0.0
    decreases |sales|
  {
    if sales != [] {
      CreditOfMeaning(sales[1..], customer);
    }
  }

  /**
   * Re-pointing one sale (id unique in the table) from customer a to customer b moves its
   * positive balance from a's credit to b's, and leaves every other customer's credit alone.
   */
  lemma {:induction false} CreditFollowsSale(sales: seq<SaleRow>, i: nat, d: SaleData, c: nat)
    requires i < |sales|
    ensures var after := sales[i := SaleRow(sales[i].id, d)];
            var owed := if d.balanceDue > 0.0 then d.balanceDue else 0.0;
            var was := if sales[i].data.balanceDue > 0.0 then sales[i].data.balanceDue else 0.0;
            CreditOf(after, c) ==
              CreditOf(sales, c)
              - (if sales[i].data.customer == Some(c) then was else 0.0)
              + (if d.customer == Some(c) then owed else 0.0)
    decreases |sales|
  {
    var after := sales[i := SaleRow(sales[i].id, d)];
    if i == 0 {
      assert after[1..] == sales[1..];
    } else {
      CreditFollowsSale(sales[1..], i - 1, d, c);
      assert after[1..] == sales[1..][i - 1 := SaleRow(sales[i].id, d)];
    }
  }

  /** Customer.objects.filter(pk=id).first() is not None. */
  predicate HasCustomer(customers: seq<CustomerRow>, id: nat)
  {
    exists x :: x in customers && x.id == id
  }

  /** UPDATE customer SET credit_balance = v WHERE id = id. */
  function SetCredit(customers: seq<CustomerRow>, id: nat, v: real): (r: seq<CustomerRow>)
    ensures |r| == |customers|
    ensures forall i :: 0 <= i < |customers| ==>
              r[i] == if customers[i].id == id then CustomerRow(id, v) else customers[i]
    decreases |customers|
  {
    if customers == [] then []
    else [if customers[0].id == id then CustomerRow(id, v) else customers[0]]
         + SetCredit(customers[1..], id, v)
  }

  /** SaleItem.objects.get(pk=id): the item row with that id, if any. */
  function FindItem(items: seq<ItemRow>, id: nat): (r: Option<ItemRow>)
    ensures r.Some? ==> r.value in items && r.value.id == id
    ensures r.None? ==> forall x :: x in items ==> x.id != id
    decreases |items|
  {
    if items == [] then None
    else if items[0].id == id then Some(items[0])
    else FindItem(items[1..], id)
  }

  /** UPDATE sale_item SET ... WHERE id = row.id. */
  function WriteItem(items: seq<ItemRow>, row: ItemRow): (r: seq<ItemRow>)
    ensures |r| == |items|
    ensures forall i :: 0 <= i < |items| ==> r[i] == if items[i].id == row.id then row else items[i]
    decreases |items|
  {
    if items == [] then []
    else [if items[0].id == row.id then row else items[0]] + WriteItem(items[1..], row)
  }

  /** DELETE FROM sale_item WHERE id = id. */
  function RemoveItem(items: seq<ItemRow>, id: nat): (r: seq<ItemRow>)
    ensures forall x :: x in r <==> x in items && x.id != id
    decreases |items|
  {
    if items == [] then []
    else (if items[0].id == id then [] else [items[0]]) + RemoveItem(items[1..], id)
  }

  /** Whether another row of the same sale already sells this product (unique_together). */
  predicate ClashesWith(items: seq<ItemRow>, id: Option<nat>, sale: nat, product: nat)
  {
    exists x :: x in items && x.sale == sale && x.product == product && Some(x.id) != id
  }

  /** SaleItemLot.objects.filter(sale_item=item), in table order. */
  function ItemLotsOf(rows: seq<ItemLotRow>, item: nat): (r: seq<ItemLotRow>)
    ensures forall x :: x in r ==> x in rows && x.item == item
    ensures forall x :: x in rows && x.item == item ==> x in r
    decreases |rows|
  {
    if rows == [] then []
    else (if rows[0].item == item then [rows[0]] else []) + ItemLotsOf(rows[1..], item)
  }

  /** The table once filter(sale_item=item).delete() has run. */
  function WithoutItemLots(rows: seq<ItemLotRow>, item: nat): (r: seq<ItemLotRow>)
    ensures forall x :: x in r ==> x in rows && x.item != item
    ensures forall x :: x in rows && x.item != item ==> x in r
    decreases |rows|
  {
    if rows == [] then []
    else (if rows[0].item == item then [] else [rows[0]]) + WithoutItemLots(rows[1..], item)
  }

  /** The lots any SaleItemLot row refers to. */
  function LotsIn(rows: seq<ItemLotRow>): set<Lot>
  {
    set x | x in rows :: x.lot
  }

  /** UPDATE payment SET ... WHERE id = row.id, or INSERT when no row has that id. */
  function WritePayment(payments: seq<PaymentRow>, row: PaymentRow): (r: seq<PaymentRow>)
    decreases |payments|
  {
    if payments == [] then [row]
    else if payments[0].id == row.id then [row] + ReplacePayment(payments[1..], row)
    else [payments[0]] + WritePayment(payments[1..], row)
  }

  function ReplacePayment(payments: seq<PaymentRow>, row: PaymentRow): (r: seq<PaymentRow>)
    decreases |payments|
  {
    if payments == [] then []
    else [if payments[0].id == row.id then row else payments[0]] + ReplacePayment(payments[1..], row)
  }

  /** DELETE FROM payment WHERE id = id. */
  function RemovePayment(payments: seq<PaymentRow>, id: nat): (r: seq<PaymentRow>)
    ensures forall x :: x in r <==> x in payments && x.id != id
    decreases |payments|
  {
    if payments == [] then []
    else (if payments[0].id == id then [] else [payments[0]]) + RemovePayment(payments[1..], id)
  }

  /**
   * Adding a payment row of a sale raises that sale's total by its amount and leaves
   * other sales' totals alone; removing all rows with one id takes their amounts away.
   */
  lemma {:induction false} PaymentsTotalAppend(payments: seq<PaymentRow>, row: PaymentRow, sale: nat)
    ensures PaymentsTotal(payments + [row], sale) ==
              PaymentsTotal(payments, sale) + (if row.sale == sale then row.amount else 0)
    decreases |payments|
  {
    if payments != [] {
      PaymentsTotalAppend(payments[1..], row, sale);
      assert (payments + [row])[1..] == payments[1..] + [row];
    }
  }

  lemma {:induction false} PaymentsTotalRemove(payments: seq<PaymentRow>, id: nat, sale: nat)
    ensures PaymentsTotal(RemovePayment(payments, id), sale) ==
              PaymentsTotal(payments, sale) - RemovedAmount(payments, id, sale)
    decreases |payments|
  {
    if payments != [] {
      PaymentsTotalRemove(payments[1..], id, sale);
      if payments[0].id != id {
        assert RemovePayment(payments, id) == [payments[0]] + RemovePayment(payments[1..], id);
        assert ([payments[0]] + RemovePayment(payments[1..], id))[1..] == RemovePayment(payments[1..], id);
      } else {
        assert RemovePayment(payments, id) == RemovePayment(payments[1..], id);
      }
    }
  }

  /** The amount, towards one sale, of the payment rows carrying a given id. */
  function RemovedAmount(payments: seq<PaymentRow>, id: nat, sale: nat): int
    decreases |payments|
  {
    if payments == [] then 0
    else (if payments[0].id == id && payments[0].sale == sale then payments[0].amount else 0)
         + RemovedAmount(payments[1..], id, sale)
  }

  /** The database. The movement log is shared with the catalog side. */
  class Db {
    var sales: seq<SaleRow>
    var customers: seq<CustomerRow>
    var items: seq<ItemRow>
    var itemLots: seq<ItemLotRow>
    var payments: seq<PaymentRow>
    /** The next primary key to hand out. */
    var nextId: nat
    const movements: MovementTable

    constructor (movements: MovementTable)
      ensures sales == [] && customers == [] && items == [] && itemLots == [] && payments == []
      ensures nextId == 1 && this.movements == movements
    {
      sales := [];
      customers := [];
      items := [];
      itemLots := [];
      payments := [];
      nextId := 1;
      this.movements := movements;
    }
  }
}
