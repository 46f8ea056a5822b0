/**
 * The legacy core application (core/models.py): a product-level stock ledger with its
 * movement log, and sales whose totals, payment status and customer credit are derived
 * from their items and payments. Money is in minor units (hundredths). Products and
 * movements are instances whose row is saved with every change; the sales-side tables
 * are value rows in CoreDb.
 */
module LegacyCore {
  import opened Wrappers
  import opened Text
  import opened SaleRules
  import SalesDb

  datatype MovementType = In | Out | Adjustment

  /** The errors the modelled paths raise. */
  datatype CoreError =
    | NegativeStock            // adjust_stock: the new level would be negative
    | InsufficientForMovement  // apply_to_product: an OUT larger than the stock
    | DoesNotExist             // .get(pk=...) found no row
    | Unsaved                  // the instance (or its parent) has no primary key yet
    | Duplicate                // unique_together (sale, product) would be violated

  // ---------------------------------------------------------------------------
  // The stock rules, on values
  // ---------------------------------------------------------------------------

  /** What adjust_stock does to a stock level: nothing, or a new level and the quantity its movement records. */
  datatype StockChange = NoChange | Changed(stock: nat, recorded: nat)

  function Abs(x: int): nat
  {
    if x >= 0 then x else -x
  }

  /** adjust_stock on the stock value: the change it makes, or the error it raises. */
  function StockAdjusted(stock: nat, delta: int, t: MovementType): (r: Result<StockChange, CoreError>)
    ensures r == Success(NoChange) <==> delta == 0
    ensures r.Failure? <==> delta != 0 && t != Adjustment && stock + delta < 0
    ensures r.Failure? ==> r.error == NegativeStock
  {
    if delta == 0 then Success(NoChange)
    else if t == Adjustment then
      var n: nat := if delta > 0 then delta else 0;
      Success(Changed(n, Abs(n - stock)))
    else if stock + delta < 0 then Failure(NegativeStock)
    else Success(Changed(stock + delta, Abs(delta)))
  }

  /**
   * IN and OUT move the level by delta and record |delta|, whatever the sign; ADJUSTMENT
   * never fails, sets the level to delta clamped at zero and records the distance moved.
   */
  lemma StockAdjustedMeaning(stock: nat, delta: int, t: MovementType)
    ensures t != Adjustment && stock + delta >= 0 && delta != 0 ==>
              StockAdjusted(stock, delta, t) == Success(Changed(stock + delta, Abs(delta))) && Abs(delta) > 0
    ensures t == Adjustment && delta > 0 ==>
              StockAdjusted(stock, delta, t) == Success(Changed(delta, Abs(delta - stock)))
    ensures t == Adjustment && delta < 0 ==>
              StockAdjusted(stock, delta, t) == Success(Changed(0, stock))
  {
  }

  /** IN and OUT are undone by the opposite delta, which records the same quantity. */
  lemma InOutRoundTrip(stock: nat, delta: int, t: MovementType)
    requires t != Adjustment
    requires StockAdjusted(stock, delta, t).Success?
    ensures var c := StockAdjusted(stock, delta, t).value;
            c.Changed? ==> StockAdjusted(c.stock, -delta, t) == Success(Changed(stock, c.recorded))
  {
  }

  /**
   * ADJUSTMENT is an absolute set: the level it leaves does not depend on the level
   * before, and repeating it moves nothing.
   */
  lemma AdjustmentAbsolute(s1: nat, s2: nat, delta: int)
    requires delta != 0
    ensures StockAdjusted(s1, delta, Adjustment).value.stock == StockAdjusted(s2, delta, Adjustment).value.stock
    ensures var n := StockAdjusted(s1, delta, Adjustment).value.stock;
            StockAdjusted(n, delta, Adjustment) == Success(Changed(n, 0))
  {
  }

  /** apply_to_product on the stock value: ADJUSTMENT sets, IN adds, OUT subtracts or raises. */
  function Applied(t: MovementType, q: nat, stock: nat): (r: Result<nat, CoreError>)
    ensures r.Failure? <==> t == Out && stock < q
    ensures r.Failure? ==> r.error == InsufficientForMovement
  {
    match t
    case Adjustment => Success(q)
    case In => Success(stock + q)
    case Out => if stock < q then Failure(InsufficientForMovement) else Success(stock - q)
  }

  /** OUT undoes IN and IN undoes OUT; OUT never takes a level below zero. */
  lemma AppliedMeaning(t: MovementType, q: nat, stock: nat)
    ensures t == In ==> Applied(Out, q, Applied(In, q, stock).value) == Success(stock)
    ensures t == Out && stock >= q ==> Applied(In, q, Applied(Out, q, stock).value) == Success(stock)
    ensures Applied(t, q, stock).Success? && t != Adjustment ==>
              Abs(Applied(t, q, stock).value - stock) == q
  {
  }

  /**
   * Replaying the movement adjust_stock records reproduces its level exactly for an IN
   * with a positive delta, an OUT with a negative delta, and an ADJUSTMENT from an empty
   * stock or from twice the new level, and for no other call.
   */
  lemma ReplayAgrees(stock: nat, delta: int, t: MovementType)
    requires StockAdjusted(stock, delta, t).Success? && StockAdjusted(stock, delta, t).value.Changed?
    ensures var c := StockAdjusted(stock, delta, t).value;
            Applied(t, c.recorded, stock) == Success(c.stock) <==>
              (t == In && delta > 0) || (t == Out && delta < 0) ||
              (t == Adjustment && (stock == 0 || stock == 2 * c.stock))
  {
  }

  // ---------------------------------------------------------------------------
  // Products and their movement log
  // ---------------------------------------------------------------------------

  /** One persisted row of the core movement table. Dates are day ordinals. */
  datatype MovementRecord = MovementRecord(
    product: nat, movementType: MovementType, quantity: nat,
    source: string, date: int, comment: string)

  /** The core stock-movement table, in insertion order. */
  class MovementTable {
    var rows: seq<MovementRecord>

    constructor ()
      ensures rows == []
    {
      rows := [];
    }
  }

  class Product {
    const id: nat
    const salePrice: nat
    const stockThreshold: nat
    var stockQuantity: nat

    constructor (id: nat, salePrice: nat, stockThreshold: nat, stockQuantity: nat)
      ensures this.id == id && this.salePrice == salePrice && this.stockThreshold == stockThreshold
      ensures this.stockQuantity == stockQuantity
    {
      this.id := id;
      this.salePrice := salePrice;
      this.stockThreshold := stockThreshold;
      this.stockQuantity := stockQuantity;
    }

    /** is_below_threshold: the stock is at or under the alert threshold. */
    predicate IsBelowThreshold()
      reads this
    {
      stockQuantity <= stockThreshold
    }

    /**
     * adjust_stock: the stock changes as StockAdjusted says and is saved; a movement
     * recording the change is then saved with the skip flag, so the stock moves once.
     * A zero delta and a refused change leave the stock and the log alone.
     */
    method AdjustStock(table: MovementTable, delta: int, t: MovementType,
                       source: string, comment: string, date: Option<int>, now: int)
      returns (r: Result<Option<StockMovement>, CoreError>)
      modifies this, table
      ensures match StockAdjusted(old(stockQuantity), delta, t)
              case Failure(e) =>
                r == Failure(e) && stockQuantity == old(stockQuantity) && table.rows == old(table.rows)
              case Success(NoChange) =>
                r == Success(None) && stockQuantity == old(stockQuantity) && table.rows == old(table.rows)
              case Success(Changed(n, q)) =>
                r.Success? && r.value.Some? && fresh(r.value.value) && r.value.value.saved &&
                stockQuantity == n &&
                r.value.value.Record() ==
                  MovementRecord(id, t, q, source, if date.Some? then date.value else now, comment) &&
                table.rows == old(table.rows) + [r.value.value.Record()]
    {
      if delta == 0 {
        return Success(None);
      }
      var movementQuantity: nat;
      if t == Adjustment {
        var newQuantity: nat := if delta > 0 then delta else 0;
        movementQuantity := Abs(newQuantity - stockQuantity);
        stockQuantity := newQuantity;
      } else {
        var newQuantity := stockQuantity + delta;
        if newQuantity < 0 {
          return Failure(NegativeStock);
        }
        stockQuantity := newQuantity;
        movementQuantity := Abs(delta);
      }
      var m := new StockMovement(this, t, movementQuantity, source,
                                 if date.Some? then date.value else now, comment, true);
      var saved := m.Save(table);
      r := Success(Some(m));
    }
  }

  class StockMovement {
    const product: Product
    const movementType: MovementType
    const quantity: nat
    const source: string
    const date: int
    const comment: string
    /** The `_skip_product_update` attribute adjust_stock attaches before saving. */
    const skipProductUpdate: bool
    /** Whether the instance has a primary key (has been inserted). */
    var saved: bool

    constructor (product: Product, movementType: MovementType, quantity: nat,
                 source: string, date: int, comment: string, skipProductUpdate: bool)
      ensures this.product == product && this.movementType == movementType && this.quantity == quantity
      ensures this.source == source && this.date == date && this.comment == comment
      ensures this.skipProductUpdate == skipProductUpdate && !saved
    {
      this.product := product;
      this.movementType := movementType;
      this.quantity := quantity;
      this.source := source;
      this.date := date;
      this.comment := comment;
      this.skipProductUpdate := skipProductUpdate;
      saved := false;
    }

    function Record(): MovementRecord
    {
      MovementRecord(product.id, movementType, quantity, source, date, comment)
    }

    /** apply_to_product: the product's new stock is given by Applied. */
    method ApplyToProduct() returns (r: Outcome<CoreError>)
      modifies product
      ensures match Applied(movementType, quantity, old(product.stockQuantity))
              case Success(n) => r.Pass? && product.stockQuantity == n
              case Failure(e) => r == Fail(e) && product.stockQuantity == old(product.stockQuantity)
    {
      if movementType == Adjustment {
        product.stockQuantity := quantity;
      } else if movementType == In {
        product.stockQuantity := product.stockQuantity + quantity;
      } else {
        if product.stockQuantity < quantity {
          return Fail(InsufficientForMovement);
        }
        product.stockQuantity := product.stockQuantity - quantity;
      }
      r := Pass;
    }

    /**
     * save: a new movement without the skip flag is applied to its product, then
     * inserted; an error from the product aborts the insert. A flagged or already
     * inserted movement leaves the product alone.
     */
    method Save(table: MovementTable) returns (r: Outcome<CoreError>)
      modifies this, product, table
      ensures old(saved) ==>
                r.Pass? && saved && product.stockQuantity == old(product.stockQuantity) &&
                table.rows == old(table.rows)
      ensures !old(saved) && skipProductUpdate ==>
                r.Pass? && saved && product.stockQuantity == old(product.stockQuantity) &&
                table.rows == old(table.rows) + [Record()]
      ensures !old(saved) && !skipProductUpdate ==>
                match Applied(movementType, quantity, old(product.stockQuantity))
                case Success(n) =>
                  r.Pass? && saved && product.stockQuantity == n && table.rows == old(table.rows) + [Record()]
                case Failure(e) =>
                  r == Fail(e) && !saved && product.stockQuantity == old(product.stockQuantity) &&
                  table.rows == old(table.rows)
    {
      if saved {
        return Pass;
      }
      if !skipProductUpdate {
        r := ApplyToProduct();
        if r.Fail? {
          return;
        }
      }
      table.rows := table.rows + [Record()];
      saved := true;
      r := Pass;
    }
  }

  /** StockMovement.objects.create: a fresh, unflagged instance, saved at once. */
  method CreateMovement(table: MovementTable, product: Product, t: MovementType, quantity: nat,
                        source: string, date: int, comment: string)
    returns (m: StockMovement, r: Outcome<CoreError>)
    modifies product, table
    ensures fresh(m) && m.product == product
    ensures m.Record() == MovementRecord(product.id, t, quantity, source, date, comment)
    ensures match Applied(t, quantity, old(product.stockQuantity))
            case Success(n) =>
              r.Pass? && product.stockQuantity == n && table.rows == old(table.rows) + [m.Record()]
            case Failure(e) =>
              r == Fail(e) && product.stockQuantity == old(product.stockQuantity) && table.rows == old(table.rows)
  {
    m := new StockMovement(product, t, quantity, source, date, comment, false);
    r := m.Save(table);
  }

  // ---------------------------------------------------------------------------
  // Sales, their items and the customers' credit
  // ---------------------------------------------------------------------------

  datatype PaymentMethod = Cash | Card | Credit

  /** The columns of a core sale. */
  datatype SaleData = SaleData(
    customer: Option<nat>, saleDate: int, subtotal: int, taxAmount: int, totalAmount: int,
    paymentMethod: PaymentMethod, amountPaid: int, balanceDue: int, status: Status)

  datatype SaleRow = SaleRow(id: nat, data: SaleData)
  datatype CustomerRow = CustomerRow(id: nat, creditBalance: int)
  /** The sale_item table has the same columns in both applications. */
  type ItemRow = SalesDb.ItemRow
  datatype PaymentRow = PaymentRow(id: nat, sale: nat, amount: int)

  /** The sale columns a save(update_fields=...) can name. */
  datatype SaleColumn = SubtotalColumn | TotalAmountColumn | BalanceDueColumn | StatusColumn | AmountPaidColumn

  /** A plain save writes every column; update_fields restricts it to a set of them. */
  datatype Fields = AllFields | Only(columns: set<SaleColumn>)

  /** The columns update_totals_from_items saves. */
  const TotalsColumns: Fields := Only({SubtotalColumn, TotalAmountColumn, BalanceDueColumn, StatusColumn})

  /** The columns refresh_payment_summary saves. */
  const PaymentColumns: Fields := Only({AmountPaidColumn, BalanceDueColumn, StatusColumn})

  /** The row a write with the given fields leaves behind. */
  function Merge(stored: SaleData, d: SaleData, f: Fields): (r: SaleData)
    ensures f == AllFields ==> r == d
    ensures f.Only? ==>
              r.customer == stored.customer && r.saleDate == stored.saleDate &&
              r.taxAmount == stored.taxAmount && r.paymentMethod == stored.paymentMethod
    ensures f.Only? ==> r.subtotal == (if SubtotalColumn in f.columns then d.subtotal else stored.subtotal)
    ensures f.Only? ==> r.totalAmount == (if TotalAmountColumn in f.columns then d.totalAmount else stored.totalAmount)
    ensures f.Only? ==> r.balanceDue == (if BalanceDueColumn in f.columns then d.balanceDue else stored.balanceDue)
    ensures f.Only? ==> r.status == (if StatusColumn in f.columns then d.status else stored.status)
    ensures f.Only? ==> r.amountPaid == (if AmountPaidColumn in f.columns then d.amountPaid else stored.amountPaid)
  {
    match f
    case AllFields => d
    case Only(cs) =>
      stored.(subtotal := if SubtotalColumn in cs then d.subtotal else stored.subtotal,
              totalAmount := if TotalAmountColumn in cs then d.totalAmount else stored.totalAmount,
              balanceDue := if BalanceDueColumn in cs then d.balanceDue else stored.balanceDue,
              status := if StatusColumn in cs then d.status else stored.status,
              amountPaid := if AmountPaidColumn in cs then d.amountPaid else stored.amountPaid)
  }

  /** The in-memory recomputation save performs: total = subtotal + tax, then balance and status. */
  function Recomputed(d: SaleData): SaleData
  {
    var total := d.subtotal + d.taxAmount;
    d.(totalAmount := total, balanceDue := total - d.amountPaid,
       status := ComputeStatus(d.amountPaid, total as real))
  }

  /** The settlement identities every saved instance satisfies. */
  predicate Settled(d: SaleData)
  {
    d.totalAmount == d.subtotal + d.taxAmount &&
    d.balanceDue == d.totalAmount - d.amountPaid &&
    d.status == ComputeStatus(d.amountPaid, d.totalAmount as real)
  }

  /**
   * After a save the instance is settled, keeps every input column (unlike the active
   * sales app there is no subtotal override), is paid exactly when nothing is owed, and
   * saving again changes nothing.
   */
  lemma RecomputedMeaning(d: SaleData)
    ensures Settled(Recomputed(d))
    ensures var e := Recomputed(d);
            e.customer == d.customer && e.saleDate == d.saleDate && e.subtotal == d.subtotal &&
            e.taxAmount == d.taxAmount && e.paymentMethod == d.paymentMethod && e.amountPaid == d.amountPaid
    ensures Recomputed(d).status == Paid <==> Recomputed(d).balanceDue <= 0
    ensures Recomputed(d).status == Partial <==> Recomputed(d).balanceDue > 0 && d.amountPaid > 0
    ensures Recomputed(Recomputed(d)) == Recomputed(d)
  {
  }

  /** Sale.objects.get(pk=id): the row with that id, if any. */
  function FindSale(sales: seq<SaleRow>, id: nat): (r: Option<SaleRow>)
    ensures r.Some? ==> r.value in sales && r.value.id == id
    ensures r.None? ==> forall x :: x in sales ==> x.id != id
    decreases |sales|
  {
    if sales == [] then None
    else if sales[0].id == id then Some(sales[0])
    else FindSale(sales[1..], id)
  }

  /** UPDATE sale SET <fields> WHERE id = id. */
  function WriteSale(sales: seq<SaleRow>, id: nat, d: SaleData, f: Fields): (r: seq<SaleRow>)
    ensures |r| == |sales|
    ensures forall i :: 0 <= i < |sales| ==>
              r[i] == if sales[i].id == id then SaleRow(id, Merge(sales[i].data, d, f)) else sales[i]
    decreases |sales|
  {
    if sales == [] then []
    else [if sales[0].id == id then SaleRow(id, Merge(sales[0].data, d, f)) else sales[0]]
         + WriteSale(sales[1..], id, d, f)
  }

  /** payments.aggregate(Sum('amount')) for one sale, 0 when it has none. */
  function PaymentsTotal(payments: seq<PaymentRow>, sale: nat): int
    decreases |payments|
  {
    if payments == [] then 0
    else (if payments[0].sale == sale then payments[0].amount else 0) + PaymentsTotal(payments[1..], sale)
  }

  /** Whether a sale row counts towards a customer's credit: its own CREDIT sale with a positive balance. */
  predicate OwesCredit(row: SaleRow, customer: nat)
  {
    row.data.customer == Some(customer) && row.data.paymentMethod == Credit && row.data.balanceDue > 0
  }

  /** Σ balance_due over the customer's CREDIT sales whose balance_due is positive. */
  function CreditOf(sales: seq<SaleRow>, customer: nat): int
    decreases |sales|
  {
    if sales == [] then 0
    else (if OwesCredit(sales[0], customer) then sales[0].data.balanceDue else 0) + CreditOf(sales[1..], customer)
  }

  /** A customer's credit is never negative; it is zero exactly when none of its sales owes credit. */
  lemma {:induction false} CreditOfMeaning(sales: seq<SaleRow>, customer: nat)
    ensures CreditOf(sales, customer) >= 0
    ensures (forall x :: x in sales ==> !OwesCredit(x, customer)) <==> CreditOf(sales, customer) == 0
    decreases |sales|
  {
    if sales != [] {
      CreditOfMeaning(sales[1..], customer);
      assert forall x :: x in sales ==> x == sales[0] || x in sales[1..];
    }
  }

  /**
   * Rewriting a sale that owes the customer no credit, before or after, leaves that
   * customer's credit alone: a cash or card sale's balance never reaches it.
   */
  lemma {:induction false} CreditIgnoresOtherSales(sales: seq<SaleRow>, i: nat, d: SaleData, c: nat)
    requires i < |sales|
    requires !OwesCredit(sales[i], c) && !OwesCredit(SaleRow(sales[i].id, d), c)
    ensures CreditOf(sales[i := SaleRow(sales[i].id, d)], c) == CreditOf(sales, c)
    decreases |sales|
  {
    var after := sales[i := SaleRow(sales[i].id, d)];
    if i == 0 {
      assert after[1..] == sales[1..];
    } else {
      CreditIgnoresOtherSales(sales[1..], i - 1, d, c);
      assert after[1..] == sales[1..][i - 1 := SaleRow(sales[i].id, d)];
    }
  }

  /** Customer.objects.filter(pk=id).first() is not None. */
  predicate HasCustomer(customers: seq<CustomerRow>, id: nat)
  {
    exists x :: x in customers && x.id == id
  }

  /** UPDATE customer SET credit_balance = v WHERE id = id. */
  function SetCredit(customers: seq<CustomerRow>, id: nat, v: int): (r: seq<CustomerRow>)
    ensures |r| == |customers|
    ensures forall i :: 0 <= i < |customers| ==>
              r[i] == if customers[i].id == id then CustomerRow(id, v) else customers[i]
    decreases |customers|
  {
    if customers == [] then []
    else [if customers[0].id == id then CustomerRow(id, v) else customers[0]]
         + SetCredit(customers[1..], id, v)
  }

  /** recalculate_customer_credit on the tables: a no-op for no id or a missing customer. */
  function RecalcCredit(customers: seq<CustomerRow>, sales: seq<SaleRow>, id: Option<nat>): seq<CustomerRow>
  {
    if id.None? || !HasCustomer(customers, id.value) then customers
    else SetCredit(customers, id.value, CreditOf(sales, id.value))
  }

  /**
   * The customer's row now holds the re-aggregation of its owed CREDIT balances, which
   * is never negative, and no other customer changes; no id or a missing customer
   * changes nothing.
   */
  lemma RecalcCreditMeaning(customers: seq<CustomerRow>, sales: seq<SaleRow>, id: Option<nat>)
    ensures |RecalcCredit(customers, sales, id)| == |customers|
    ensures id.None? || !HasCustomer(customers, id.value) ==> RecalcCredit(customers, sales, id) == customers
    ensures forall i :: 0 <= i < |customers| ==>
              RecalcCredit(customers, sales, id)[i] ==
                if Some(customers[i].id) == id then CustomerRow(customers[i].id, CreditOf(sales, customers[i].id))
                else customers[i]
    ensures forall x :: x in RecalcCredit(customers, sales, id) ==> x.creditBalance >= 0 || x in customers
  {
    forall x | x in RecalcCredit(customers, sales, id)
      ensures x.creditBalance >= 0 || x in customers
    {
      CreditOfMeaning(sales, x.id);
    }
  }

  /** The two credit recomputations at the end of save: previous customer if changed, then current. */
  function CreditsAfterSave(customers: seq<CustomerRow>, sales: seq<SaleRow>,
                            previous: Option<nat>, current: Option<nat>): seq<CustomerRow>
  {
    var c1 := if previous.Some? && previous != current then RecalcCredit(customers, sales, previous)
              else customers;
    RecalcCredit(c1, sales, current)
  }

  /**
   * After a save, the customer the sale left and the customer it now has both hold
   * their full credit aggregate over the new sales table; every other customer is untouched.
   */
  lemma CreditsAfterSaveMeaning(customers: seq<CustomerRow>, sales: seq<SaleRow>,
                                previous: Option<nat>, current: Option<nat>)
    ensures |CreditsAfterSave(customers, sales, previous, current)| == |customers|
    ensures forall i :: 0 <= i < |customers| ==>
              CreditsAfterSave(customers, sales, previous, current)[i] ==
                if Some(customers[i].id) == current || Some(customers[i].id) == previous
                then CustomerRow(customers[i].id, CreditOf(sales, customers[i].id))
                else customers[i]
  {
    var c1 := if previous.Some? && previous != current then RecalcCredit(customers, sales, previous)
              else customers;
    RecalcCreditMeaning(customers, sales, previous);
    RecalcCreditMeaning(c1, sales, current);
    forall i | 0 <= i < |customers|
      ensures HasCustomer(c1, customers[i].id)
    {
      assert c1[i] in c1;
    }
  }

  /** Whether another row of the same sale already sells this product (unique_together). */
  predicate ClashesWith(items: seq<ItemRow>, id: Option<nat>, sale: nat, product: nat)
  {
    exists x :: x in items && x.sale == sale && x.product == product && Some(x.id) != id
  }

  /** The source label of a sale's movements, `Sale #<pk>`; an unsaved sale prints None. */
  function SaleLabel(pk: Option<nat>): string
  {
    "Sale #" + (if pk.Some? then NatToString(pk.value) else "None")
  }

  /** The OUT movement a sale line's save logs for a stock change of `moved` units. */
  function OutRecord(product: nat, moved: nat, sale: Option<nat>, date: int, item: nat): MovementRecord
  {
    MovementRecord(product, Out, moved, SaleLabel(sale), date, "Sale item " + NatToString(item))
  }

  /** The sales-side tables of the core application. */
  class CoreDb {
    var sales: seq<SaleRow>
    var customers: seq<CustomerRow>
    var items: seq<ItemRow>
    var payments: seq<PaymentRow>
    /** The next primary key the database hands out. */
    var nextId: nat

    constructor ()
      ensures sales == [] && customers == [] && items == [] && payments == [] && nextId == 1
    {
      sales := [];
      customers := [];
      items := [];
      payments := [];
      nextId := 1;
    }
  }

  /** recalculate_customer_credit (a static method of Sale). */
  method RecalculateCustomerCredit(db: CoreDb, id: Option<nat>)
    modifies db
    ensures db.customers == RecalcCredit(old(db.customers), db.sales, id)
    ensures db.sales == old(db.sales) && db.items == old(db.items) && db.payments == old(db.payments)
    ensures db.nextId == old(db.nextId)
  {
    if id.None? {
      return;
    }
    if !HasCustomer(db.customers, id.value) {
      return;
    }
    var creditTotal := CreditOf(db.sales, id.value);
    db.customers := SetCredit(db.customers, id.value, creditTotal);
  }

  class Sale {
    /** The primary key; None until the first save. */
    var pk: Option<nat>
    var customer: Option<nat>
    var saleDate: int
    var subtotal: int
    var taxAmount: int
    var totalAmount: int
    var paymentMethod: PaymentMethod
    var amountPaid: int
    var balanceDue: int
    var status: Status

    /** A new, unsaved sale with the model defaults. */
    constructor (customer: Option<nat>, saleDate: int, paymentMethod: PaymentMethod)
      ensures pk.None? && Data() == SaleData(customer, saleDate, 0, 0, 0, paymentMethod, 0, 0, Draft)
    {
      pk := None;
      this.customer := customer;
      this.saleDate := saleDate;
      subtotal := 0;
      taxAmount := 0;
      totalAmount := 0;
      this.paymentMethod := paymentMethod;
      amountPaid := 0;
      balanceDue := 0;
      status := Draft;
    }

    /** The instance's columns. */
    function Data(): SaleData
      reads this
    {
      SaleData(customer, saleDate, subtotal, taxAmount, totalAmount, paymentMethod, amountPaid, balanceDue, status)
    }

    /**
     * save(update_fields=fields). An existing sale re-reads its previous customer (and
     * fails if its row is gone), recomputes as Recomputed says, writes the named columns,
     * then recomputes the credit of the previous customer if it changed and of the
     * current one. A new sale is inserted with a fresh id; naming fields for a new sale
     * is refused after the in-memory recomputation.
     */
    method Save(db: CoreDb, fields: Fields) returns (r: Outcome<CoreError>)
      modifies this, db
      ensures db.items == old(db.items) && db.payments == old(db.payments)
      ensures old(pk).Some? && FindSale(old(db.sales), old(pk).value).None? ==>
                r == Fail(DoesNotExist) && Data() == old(Data()) && pk == old(pk) && unchanged(db)
      ensures old(pk).Some? && FindSale(old(db.sales), old(pk).value).Some? ==>
                r.Pass? && pk == old(pk) && Data() == Recomputed(old(Data())) &&
                db.sales == WriteSale(old(db.sales), old(pk).value, Data(), fields) &&
                db.nextId == old(db.nextId) &&
                db.customers == CreditsAfterSave(old(db.customers), db.sales,
                                  FindSale(old(db.sales), old(pk).value).value.data.customer, customer)
      ensures old(pk).None? && fields != AllFields ==>
                r == Fail(Unsaved) && pk.None? && Data() == Recomputed(old(Data())) && unchanged(db)
      ensures old(pk).None? && fields == AllFields ==>
                r.Pass? && pk == Some(old(db.nextId)) && Data() == Recomputed(old(Data())) &&
                db.sales == old(db.sales) + [SaleRow(old(db.nextId), Data())] &&
                db.nextId == old(db.nextId) + 1 &&
                db.customers == CreditsAfterSave(old(db.customers), db.sales, None, customer)
    {
      var previous: Option<nat> := None;
      if pk.Some? {
        var row := FindSale(db.sales, pk.value);
        if row.None? {
          return Fail(DoesNotExist);
        }
        previous := row.value.data.customer;
      }
      totalAmount := subtotal + taxAmount;
      balanceDue := totalAmount - amountPaid;
      status := ComputeStatus(amountPaid, totalAmount as real);
      if pk.None? {
        if fields != AllFields {
          return Fail(Unsaved);
        }
        pk := Some(db.nextId);
        db.sales := db.sales + [SaleRow(db.nextId, Data())];
        db.nextId := db.nextId + 1;
      } else {
        db.sales := WriteSale(db.sales, pk.value, Data(), fields);
      }
      if previous.Some? && previous != customer {
        RecalculateCustomerCredit(db, previous);
      }
      RecalculateCustomerCredit(db, customer);
      r := Pass;
    }

    /**
     * update_totals_from_items: the subtotal becomes the sum of the items' line totals,
     * then the four totals columns are saved (after save's own recomputation).
     */
    method UpdateTotalsFromItems(db: CoreDb) returns (r: Outcome<CoreError>)
      modifies this, db
      ensures db.items == old(db.items) && db.payments == old(db.payments)
      ensures old(pk).None? ==> r == Fail(Unsaved) && unchanged(this) && unchanged(db)
      ensures old(pk).Some? && FindSale(old(db.sales), old(pk).value).None? ==>
                r == Fail(DoesNotExist) && pk == old(pk) && unchanged(db) &&
                Data() == Recomputed(old(Data()).(subtotal := SalesDb.ItemsTotal(db.items, pk.value)))
      ensures old(pk).Some? && FindSale(old(db.sales), old(pk).value).Some? ==>
                r.Pass? && pk == old(pk) &&
                Data() == Recomputed(old(Data()).(subtotal := SalesDb.ItemsTotal(db.items, pk.value))) &&
                db.sales == WriteSale(old(db.sales), pk.value, Data(), TotalsColumns) &&
                db.nextId == old(db.nextId) &&
                db.customers == CreditsAfterSave(old(db.customers), db.sales,
                                  FindSale(old(db.sales), pk.value).value.data.customer, customer)
    {
      if pk.None? {
        return Fail(Unsaved);
      }
      ghost var d0 := Data();
      var itemsSubtotal := SalesDb.ItemsTotal(db.items, pk.value);
      subtotal := itemsSubtotal;
      totalAmount := itemsSubtotal + taxAmount;
      balanceDue := totalAmount - amountPaid;
      status := ComputeStatus(amountPaid, totalAmount as real);
      assert Recomputed(Data()) == Recomputed(d0.(subtotal := itemsSubtotal));
      r := Save(db, TotalsColumns);
    }

    /**
     * refresh_payment_summary: amount_paid becomes the sum of the sale's payments, then
     * the payment columns are saved (after save's own recomputation).
     */
    method RefreshPaymentSummary(db: CoreDb) returns (r: Outcome<CoreError>)
      modifies this, db
      ensures db.items == old(db.items) && db.payments == old(db.payments)
      ensures old(pk).None? ==> r == Fail(Unsaved) && unchanged(this) && unchanged(db)
      ensures old(pk).Some? && FindSale(old(db.sales), old(pk).value).None? ==>
                r == Fail(DoesNotExist) && pk == old(pk) && unchanged(db) &&
                amountPaid == PaymentsTotal(db.payments, pk.value) && totalAmount == old(totalAmount)
      ensures old(pk).Some? && FindSale(old(db.sales), old(pk).value).Some? ==>
                r.Pass? && pk == old(pk) &&
                Data() == Recomputed(old(Data()).(amountPaid := PaymentsTotal(db.payments, pk.value))) &&
                db.sales == WriteSale(old(db.sales), pk.value, Data(), PaymentColumns) &&
                db.nextId == old(db.nextId) &&
                db.customers == CreditsAfterSave(old(db.customers), db.sales,
                                  FindSale(old(db.sales), pk.value).value.data.customer, customer)
    {
      if pk.None? {
        return Fail(Unsaved);
      }
      ghost var d0 := Data();
      var paymentsTotal := PaymentsTotal(db.payments, pk.value);
      amountPaid := paymentsTotal;
      balanceDue := totalAmount - paymentsTotal;
      status := ComputeStatus(amountPaid, totalAmount as real);
      assert Recomputed(Data()) == Recomputed(d0.(amountPaid := paymentsTotal));
      r := Save(db, PaymentColumns);
    }
  }

  /**
   * The payment save writes amount_paid, balance and status, and never the subtotal or
   * total_amount columns: the stored total is the one the last totals save wrote.
   */
  lemma PaymentSaveColumns(stored: SaleData, d: SaleData)
    ensures var row := Merge(stored, d, PaymentColumns);
            row.subtotal == stored.subtotal && row.totalAmount == stored.totalAmount &&
            row.amountPaid == d.amountPaid && row.balanceDue == d.balanceDue && row.status == d.status &&
            row.customer == stored.customer && row.paymentMethod == stored.paymentMethod
  {
  }

  /** The item row a SaleItem save writes. */
  function ItemsWritten(items: seq<ItemRow>, isNew: bool, row: ItemRow): seq<ItemRow>
  {
    if isNew then items + [row] else SalesDb.WriteItem(items, row)
  }

  /** The quantity SaleItem.save reads back for an existing line; 0 for a new one. */
  function StoredQuantity(items: seq<ItemRow>, pk: Option<nat>): nat
  {
    if pk.Some? && SalesDb.FindItem(items, pk.value).Some? then SalesDb.FindItem(items, pk.value).value.quantity else 0
  }

  /** Whether SaleItem.save reaches its insert or update: the read-back, the parent and the unique check pass. */
  predicate Storable(items: seq<ItemRow>, pk: Option<nat>, sale: Option<nat>, product: nat)
  {
    (pk.None? || SalesDb.FindItem(items, pk.value).Some?) && sale.Some? && !ClashesWith(items, pk, sale.value, product)
  }

  class SaleItem {
    /** The primary key; None until the first save, and again after a delete. */
    var pk: Option<nat>
    const sale: Sale
    const product: Product
    var quantity: nat
    var unitPrice: nat
    var lineTotal: nat

    /** A new, unsaved line; a unit price of 0 stands for an unset one. */
    constructor (sale: Sale, product: Product, quantity: nat, unitPrice: nat)
      ensures pk.None? && this.sale == sale && this.product == product
      ensures this.quantity == quantity && this.unitPrice == unitPrice && lineTotal == 0
    {
      pk := None;
      this.sale := sale;
      this.product := product;
      this.quantity := quantity;
      this.unitPrice := unitPrice;
      lineTotal := 0;
    }

    /** The row this instance writes. */
    function Row(salePk: nat): ItemRow
      reads this
    {
      SalesDb.ItemRow(if pk.Some? then pk.value else 0, salePk, product.id, quantity, unitPrice, lineTotal)
    }

    /**
     * The first half of save, up to and including the write: an unset unit price takes
     * the product's sale price, line_total becomes unit_price × quantity, and the row is
     * inserted with a fresh id or updated in place. A missing row, an unsaved sale or a
     * second line for the same product is refused before anything is written.
     */
    method StoreRow(db: CoreDb) returns (r: Outcome<CoreError>)
      modifies this, db
      ensures unitPrice == (if old(unitPrice) == 0 then product.salePrice else old(unitPrice))
      ensures quantity == old(quantity)
      ensures db.sales == old(db.sales) && db.customers == old(db.customers) && db.payments == old(db.payments)
      ensures !Storable(old(db.items), old(pk), sale.pk, product.id) ==>
                r.Fail? && unchanged(db) && pk == old(pk)
      ensures old(pk).Some? && SalesDb.FindItem(old(db.items), old(pk).value).None? ==> r == Fail(DoesNotExist)
      ensures (old(pk).None? || SalesDb.FindItem(old(db.items), old(pk).value).Some?) && sale.pk.None? ==> r == Fail(Unsaved)
      ensures Storable(old(db.items), old(pk), sale.pk, product.id) ==>
                r.Pass? && lineTotal == unitPrice * quantity && pk.Some? &&
                pk == (if old(pk).None? then Some(old(db.nextId)) else old(pk)) &&
                db.nextId == old(db.nextId) + (if old(pk).None? then 1 else 0) &&
                db.items == ItemsWritten(old(db.items), old(pk).None?, Row(sale.pk.value))
    {
      var isNew := pk.None?;
      if unitPrice == 0 {
        unitPrice := product.salePrice;
      }
      if !isNew {
        var stored := SalesDb.FindItem(db.items, pk.value);
        if stored.None? {
          return Fail(DoesNotExist);
        }
      }
      lineTotal := unitPrice * quantity;
      if sale.pk.None? {
        return Fail(Unsaved);
      }
      if ClashesWith(db.items, pk, sale.pk.value, product.id) {
        return Fail(Duplicate);
      }
      if isNew {
        pk := Some(db.nextId);
        db.nextId := db.nextId + 1;
      }
      db.items := ItemsWritten(db.items, isNew, Row(sale.pk.value));
      r := Pass;
    }

    /**
     * save: the row is stored as StoreRow says, then the product's stock moves by
     * −(quantity − previous quantity) as an OUT, then the sale is re-totalled. Nothing
     * here is atomic: when the stock refuses, the written row stays and the sale is not
     * re-totalled.
     */
    method Save(db: CoreDb, table: MovementTable, now: int) returns (r: Outcome<CoreError>)
      modifies this, db, table, product, sale
      ensures unitPrice == (if old(unitPrice) == 0 then product.salePrice else old(unitPrice))
      ensures quantity == old(quantity) && sale.pk == old(sale.pk)
      ensures db.payments == old(db.payments)
      ensures !Storable(old(db.items), old(pk), old(sale.pk), product.id) ==>
                r.Fail? && unchanged(db) && unchanged(table) && unchanged(product) && unchanged(sale)
      ensures Storable(old(db.items), old(pk), old(sale.pk), product.id) ==>
                lineTotal == unitPrice * quantity &&
                pk == (if old(pk).None? then Some(old(db.nextId)) else old(pk)) && pk.Some? &&
                db.nextId == old(db.nextId) + (if old(pk).None? then 1 else 0) &&
                db.items == ItemsWritten(old(db.items), old(pk).None?, Row(old(sale.pk).value)) &&
                match StockAdjusted(old(product.stockQuantity), -(quantity - StoredQuantity(old(db.items), old(pk))), Out)
                case Failure(e) =>
                  r == Fail(e) && product.stockQuantity == old(product.stockQuantity) &&
                  table.rows == old(table.rows) && unchanged(sale) &&
                  db.sales == old(db.sales) && db.customers == old(db.customers)
                case Success(c) =>
                  product.stockQuantity == (if c.Changed? then c.stock else old(product.stockQuantity)) &&
                  table.rows == old(table.rows) +
                    (if c.Changed?
                     then [OutRecord(product.id, Abs(quantity - StoredQuantity(old(db.items), old(pk))),
                                     old(sale.pk), old(sale.saleDate), pk.value)]
                     else []) &&
                  (FindSale(old(db.sales), old(sale.pk).value).None? ==>
                     r == Fail(DoesNotExist) && db.sales == old(db.sales) && db.customers == old(db.customers) &&
                     sale.Data() == Recomputed(old(sale.Data()).(subtotal := SalesDb.ItemsTotal(db.items, old(sale.pk).value)))) &&
                  (FindSale(old(db.sales), old(sale.pk).value).Some? ==>
                     r.Pass? && sale.Data() == Recomputed(old(sale.Data()).(subtotal := SalesDb.ItemsTotal(db.items, old(sale.pk).value))) &&
                     db.sales == WriteSale(old(db.sales), old(sale.pk).value, sale.Data(), TotalsColumns) &&
                     db.customers == CreditsAfterSave(old(db.customers), db.sales,
                                       FindSale(old(db.sales), old(sale.pk).value).value.data.customer, sale.customer))
    {
      var previousQuantity := StoredQuantity(db.items, pk);
      r := StoreRow(db);
      if r.Fail? {
        return;
      }
      r := MoveStock(table, previousQuantity, now);
      if r.Fail? {
        return;
      }
      r := sale.UpdateTotalsFromItems(db);
    }

    /**
     * The stock step of save: the product moves by −(quantity − previous) as an OUT,
     * logged under the sale's label; no difference means no movement.
     */
    method MoveStock(table: MovementTable, previous: nat, now: int) returns (r: Outcome<CoreError>)
      requires pk.Some?
      modifies product, table
      ensures match StockAdjusted(old(product.stockQuantity), -(quantity - previous), Out)
              case Failure(e) =>
                r == Fail(e) && product.stockQuantity == old(product.stockQuantity) && table.rows == old(table.rows)
              case Success(c) =>
                r.Pass? &&
                product.stockQuantity == (if c.Changed? then c.stock else old(product.stockQuantity)) &&
                table.rows == old(table.rows) +
                  (if c.Changed? then [OutRecord(product.id, Abs(quantity - previous), sale.pk, sale.saleDate, pk.value)]
                   else [])
    {
      var quantityDiff := quantity - previous;
      if quantityDiff != 0 {
        var moved := product.AdjustStock(table, -quantityDiff, Out, SaleLabel(sale.pk),
                                         "Sale item " + NatToString(pk.value), Some(sale.saleDate), now);
        if moved.Failure? {
          return Fail(moved.error);
        }
      }
      r := Pass;
    }

    /**
     * delete: the row is removed first, then the full quantity goes back to the product
     * as an IN (which cannot be refused), then the sale is re-totalled without the line.
     */
    method Delete(db: CoreDb, table: MovementTable, now: int) returns (r: Outcome<CoreError>)
      modifies this, db, table, product, sale
      ensures db.payments == old(db.payments) && sale.pk == old(sale.pk)
      ensures old(pk).None? ==>
                r == Fail(Unsaved) && unchanged(db) && unchanged(table) && unchanged(product) && unchanged(sale)
      ensures old(pk).Some? ==>
                pk.None? &&
                product.stockQuantity == old(product.stockQuantity) + quantity &&
                table.rows == old(table.rows) +
                  (if quantity > 0
                   then [MovementRecord(product.id, In, quantity, SaleLabel(old(sale.pk)) + " (reversal)",
                                        old(sale.saleDate), "Removed sale item")]
                   else []) &&
                db.items == SalesDb.RemoveItem(old(db.items), old(pk).value) &&
                (old(sale.pk).None? ==>
                   r == Fail(Unsaved) && db.sales == old(db.sales) && db.customers == old(db.customers)) &&
                (old(sale.pk).Some? && FindSale(old(db.sales), old(sale.pk).value).None? ==>
                   r == Fail(DoesNotExist) && db.sales == old(db.sales) && db.customers == old(db.customers)) &&
                (old(sale.pk).Some? && FindSale(old(db.sales), old(sale.pk).value).Some? ==>
                   r.Pass? && sale.Data() == Recomputed(old(sale.Data()).(subtotal := SalesDb.ItemsTotal(db.items, old(sale.pk).value))) &&
                   db.sales == WriteSale(old(db.sales), old(sale.pk).value, sale.Data(), TotalsColumns) &&
                   db.customers == CreditsAfterSave(old(db.customers), db.sales,
                                     FindSale(old(db.sales), old(sale.pk).value).value.data.customer, sale.customer))
    {
      if pk.None? {
        return Fail(Unsaved);
      }
      db.items := SalesDb.RemoveItem(db.items, pk.value);
      pk := None;
      var moved := product.AdjustStock(table, quantity, In, SaleLabel(sale.pk) + " (reversal)",
                                       "Removed sale item", Some(sale.saleDate), now);
      r := sale.UpdateTotalsFromItems(db);
    }
  }

  /**
   * Saving an existing line with a larger quantity takes only the difference from the
   * product, and a smaller quantity gives the difference back although it is logged as
   * an OUT movement.
   */
  lemma ResaveMovesDifference(stock: nat, previous: nat, quantity: nat)
    requires quantity != previous
    requires stock + previous >= quantity
    ensures StockAdjusted(stock, -(quantity - previous), Out) ==
              Success(Changed(stock + previous - quantity, Abs(quantity - previous)))
    ensures quantity < previous ==>
              Applied(Out, Abs(quantity - previous), stock) != Success(stock + previous - quantity)
  {
  }
}
