/**
 * The stock figures, the FEFO pricing and the input checks of the sale form's JSON
 * endpoints (sales/api_views.py): product_search and product_stock_info,
 * validate_sale_item with its weighted average price, and the checks create_sale and
 * update_sale make before writing anything. Money is in minor units (hundredths); the
 * lookups by id are over the tables passed in, and the lots' remaining quantities are
 * read from the heap, which a ghost stock snapshot describes.
 */
module SaleForm {
  import opened Wrappers
  import opened Seqs
  import opened Lots
  import opened Stock
  import opened Fefo
  import opened SaleRules
  import opened SalesDb

  // ---------------------------------------------------------------------------
  // product_search and product_stock_info
  // ---------------------------------------------------------------------------

  /** The stock figures both endpoints report for one product. */
  datatype StockFigures = StockFigures(available: nat, expired: nat, salePrice: nat,
                                       belowThreshold: bool, hasExpired: bool)

  /**
   * product_search's figures: the aggregate of remaining over active, unexpired lots
   * holding stock, the same over expired lots, the latest active lot's price, and the
   * two alerts derived from them.
   */
  function SearchFigures(p: Product, today: int): StockFigures
    reads p.lots
  {
    var s := StockOf(p.lots);
    var available := SellableStock(p.lots, s, today);
    var expired := ExpiredStock(p.lots, s, today);
    StockFigures(available, expired, SalePrice(p), available <= p.stockThreshold, expired > 0)
  }

  /** Some active, expired lot still holds stock exactly when the expired aggregate is positive. */
  lemma {:induction false} ExpiredStockPositive(lots: seq<Lot>, s: Stock, today: int)
    requires Covers(s, lots)
    ensures ExpiredStock(lots, s, today) > 0 <==> exists l :: l in lots && PastDate(l, today) && s[l] > 0
    decreases |lots|
  {
    if lots != [] {
      ExpiredStockPositive(lots[1..], s, today);
      assert forall l :: l in lots <==> l == lots[0] || l in lots[1..];
    }
  }

  /**
   * The search figures are the product's own total_stock, total_expired_stock,
   * sale_price and is_below_threshold; together the two stocks are all the stock of
   * the active lots; the expired-stock flag is raised exactly when an active, expired
   * lot still holds stock.
   */
  lemma SearchFiguresMeaning(p: Product, today: int)
    ensures var f := SearchFigures(p, today);
            f.available == TotalStockNow(p, today) && f.expired == ExpiredStockNow(p, today) &&
            f.salePrice == SalePrice(p) && (f.belowThreshold <==> IsBelowThreshold(p, today)) &&
            f.available + f.expired == ActiveStock(p.lots, StockOf(p.lots)) &&
            (f.hasExpired <==> exists l :: l in p.lots && PastDate(l, today) && l.remaining > 0)
  {
    var s := StockOf(p.lots);
    StockPartition(p.lots, s, today);
    ExpiredStockPositive(p.lots, s, today);
  }

  /** One entry of product_stock_info's available_lots: the lot with its expiry, stock and price. */
  datatype LotInfo = LotInfo(lot: Lot, expirationDate: int, remaining: nat, salePrice: nat)

  function InfoOf(l: Lot): LotInfo
    reads l
  {
    LotInfo(l, l.expirationDate, l.remaining, l.salePrice)
  }

  /**
   * product_stock_info: total_available is accumulated lot by lot over the candidates
   * in FEFO order, and agrees with the aggregate product_search uses; available_lots
   * lists exactly those candidates, in that order, each with its expiry, remaining
   * quantity and sale price.
   */
  method StockInfo(p: Product, today: int) returns (r: StockFigures, availableLots: seq<LotInfo>)
    ensures r == SearchFigures(p, today)
    ensures var c := Candidates(p.lots, StockOf(p.lots), today);
            |availableLots| == |c| &&
            forall k :: 0 <= k < |c| ==>
              availableLots[k] == LotInfo(c[k], c[k].expirationDate, c[k].remaining, c[k].salePrice)
  {
    var s := StockOf(p.lots);
    var available := Candidates(p.lots, s, today);
    CandidatesHoldSellableStock(p.lots, s, today);
    ghost var rems := RemsOf(available, s);
    assert forall k :: 0 <= k < |rems| ==> rems[k] == available[k].remaining by {
      assert forall k :: 0 <= k < |available| ==> available[k] in s;
    }
    var totalAvailable;
    totalAvailable, availableLots := ListAvailable(available, rems);
    var expired := ExpiredStock(p.lots, s, today);
    r := StockFigures(totalAvailable, expired, SalePrice(p), totalAvailable <= p.stockThreshold, expired > 0);
  }

  /** The loop over the available lots: `total_available += lot.remaining` and one entry per lot. */
  method ListAvailable(available: seq<Lot>, ghost rems: seq<nat>) returns (total: nat, info: seq<LotInfo>)
    requires |rems| == |available| && forall k :: 0 <= k < |rems| ==> rems[k] == available[k].remaining
    ensures total == Sum(rems)
    ensures |info| == |available| && forall k :: 0 <= k < |available| ==> info[k] == InfoOf(available[k])
  {
    total := 0;
    info := [];
    var i := 0;
    while i < |available|
      invariant 0 <= i <= |available|
      invariant total == Sum(rems[..i])
      invariant |info| == i && forall k :: 0 <= k < i ==> info[k] == InfoOf(available[k])
    {
      SumPrefixStep(rems, i);
      total := total + available[i].remaining;
      info := info + [InfoOf(available[i])];
      i := i + 1;
    }
    FullPrefix(rems);
  }

  // ---------------------------------------------------------------------------
  // validate_sale_item
  // ---------------------------------------------------------------------------

  /** Σ lot.sale_price × drawn over the pairs, summed in order. */
  function PriceOf(ds: seq<Draw>): nat
    decreases |ds|
  {
    if ds == [] then 0
    else PriceOf(ds[..|ds| - 1]) + ds[|ds| - 1].lot.salePrice * ds[|ds| - 1].quantity
  }

  lemma PriceOfAppend(ds: seq<Draw>, d: Draw)
    ensures PriceOf(ds + [d]) == PriceOf(ds) + d.lot.salePrice * d.quantity
  {
    assert (ds + [d])[..|ds|] == ds;
  }

  /** `total_price / quantity if quantity > 0 else 0`. */
  function AveragePrice(total: nat, quantity: nat): real
  {
    if quantity > 0 then total as real / quantity as real else 0.0
  }

  /** The pairs the FEFO walk yields for a need, whether or not it meets it. */
  function Walked(lots: seq<Lot>, s: Stock, need: nat, today: int): (r: seq<Draw>)
    requires Covers(s, lots)
  {
    var c := Candidates(lots, s, today);
    CandidatesMeaning(lots, s, today);
    DrawsOfMeaning(RemsOf(c, s), need);
    Pair(c, DrawsOf(RemsOf(c, s), need))
  }

  /**
   * The walk draws min(need, sellable stock) in all; when the stock suffices its pairs
   * are the allocation of _get_lots_for_sale, and otherwise that allocation reports the
   * whole sellable stock as available.
   */
  lemma WalkedMeaning(lots: seq<Lot>, s: Stock, need: nat, today: int)
    requires Covers(s, lots)
    ensures DrawnTotal(Walked(lots, s, need, today)) == Min(need, SellableStock(lots, s, today))
    ensures need <= SellableStock(lots, s, today) ==>
              Allocation(lots, s, need, today) == Success(Walked(lots, s, need, today))
    ensures need > SellableStock(lots, s, today) ==>
              Allocation(lots, s, need, today) == Failure(Shortfall(need, SellableStock(lots, s, today)))
  {
    var c := Candidates(lots, s, today);
    CandidatesMeaning(lots, s, today);
    CandidatesHoldSellableStock(lots, s, today);
    var rems := RemsOf(c, s);
    DrawsOfMeaning(rems, need);
    DrawnTotalPair(c, DrawsOf(rems, need));
  }

  /** The average price, times the quantity, gives the total price back. */
  lemma AverageTimesQuantity(total: nat, quantity: nat)
    requires quantity > 0
    ensures AveragePrice(total, quantity) * quantity as real == total as real
  {
  }

  /** What validate_sale_item answers. */
  datatype ItemCheck =
    | QuantityNotPositive
    | ProductNotFound
    | Insufficient(available: nat, requested: nat)
    | Valid(productId: nat, quantity: nat, lots: seq<Draw>, averagePrice: real, totalPrice: nat)

  /**
   * validate_sale_item for an existing product and a positive quantity, against stock s:
   * short of the need, it reports total_available, the sellable stock; otherwise the
   * walk's pairs with their total and average price.
   */
  function Checked(p: Product, need: nat, s: Stock, today: int): ItemCheck
    requires Covers(s, p.lots)
  {
    var w := Walked(p.lots, s, need, today);
    if DrawnTotal(w) < need then Insufficient(SellableStock(p.lots, s, today), need)
    else Valid(p.id, need, w, AveragePrice(PriceOf(w), need), PriceOf(w))
  }

  /**
   * The check answers Insufficient exactly when the need exceeds the sellable stock,
   * reporting that stock as available and the need as requested, which is the shortfall
   * _get_lots_for_sale raises. Otherwise the lots are the FEFO pairs _get_lots_for_sale
   * allocates, they draw exactly the need, and the average price is the total price
   * over the quantity (AverageTimesQuantity).
   */
  lemma CheckedMeaning(p: Product, need: nat, s: Stock, today: int)
    requires need > 0 && Covers(s, p.lots)
    ensures Checked(p, need, s, today).Insufficient? <==> need > SellableStock(p.lots, s, today)
    ensures Checked(p, need, s, today).Insufficient? ==>
              Checked(p, need, s, today) == Insufficient(SellableStock(p.lots, s, today), need) &&
              Allocation(p.lots, s, need, today) == Failure(Shortfall(need, SellableStock(p.lots, s, today)))
    ensures Checked(p, need, s, today).Valid? ==>
              var c := Checked(p, need, s, today);
              c.productId == p.id && c.quantity == need &&
              Allocation(p.lots, s, need, today) == Success(c.lots) &&
              DrawnTotal(c.lots) == need && c.totalPrice == PriceOf(c.lots) &&
              c.averagePrice == AveragePrice(c.totalPrice, need)
  {
    var w := Walked(p.lots, s, need, today);
    var ss := SellableStock(p.lots, s, today);
    assert DrawnTotal(w) == Min(need, ss) &&
           (need <= ss ==> Allocation(p.lots, s, need, today) == Success(w)) &&
           (need > ss ==> Allocation(p.lots, s, need, today) == Failure(Shortfall(need, ss))) by {
      WalkedMeaning(p.lots, s, need, today);
    }
  }

  /**
   * The worked example of the weighted average: 10 units from a lot priced 1000.00 and
   * 2 from a later-expiring lot priced 1200.00 cost 12400.00, that is 1033.33… a unit.
   */
  lemma WeightedAverageExample(p: Product, l1: Lot, l2: Lot, s: Stock, today: int)
    requires p.lots == [l1, l2] && l1 != l2 && InDate(l1, today) && InDate(l2, today)
    requires l1.expirationDate < l2.expirationDate
    requires l1.salePrice == 100000 && l2.salePrice == 120000
    requires l1 in s && l2 in s && s[l1] == 10 && s[l2] == 2
    ensures Checked(p, 12, s, today) ==
              Valid(p.id, 12, [Draw(l1, 10), Draw(l2, 2)], 310000.0 / 3.0, 1240000)
  {
    ExampleWalk(p, l1, l2, s, today);
    ExampleTotals(l1, l2);
    assert AveragePrice(1240000, 12) == 310000.0 / 3.0;
  }

  /** The walk of the worked example takes all 10 units of the first lot, then 2. */
  lemma ExampleWalk(p: Product, l1: Lot, l2: Lot, s: Stock, today: int)
    requires p.lots == [l1, l2] && l1 != l2 && InDate(l1, today) && InDate(l2, today)
    requires l1.expirationDate < l2.expirationDate
    requires l1 in s && l2 in s && s[l1] == 10 && s[l2] == 2
    ensures Walked(p.lots, s, 12, today) == [Draw(l1, 10), Draw(l2, 2)]
  {
    assert Eligible([l2], s, today) == [l2];
    assert Eligible([l1, l2], s, today) == [l1, l2];
    assert SortFefo([l2]) == [l2];
    assert SortFefo([l1, l2]) == [l1, l2];
    assert Candidates(p.lots, s, today) == [l1, l2];
    assert RemsOf([l1, l2], s) == [10, 2];
    assert DrawsOf([2], 2) == [2];
    assert DrawsOf([10, 2], 12) == [10, 2];
    assert Pair([l1, l2], [10, 2]) == [Draw(l1, 10), Draw(l2, 2)];
  }

  /** The quantity and price of the worked example's two pairs. */
  lemma ExampleTotals(l1: Lot, l2: Lot)
    requires l1.salePrice == 100000 && l2.salePrice == 120000
    ensures DrawnTotal([Draw(l1, 10), Draw(l2, 2)]) == 12
    ensures PriceOf([Draw(l1, 10), Draw(l2, 2)]) == 1240000
  {
    var ds := [Draw(l1, 10), Draw(l2, 2)];
    assert ds[1..] == [Draw(l2, 2)] && [Draw(l2, 2)][1..] == [];
    assert DrawnTotal([Draw(l2, 2)]) == 2;
    assert ds[..1] == [Draw(l1, 10)] && [Draw(l1, 10)][..0] == [];
    assert PriceOf([Draw(l1, 10)]) == 1000000;
  }

  /**
   * The loop of validate_sale_item over the candidates: each lot's remaining is added to
   * total_available first, then the walk stops if the need is met, else takes
   * min(remaining, still needed). A need left unmet means no break happened, so the
   * total then counts every candidate.
   */
  method WalkCounting(available: seq<Lot>, need: nat, ghost rems: seq<nat>)
    returns (lotsToUse: seq<Draw>, remaining: nat, totalAvailable: nat)
    requires |rems| == |available| && forall k :: 0 <= k < |rems| ==> rems[k] == available[k].remaining
    ensures |DrawsOf(rems, need)| <= |available|
    ensures lotsToUse == Pair(available, DrawsOf(rems, need))
    ensures Sum(DrawsOf(rems, need)) + remaining == need
    ensures remaining > 0 ==> totalAvailable == Sum(rems)
  {
    lotsToUse := [];
    ghost var taken: seq<nat> := [];
    remaining := need;
    totalAvailable := 0;
    var i := 0;
    while i < |available|
      invariant WalkInv(available, rems, need, i, lotsToUse, taken, remaining)
      invariant totalAvailable == Sum(rems[..i])
    {
      SumPrefixStep(rems, i);
      totalAvailable := totalAvailable + available[i].remaining;
      if remaining <= 0 {
        break;
      }
      var q := Min(available[i].remaining, remaining);
      WalkInvStep(available, rems, need, i, lotsToUse, taken, remaining);
      lotsToUse := lotsToUse + [Draw(available[i], q)];
      taken := taken + [q];
      remaining := remaining - q;
      i := i + 1;
    }
    WalkInvExit(available, rems, need, i, lotsToUse, taken, remaining);
    FullPrefix(rems);
  }

  /** The sum of one more element of a prefix. */
  lemma SumPrefixStep(xs: seq<nat>, i: nat)
    requires i < |xs|
    ensures Sum(xs[..i + 1]) == Sum(xs[..i]) + xs[i]
  {
    PrefixStep(xs, i);
    SumAppend(xs[..i], xs[i]);
  }

  /**
   * The state of both FEFO walks after i candidates: the pairs so far are the first
   * draws of DrawsOf, and what they take plus what is still needed is the need.
   */
  ghost predicate WalkInv(available: seq<Lot>, rems: seq<nat>, need: nat, i: nat,
                          lotsToUse: seq<Draw>, taken: seq<nat>, remaining: nat)
  {
    i <= |available| && |rems| == |available| && |lotsToUse| == i && |taken| == i &&
    (forall k :: 0 <= k < i ==> lotsToUse[k] == Draw(available[k], taken[k])) &&
    DrawsOf(rems, need) == taken + DrawsOf(rems[i..], remaining) &&
    Sum(taken) + remaining == need
  }

  lemma WalkInvStep(available: seq<Lot>, rems: seq<nat>, need: nat, i: nat,
                    lotsToUse: seq<Draw>, taken: seq<nat>, remaining: nat)
    requires WalkInv(available, rems, need, i, lotsToUse, taken, remaining)
    requires i < |available| && remaining > 0
    ensures var q := Min(rems[i], remaining);
            q <= remaining &&
            WalkInv(available, rems, need, i + 1, lotsToUse + [Draw(available[i], q)], taken + [q], remaining - q)
  {
    var q := Min(rems[i], remaining);
    DrawStep(rems, i, remaining, taken, DrawsOf(rems, need), need);
    var lots' := lotsToUse + [Draw(available[i], q)];
    var taken' := taken + [q];
    assert forall k :: 0 <= k < i + 1 ==> lots'[k] == Draw(available[k], taken'[k]) by {
      forall k | 0 <= k < i + 1 ensures lots'[k] == Draw(available[k], taken'[k]) {
        if k < i { assert lots'[k] == lotsToUse[k] && taken'[k] == taken[k]; }
      }
    }
  }

  lemma WalkInvExit(available: seq<Lot>, rems: seq<nat>, need: nat, i: nat,
                    lotsToUse: seq<Draw>, taken: seq<nat>, remaining: nat)
    requires WalkInv(available, rems, need, i, lotsToUse, taken, remaining)
    requires i == |available| || remaining == 0
    ensures |DrawsOf(rems, need)| <= |available| && DrawsOf(rems, need) == taken
    ensures lotsToUse == Pair(available, DrawsOf(rems, need))
  {
    assert DrawsOf(rems[i..], remaining) == [];
    assert taken + [] == taken;
  }

  /** `for lot_info in lots_to_use: total_price += sale_price * quantity`. */
  method TotalPrice(ds: seq<Draw>) returns (total: nat)
    ensures total == PriceOf(ds)
  {
    total := 0;
    var i := 0;
    while i < |ds|
      invariant 0 <= i <= |ds|
      invariant total == PriceOf(ds[..i])
    {
      assert ds[..i + 1][..i] == ds[..i];
      total := total + ds[i].lot.salePrice * ds[i].quantity;
      i := i + 1;
    }
    assert ds[..|ds|] == ds;
  }

  /**
   * validate_sale_item: a quantity under 1 is refused before the product is looked up;
   * then a missing product; then the FEFO walk over the product's current stock.
   */
  method ValidateSaleItem(product: Option<Product>, quantity: int, today: int) returns (r: ItemCheck)
    ensures quantity <= 0 ==> r == QuantityNotPositive
    ensures quantity > 0 && product.None? ==> r == ProductNotFound
    ensures quantity > 0 && product.Some? ==>
              r == Checked(product.value, quantity as nat, StockOf(product.value.lots), today)
  {
    if quantity <= 0 {
      return QuantityNotPositive;
    }
    if product.None? {
      return ProductNotFound;
    }
    var p := product.value;
    var need := quantity as nat;
    var s := StockOf(p.lots);
    var available := Candidates(p.lots, s, today);
    CandidatesMeaning(p.lots, s, today);
    CandidatesHoldSellableStock(p.lots, s, today);
    ghost var rems := RemsOf(available, s);
    var lotsToUse, remaining, totalAvailable := WalkCounting(available, need, rems);
    assert lotsToUse == Walked(p.lots, s, need, today);
    DrawnTotalPair(available, DrawsOf(rems, need));
    if remaining > 0 {
      return Insufficient(totalAvailable, need);
    }
    var totalPrice := TotalPrice(lotsToUse);
    r := Valid(p.id, need, lotsToUse, AveragePrice(totalPrice, need), totalPrice);
  }

  // ---------------------------------------------------------------------------
  // create_sale and update_sale: the checks before the transaction
  // ---------------------------------------------------------------------------

  /** One entry of `items`: product_id (0 when missing or null) and quantity. */
  datatype ItemInput = ItemInput(productId: nat, quantity: int)

  /** One entry of `payments`: the amount (None when it is not a decimal literal) and the method, if given. */
  datatype PaymentInput = PaymentInput(amount: Option<int>, paymentMethod: Option<string>)

  /** The request body: customer_id (0 when missing), the tax and discount, the lines and the payments. */
  datatype SaleInput = SaleInput(customerId: nat, taxAmount: int, discountAmount: int,
                                 items: seq<ItemInput>, payments: seq<PaymentInput>)

  datatype ProductProblem = ProductRequired | ProductMissing
  datatype QuantityProblem = NotPositive | NotInStock(available: nat)

  /** The error dictionary of one line, items.<idx>. */
  datatype ItemProblems = ItemProblems(product: Option<ProductProblem>, quantity: Option<QuantityProblem>)

  /** The error dictionary of one payment, payments.<idx>. */
  datatype PaymentProblems = PaymentProblems(amountNotPositive: bool, methodInvalid: bool)

  /** The view's `errors` dictionary. */
  datatype FormErrors = FormErrors(customerMissing: bool, negativeDiscount: bool, noItems: bool,
                                   items: seq<(nat, ItemProblems)>, payments: seq<(nat, PaymentProblems)>)

  /** A validated line: unit price is the weighted average, line total the FEFO price. */
  datatype ValidItem = ValidItem(product: Product, quantity: nat, unitPrice: real, lineTotal: nat, lots: seq<Draw>)

  datatype ValidPayment = ValidPayment(amount: int, paymentMethod: PaymentMethod)

  /**
   * The outcome of the checks: the errors (a 400 answer), the validated data, or an
   * amount that Decimal cannot parse, which raises decimal.InvalidOperation; the view
   * only catches ValueError and TypeError there, so the request fails.
   */
  datatype FormVerdict =
    | Rejected(errors: FormErrors)
    | Accepted(customer: Option<nat>, items: seq<ValidItem>, payments: seq<ValidPayment>)
    | Unparseable

  /** Product.objects.get(pk=id). */
  function FindProduct(catalog: seq<Product>, id: nat): (r: Option<Product>)
    ensures r.Some? ==> r.value in catalog && r.value.id == id
    ensures r.None? ==> forall p :: p in catalog ==> p.id != id
    decreases |catalog|
  {
    if catalog == [] then None
    else if catalog[0].id == id then Some(catalog[0])
    else FindProduct(catalog[1..], id)
  }

  /** The stock snapshot covers every lot of every product of the catalog. */
  predicate CatalogCovered(s: Stock, catalog: seq<Product>)
  {
    forall p :: p in catalog ==> Covers(s, p.lots)
  }

  /** The heap holds the snapshot's quantities. */
  predicate Current(s: Stock)
    reads s.Keys
  {
    forall l :: l in s ==> l.remaining == s[l]
  }

  /**
   * update_sale's `sale.items.filter(product=product).first()`: the quantity of the
   * sale's first line of that product, or 0 (create_sale passes no lines).
   */
  function AlreadySold(existing: seq<ItemRow>, productId: nat): (r: nat)
    ensures (forall x :: x in existing ==> x.product != productId) ==> r == 0
    decreases |existing|
  {
    if existing == [] then 0
    else if existing[0].product == productId then existing[0].quantity
    else AlreadySold(existing[1..], productId)
  }

  /**
   * The checks of one line: a missing or unknown product, a quantity under 1 (both may
   * be reported), else a quantity above sellable stock plus what the sale already holds
   * of that product; a line that passes gets its FEFO walk, its total price and its
   * weighted average price.
   */
  function ItemVerdict(catalog: seq<Product>, existing: seq<ItemRow>, s: Stock, today: int, item: ItemInput)
    : Result<ValidItem, ItemProblems>
    requires CatalogCovered(s, catalog)
  {
    var product := FindProduct(catalog, item.productId);
    var productProblem :=
      if item.productId == 0 then Some(ProductRequired)
      else if product.None? then Some(ProductMissing)
      else None;
    var quantityProblem := if item.quantity <= 0 then Some(NotPositive) else None;
    if productProblem.Some? || quantityProblem.Some? then
      Failure(ItemProblems(productProblem, quantityProblem))
    else
      var p := product.value;
      var total := SellableStock(p.lots, s, today) + AlreadySold(existing, p.id);
      if item.quantity > total then
        Failure(ItemProblems(None, Some(NotInStock(total))))
      else
        var ds := Walked(p.lots, s, item.quantity as nat, today);
        Success(ValidItem(p, item.quantity as nat, AveragePrice(PriceOf(ds), item.quantity as nat), PriceOf(ds), ds))
  }

  /** The errors of the lines, each with its index, in input order. */
  function ItemErrors(catalog: seq<Product>, existing: seq<ItemRow>, s: Stock, today: int, items: seq<ItemInput>)
    : seq<(nat, ItemProblems)>
    requires CatalogCovered(s, catalog)
    decreases |items|
  {
    if items == [] then []
    else
      var n := |items| - 1;
      ItemErrors(catalog, existing, s, today, items[..n]) +
      match ItemVerdict(catalog, existing, s, today, items[n])
      case Failure(e) => [(n, e)]
      case Success(_) => []
  }

  /** The validated lines, in input order. */
  function ValidItems(catalog: seq<Product>, existing: seq<ItemRow>, s: Stock, today: int, items: seq<ItemInput>)
    : seq<ValidItem>
    requires CatalogCovered(s, catalog)
    decreases |items|
  {
    if items == [] then []
    else
      var n := |items| - 1;
      ValidItems(catalog, existing, s, today, items[..n]) +
      match ItemVerdict(catalog, existing, s, today, items[n])
      case Failure(_) => []
      case Success(v) => [v]
  }

  /** `payment_method not in Payment.PaymentMethod.choices`, with 'cash' for a missing one. */
  function MethodOf(m: Option<string>): Option<PaymentMethod>
  {
    if m.None? then Some(Cash)
    else if m.value == "cash" then Some(Cash)
    else if m.value == "card" then Some(Card)
    else if m.value == "mobile_money" then Some(MobileMoney)
    else if m.value == "bank_transfer" then Some(BankTransfer)
    else if m.value == "other" then Some(Other)
    else None
  }

  /** The checks of one payment whose amount parses: positive amount and a known method. */
  function PaymentVerdict(amount: int, m: Option<string>): (r: Result<ValidPayment, PaymentProblems>)
  {
    if amount <= 0 || MethodOf(m).None? then Failure(PaymentProblems(amount <= 0, MethodOf(m).None?))
    else Success(ValidPayment(amount, MethodOf(m).value))
  }

  /** A payment amount Decimal(str(amount)) rejects. */
  predicate AnyUnparseable(payments: seq<PaymentInput>)
  {
    exists i :: 0 <= i < |payments| && payments[i].amount.None?
  }

  function PaymentErrors(payments: seq<PaymentInput>): seq<(nat, PaymentProblems)>
    requires !AnyUnparseable(payments)
    decreases |payments|
  {
    if payments == [] then []
    else
      var n := |payments| - 1;
      PaymentErrors(payments[..n]) +
      match PaymentVerdict(payments[n].amount.value, payments[n].paymentMethod)
      case Failure(e) => [(n, e)]
      case Success(_) => []
  }

  function ValidPayments(payments: seq<PaymentInput>): seq<ValidPayment>
    requires !AnyUnparseable(payments)
    decreases |payments|
  {
    if payments == [] then []
    else
      var n := |payments| - 1;
      ValidPayments(payments[..n]) +
      match PaymentVerdict(payments[n].amount.value, payments[n].paymentMethod)
      case Failure(_) => []
      case Success(v) => [v]
  }

  predicate NoErrors(e: FormErrors)
  {
    !e.customerMissing && !e.negativeDiscount && !e.noItems && e.items == [] && e.payments == []
  }

  /**
   * The checks of create_sale (no existing lines) or update_sale (the sale's lines):
   * the customer, the discount sign, a non-empty item list, every line, every payment.
   */
  function FormVerdictOf(input: SaleInput, catalog: seq<Product>, customers: seq<CustomerRow>,
                         existing: seq<ItemRow>, s: Stock, today: int): FormVerdict
    requires CatalogCovered(s, catalog)
  {
    if AnyUnparseable(input.payments) then Unparseable
    else
      var errors := FormErrors(
        input.customerId != 0 && !HasCustomer(customers, input.customerId),
        input.discountAmount < 0,
        input.items == [],
        ItemErrors(catalog, existing, s, today, input.items),
        PaymentErrors(input.payments));
      if !NoErrors(errors) then Rejected(errors)
      else Accepted(if input.customerId == 0 then None else Some(input.customerId),
                    ValidItems(catalog, existing, s, today, input.items), ValidPayments(input.payments))
  }

  /** The stock one line may draw on: current sellable stock plus what the sale already holds. */
  method LineStock(p: Product, existing: seq<ItemRow>, today: int, ghost s: Stock) returns (total: nat)
    requires Covers(s, p.lots) && Current(s)
    ensures total == SellableStock(p.lots, s, today) + AlreadySold(existing, p.id)
  {
    var t := StockOf(p.lots);
    assert forall l :: l in p.lots ==> t[l] == s[l];
    SellableStockAgree(p.lots, t, s, today);
    var alreadySold := AlreadySold(existing, p.id);
    total := SellableStock(p.lots, t, today) + alreadySold;
  }

  lemma {:induction false} SellableStockAgree(lots: seq<Lot>, s: Stock, t: Stock, today: int)
    requires Covers(s, lots) && Covers(t, lots) && forall l :: l in lots ==> s[l] == t[l]
    ensures SellableStock(lots, s, today) == SellableStock(lots, t, today)
    decreases |lots|
  {
    if lots != [] {
      SellableStockAgree(lots[1..], s, t, today);
    }
  }

  /**
   * The loop of create_sale and update_sale over the candidates: take min(remaining,
   * still needed) from each and add price × taken to total_price, stopping once the
   * need is met.
   */
  method WalkPricing(available: seq<Lot>, need: nat, ghost rems: seq<nat>)
    returns (lotsToUse: seq<Draw>, totalPrice: nat)
    requires |rems| == |available| && forall k :: 0 <= k < |rems| ==> rems[k] == available[k].remaining
    ensures |DrawsOf(rems, need)| <= |available|
    ensures lotsToUse == Pair(available, DrawsOf(rems, need))
    ensures totalPrice == PriceOf(lotsToUse)
  {
    lotsToUse := [];
    ghost var taken: seq<nat> := [];
    var remaining := need;
    totalPrice := 0;
    var i := 0;
    while i < |available|
      invariant WalkInv(available, rems, need, i, lotsToUse, taken, remaining)
      invariant totalPrice == PriceOf(lotsToUse)
    {
      if remaining <= 0 {
        break;
      }
      var q := Min(available[i].remaining, remaining);
      WalkInvStep(available, rems, need, i, lotsToUse, taken, remaining);
      PriceOfAppend(lotsToUse, Draw(available[i], q));
      totalPrice := totalPrice + available[i].salePrice * q;
      lotsToUse := lotsToUse + [Draw(available[i], q)];
      taken := taken + [q];
      remaining := remaining - q;
      i := i + 1;
    }
    WalkInvExit(available, rems, need, i, lotsToUse, taken, remaining);
  }

  /** The checks of one line, with the FEFO pricing loop for a line that passes them. */
  method CheckItem(catalog: seq<Product>, existing: seq<ItemRow>, today: int, item: ItemInput, ghost s: Stock)
    returns (r: Result<ValidItem, ItemProblems>)
    requires CatalogCovered(s, catalog) && Current(s)
    ensures r == ItemVerdict(catalog, existing, s, today, item)
  {
    var product := FindProduct(catalog, item.productId);
    var productProblem: Option<ProductProblem> := None;
    if item.productId == 0 {
      productProblem := Some(ProductRequired);
    } else if product.None? {
      productProblem := Some(ProductMissing);
    }
    var quantityProblem: Option<QuantityProblem> := None;
    if item.quantity <= 0 {
      quantityProblem := Some(NotPositive);
    }
    if productProblem.Some? || quantityProblem.Some? {
      return Failure(ItemProblems(productProblem, quantityProblem));
    }
    var p := product.value;
    var total := LineStock(p, existing, today, s);
    if item.quantity > total {
      return Failure(ItemProblems(None, Some(NotInStock(total))));
    }
    var v := PriceLine(p, item.quantity as nat, today, s);
    ItemVerdictValid(catalog, existing, s, today, item, p);
    r := Success(v);
  }

  /** The FEFO pricing of a line that passed its checks: its walk, total and average price. */
  method PriceLine(p: Product, need: nat, today: int, ghost s: Stock) returns (v: ValidItem)
    requires Covers(s, p.lots) && Current(s)
    ensures var ds := Walked(p.lots, s, need, today);
            v == ValidItem(p, need, AveragePrice(PriceOf(ds), need), PriceOf(ds), ds)
  {
    var t := StockOf(p.lots);
    var available := Candidates(p.lots, t, today);
    CandidatesMeaning(p.lots, t, today);
    ghost var rems := RemsOf(available, t);
    assert available == Candidates(p.lots, s, today) && rems == RemsOf(available, s) by {
      assert forall l :: l in p.lots ==> t[l] == s[l];
      EligibleAgree(p.lots, t, s, today);
      RemsAgree(available, t, s, p.lots);
    }
    var lotsToUse, totalPrice := WalkPricing(available, need, rems);
    v := ValidItem(p, need, AveragePrice(totalPrice, need), totalPrice, lotsToUse);
  }

  /** The verdict on a line whose product exists and whose quantity is positive and in stock. */
  lemma ItemVerdictValid(catalog: seq<Product>, existing: seq<ItemRow>, s: Stock, today: int,
                         item: ItemInput, p: Product)
    requires CatalogCovered(s, catalog)
    requires item.productId != 0 && FindProduct(catalog, item.productId) == Some(p) && item.quantity > 0
    requires item.quantity <= SellableStock(p.lots, s, today) + AlreadySold(existing, p.id)
    ensures Covers(s, p.lots)
    ensures var ds := Walked(p.lots, s, item.quantity as nat, today);
            ItemVerdict(catalog, existing, s, today, item) ==
              Success(ValidItem(p, item.quantity as nat, AveragePrice(PriceOf(ds), item.quantity as nat), PriceOf(ds), ds))
  {
  }

  /** `for idx, item_data in enumerate(items_data)`: the line errors and the validated lines. */
  method CheckItems(catalog: seq<Product>, existing: seq<ItemRow>, today: int, items: seq<ItemInput>, ghost s: Stock)
    returns (errors: seq<(nat, ItemProblems)>, validated: seq<ValidItem>)
    requires CatalogCovered(s, catalog) && Current(s)
    ensures errors == ItemErrors(catalog, existing, s, today, items)
    ensures validated == ValidItems(catalog, existing, s, today, items)
  {
    errors, validated := [], [];
    var i := 0;
    while i < |items|
      invariant 0 <= i <= |items|
      invariant errors == ItemErrors(catalog, existing, s, today, items[..i])
      invariant validated == ValidItems(catalog, existing, s, today, items[..i])
    {
      assert items[..i + 1][..i] == items[..i];
      var v := CheckItem(catalog, existing, today, items[i], s);
      if v.Failure? {
        errors := errors + [(i, v.error)];
      } else {
        validated := validated + [v.value];
      }
      i := i + 1;
    }
    assert items[..|items|] == items;
  }

  /**
   * `for idx, payment_data in enumerate(payments_data)`: the payment errors and the
   * validated payments, or an unparseable amount, which ends the request at once.
   */
  method CheckPayments(payments: seq<PaymentInput>)
    returns (unparseable: bool, errors: seq<(nat, PaymentProblems)>, validated: seq<ValidPayment>)
    ensures unparseable <==> AnyUnparseable(payments)
    ensures !unparseable ==> errors == PaymentErrors(payments) && validated == ValidPayments(payments)
  {
    errors, validated := [], [];
    var i := 0;
    while i < |payments|
      invariant 0 <= i <= |payments|
      invariant !AnyUnparseable(payments[..i])
      invariant errors == PaymentErrors(payments[..i])
      invariant validated == ValidPayments(payments[..i])
    {
      assert payments[..i + 1][..i] == payments[..i];
      if payments[i].amount.None? {
        assert AnyUnparseable(payments) by {
          assert 0 <= i < |payments| && payments[i].amount.None?;
        }
        return true, errors, validated;
      }
      ghost var pre := payments[..i + 1];
      assert !AnyUnparseable(pre) by {
        forall k | 0 <= k < |pre| ensures pre[k].amount.Some? {
          if k < i {
            assert pre[k] == payments[..i][k];
          }
        }
      }
      var amount := payments[i].amount.value;
      var m := payments[i].paymentMethod;
      if amount <= 0 || MethodOf(m).None? {
        errors := errors + [(i, PaymentProblems(amount <= 0, MethodOf(m).None?))];
      } else {
        validated := validated + [ValidPayment(amount, MethodOf(m).value)];
      }
      i := i + 1;
    }
    assert payments[..|payments|] == payments;
    unparseable := false;
  }

  /**
   * The checks of create_sale (existing empty) and update_sale (existing the sale's
   * lines), as the view runs them before any write.
   */
  method ValidateSale(input: SaleInput, catalog: seq<Product>, customers: seq<CustomerRow>,
                      existing: seq<ItemRow>, today: int, ghost s: Stock) returns (r: FormVerdict)
    requires CatalogCovered(s, catalog) && Current(s)
    ensures r == FormVerdictOf(input, catalog, customers, existing, s, today)
  {
    var customerMissing := input.customerId != 0 && !HasCustomer(customers, input.customerId);
    var negativeDiscount := input.discountAmount < 0;
    var noItems := input.items == [];
    var itemErrors, validItems := CheckItems(catalog, existing, today, input.items, s);
    var unparseable, paymentErrors, validPayments := CheckPayments(input.payments);
    if unparseable {
      return Unparseable;
    }
    var errors := FormErrors(customerMissing, negativeDiscount, noItems, itemErrors, paymentErrors);
    if !NoErrors(errors) {
      return Rejected(errors);
    }
    r := Accepted(if input.customerId == 0 then None else Some(input.customerId), validItems, validPayments);
  }

  // ---------------------------------------------------------------------------
  // Properties of the checks
  // ---------------------------------------------------------------------------

  /** A validated line of create_sale draws exactly its quantity, from its product's FEFO allocation. */
  lemma CreateLineAllocates(catalog: seq<Product>, s: Stock, today: int, item: ItemInput)
    requires CatalogCovered(s, catalog)
    requires ItemVerdict(catalog, [], s, today, item).Success?
    ensures var v := ItemVerdict(catalog, [], s, today, item).value;
            v.product.id == item.productId && v.product in catalog && v.quantity == item.quantity > 0 &&
            Allocation(v.product.lots, s, v.quantity, today) == Success(v.lots) &&
            DrawnTotal(v.lots) == v.quantity && v.lineTotal == PriceOf(v.lots) &&
            v.unitPrice == AveragePrice(v.lineTotal, v.quantity)
  {
    var p := FindProduct(catalog, item.productId).value;
    var q := item.quantity as nat;
    var w := Walked(p.lots, s, q, today);
    assert q <= SellableStock(p.lots, s, today) + AlreadySold([], p.id);
    var v := ValidItem(p, q, AveragePrice(PriceOf(w), q), PriceOf(w), w);
    assert ItemVerdict(catalog, [], s, today, item) == Success(v);
    WalkedMeaning(p.lots, s, q, today);
  }

  /**
   * A line is refused for stock exactly when its quantity exceeds the sellable stock plus
   * what the sale already holds of the product, and then that sum is reported.
   */
  lemma StockCheckMeaning(catalog: seq<Product>, existing: seq<ItemRow>, s: Stock, today: int, item: ItemInput)
    requires CatalogCovered(s, catalog)
    requires item.productId != 0 && FindProduct(catalog, item.productId).Some? && item.quantity > 0
    ensures var p := FindProduct(catalog, item.productId).value;
            var total := SellableStock(p.lots, s, today) + AlreadySold(existing, p.id);
            (ItemVerdict(catalog, existing, s, today, item).Failure? <==> item.quantity > total) &&
            (ItemVerdict(catalog, existing, s, today, item).Failure? ==>
               ItemVerdict(catalog, existing, s, today, item).error == ItemProblems(None, Some(NotInStock(total))))
  {
  }

  /**
   * update_sale accepts a quantity up to current stock plus the units already on the
   * line, but prices it by walking the current stock only: when the quantity exceeds
   * the current stock, the walk draws just that stock and the line total prices only
   * those units.
   */
  lemma UpdateLinePricesCurrentStockOnly(catalog: seq<Product>, existing: seq<ItemRow>, s: Stock, today: int,
                                         item: ItemInput)
    requires CatalogCovered(s, catalog)
    requires ItemVerdict(catalog, existing, s, today, item).Success?
    ensures var v := ItemVerdict(catalog, existing, s, today, item).value;
            var stock := SellableStock(v.product.lots, s, today);
            item.quantity <= stock + AlreadySold(existing, v.product.id) &&
            DrawnTotal(v.lots) == Min(v.quantity, stock) && v.lineTotal == PriceOf(v.lots)
  {
    var p := FindProduct(catalog, item.productId).value;
    WalkedMeaning(p.lots, s, item.quantity as nat, today);
  }

  /** Every validated payment is positive and of one of the five methods; a missing method is cash. */
  lemma PaymentVerdictMeaning(amount: int, m: Option<string>)
    ensures PaymentVerdict(amount, m).Success? <==> amount > 0 && MethodOf(m).Some?
    ensures PaymentVerdict(amount, m).Success? ==> PaymentVerdict(amount, m).value.amount == amount
    ensures m.None? ==> MethodOf(m) == Some(DefaultPaymentMethod)
    ensures MethodOf(m).Some? <==>
              m.None? || m.value in ["cash", "card", "mobile_money", "bank_transfer", "other"]
  {
  }

  /**
   * The form is accepted only with a non-negative discount, at least one line, a known
   * customer or none, every line and every payment valid; each line of create_sale then
   * prices exactly its FEFO allocation.
   */
  lemma {:induction false} AcceptedMeaning(input: SaleInput, catalog: seq<Product>, customers: seq<CustomerRow>,
                                           existing: seq<ItemRow>, s: Stock, today: int)
    requires CatalogCovered(s, catalog)
    requires FormVerdictOf(input, catalog, customers, existing, s, today).Accepted?
    ensures input.discountAmount >= 0 && input.items != []
    ensures input.customerId != 0 ==> HasCustomer(customers, input.customerId)
    ensures forall i :: 0 <= i < |input.items| ==> ItemVerdict(catalog, existing, s, today, input.items[i]).Success?
    ensures |FormVerdictOf(input, catalog, customers, existing, s, today).items| == |input.items|
    ensures forall i :: 0 <= i < |input.payments| ==>
              PaymentVerdict(input.payments[i].amount.value, input.payments[i].paymentMethod).Success?
  {
    ItemsAllValid(catalog, existing, s, today, input.items);
    PaymentsAllValid(input.payments);
  }

  lemma {:induction false} ItemsAllValid(catalog: seq<Product>, existing: seq<ItemRow>, s: Stock, today: int,
                                         items: seq<ItemInput>)
    requires CatalogCovered(s, catalog)
    requires ItemErrors(catalog, existing, s, today, items) == []
    ensures forall i :: 0 <= i < |items| ==> ItemVerdict(catalog, existing, s, today, items[i]).Success?
    ensures |ValidItems(catalog, existing, s, today, items)| == |items|
    decreases |items|
  {
    if items != [] {
      var n := |items| - 1;
      ItemsAllValid(catalog, existing, s, today, items[..n]);
      forall i | 0 <= i < |items| ensures ItemVerdict(catalog, existing, s, today, items[i]).Success? {
        if i < n {
          assert items[..n][i] == items[i];
        }
      }
    }
  }

  lemma {:induction false} PaymentsAllValid(payments: seq<PaymentInput>)
    requires !AnyUnparseable(payments) && PaymentErrors(payments) == []
    ensures forall i :: 0 <= i < |payments| ==>
              PaymentVerdict(payments[i].amount.value, payments[i].paymentMethod).Success?
    decreases |payments|
  {
    if payments != [] {
      var n := |payments| - 1;
      assert !AnyUnparseable(payments[..n]) by {
        forall k | 0 <= k < n ensures payments[..n][k].amount.Some? {
          assert payments[..n][k] == payments[k];
        }
      }
      PaymentsAllValid(payments[..n]);
      forall i | 0 <= i < |payments|
        ensures PaymentVerdict(payments[i].amount.value, payments[i].paymentMethod).Success?
      {
        if i < n {
          assert payments[..n][i] == payments[i];
        }
      }
    }
  }

  // ---------------------------------------------------------------------------
  // The totals create_sale and update_sale compute
  // ---------------------------------------------------------------------------

  datatype FormTotals = FormTotals(subtotal: int, totalAmount: int, amountPaid: int, balanceDue: int, status: Status)

  /** The discount exceeds the sum of the line totals. */
  datatype DiscountTooLarge = DiscountTooLarge

  function LineTotals(items: seq<ValidItem>): nat
    decreases |items|
  {
    if items == [] then 0 else LineTotals(items[..|items| - 1]) + items[|items| - 1].lineTotal
  }

  function AmountsPaid(payments: seq<ValidPayment>): int
    decreases |payments|
  {
    if payments == [] then 0 else AmountsPaid(payments[..|payments| - 1]) + payments[|payments| - 1].amount
  }

  /**
   * subtotal = Σ line_total − discount (refused when negative), total = subtotal + tax,
   * amount_paid = Σ payments, balance = total − paid, and the status derived from them.
   */
  function SaleTotals(items: seq<ValidItem>, discount: int, tax: int, payments: seq<ValidPayment>)
    : Result<FormTotals, DiscountTooLarge>
  {
    var subtotal := LineTotals(items) - discount;
    if subtotal < 0 then Failure(DiscountTooLarge)
    else
      var total := subtotal + tax;
      var paid := AmountsPaid(payments);
      Success(FormTotals(subtotal, total, paid, total - paid, ComputeStatus(paid, total as real)))
  }

  /** Validated payments sum to a positive amount unless there are none. */
  lemma {:induction false} AmountsPaidPositive(payments: seq<ValidPayment>)
    requires forall i :: 0 <= i < |payments| ==> payments[i].amount > 0
    ensures payments == [] <==> AmountsPaid(payments) == 0
    ensures AmountsPaid(payments) >= 0
    decreases |payments|
  {
    if payments != [] {
      var n := |payments| - 1;
      assert forall i :: 0 <= i < n ==> payments[..n][i] == payments[i];
      AmountsPaidPositive(payments[..n]);
    }
  }

  /**
   * The totals are refused exactly when the discount exceeds the lines; otherwise the
   * total is lines − discount + tax, balance and amount paid add up to the total, and a
   * sale paid in full is Paid while one with only positive payments and a positive
   * balance is Partial.
   */
  lemma SaleTotalsMeaning(items: seq<ValidItem>, discount: int, tax: int, payments: seq<ValidPayment>)
    requires forall i :: 0 <= i < |payments| ==> payments[i].amount > 0
    ensures SaleTotals(items, discount, tax, payments).Failure? <==> discount > LineTotals(items)
    ensures SaleTotals(items, discount, tax, payments).Success? ==>
              var t := SaleTotals(items, discount, tax, payments).value;
              t.totalAmount == LineTotals(items) - discount + tax && t.subtotal >= 0 &&
              t.balanceDue + t.amountPaid == t.totalAmount &&
              (t.status == Paid <==> t.balanceDue <= 0) &&
              (t.status == Partial <==> t.balanceDue > 0 && payments != []) &&
              (t.status == Draft <==> t.balanceDue > 0 && payments == [])
  {
    AmountsPaidPositive(payments);
  }
}
