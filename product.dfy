/**
 * Stock queries on a product (catalog/models/product.py): sellable and expired stock,
 * the low-stock alert, and the prices of the most recently created active lot.
 * Every query is a pure filter and sum over the product's lots. The sums are taken over
 * a value map from lot to remaining quantity, so that they can also be stated for states
 * other than the current one; the `...Now` forms read the lots themselves.
 */
module Stock {
  import opened Wrappers
  import opened Lots

  /** A snapshot of remaining quantities, one per lot. */
  type Stock = map<Lot, nat>

  /** A product row with its lots (the reverse of Lot.product). */
  datatype Product = Product(id: nat, stockThreshold: nat, lots: seq<Lot>)

  predicate Covers(s: Stock, lots: seq<Lot>)
  {
    forall l :: l in lots ==> l in s
  }

  /** The current remaining quantity of each of the lots. */
  function StockOf(lots: seq<Lot>): (s: Stock)
    reads lots
    ensures Covers(s, lots)
    ensures forall l :: l in s ==> l in lots && s[l] == l.remaining
  {
    map l | l in lots :: l.remaining
  }

  /** Filter of total_stock: active and expiring strictly after today. */
  predicate InDate(l: Lot, today: int) { l.isActive && l.expirationDate > today }

  /** Filter of total_expired_stock, without its remaining > 0 part. */
  predicate PastDate(l: Lot, today: int) { l.isActive && l.expirationDate <= today }

  /** total_stock: remaining summed over active, unexpired lots. */
  function SellableStock(lots: seq<Lot>, s: Stock, today: int): nat
    requires Covers(s, lots)
    decreases |lots|
  {
    if lots == [] then 0
    else (if InDate(lots[0], today) then s[lots[0]] else 0) + SellableStock(lots[1..], s, today)
  }

  /** total_expired_stock: remaining summed over active, expired lots that still hold stock. */
  function ExpiredStock(lots: seq<Lot>, s: Stock, today: int): nat
    requires Covers(s, lots)
    decreases |lots|
  {
    if lots == [] then 0
    else (if PastDate(lots[0], today) && s[lots[0]] > 0 then s[lots[0]] else 0)
         + ExpiredStock(lots[1..], s, today)
  }

  /** Remaining summed over every active lot, whatever its date. */
  function ActiveStock(lots: seq<Lot>, s: Stock): nat
    requires Covers(s, lots)
    decreases |lots|
  {
    if lots == [] then 0
    else (if lots[0].isActive then s[lots[0]] else 0) + ActiveStock(lots[1..], s)
  }

  /** The active lots, in their original order. */
  function ActiveLots(lots: seq<Lot>): (r: seq<Lot>)
    ensures forall l :: l in r ==> l in lots && l.isActive
    ensures forall l :: l in lots && l.isActive ==> l in r
    decreases |lots|
  {
    if lots == [] then []
    else (if lots[0].isActive then [lots[0]] else []) + ActiveLots(lots[1..])
  }

  /**
   * The two stock filters partition the active lots: sellable plus expired stock is
   * all active stock.
   */
  lemma {:induction false} StockPartition(lots: seq<Lot>, s: Stock, today: int)
    requires Covers(s, lots)
    ensures SellableStock(lots, s, today) + ExpiredStock(lots, s, today) == ActiveStock(lots, s)
    decreases |lots|
  {
    if lots != [] {
      StockPartition(lots[1..], s, today);
    }
  }

  /** Inactive lots never contribute: the sums over the active lots alone are the same. */
  lemma {:induction false} InactiveLotsIgnored(lots: seq<Lot>, s: Stock, today: int)
    requires Covers(s, lots)
    ensures Covers(s, ActiveLots(lots))
    ensures SellableStock(ActiveLots(lots), s, today) == SellableStock(lots, s, today)
    ensures ExpiredStock(ActiveLots(lots), s, today) == ExpiredStock(lots, s, today)
    ensures LatestActiveLot(ActiveLots(lots)) == LatestActiveLot(lots)
    decreases |lots|
  {
    if lots != [] {
      InactiveLotsIgnored(lots[1..], s, today);
      var rest := ActiveLots(lots[1..]);
      if lots[0].isActive {
        assert ActiveLots(lots) == [lots[0]] + rest;
        assert ([lots[0]] + rest)[1..] == rest;
      } else {
        assert ActiveLots(lots) == rest;
      }
    }
  }

  /** Each sellable lot's remaining quantity is part of total_stock. */
  lemma {:induction false} SellableStockBounds(lots: seq<Lot>, s: Stock, today: int, l: Lot)
    requires Covers(s, lots)
    requires l in lots && InDate(l, today)
    ensures s[l] <= SellableStock(lots, s, today)
    decreases |lots|
  {
    if lots[0] != l {
      SellableStockBounds(lots[1..], s, today, l);
    }
  }

  /** A lot outside the total_stock filter, or holding nothing, can be zeroed without changing total_stock. */
  lemma {:induction false} SellableStockIgnores(lots: seq<Lot>, s: Stock, today: int, l: Lot)
    requires Covers(s, lots) && l in s
    requires !InDate(l, today) || s[l] == 0
    ensures Covers(s[l := 0], lots)
    ensures SellableStock(lots, s[l := 0], today) == SellableStock(lots, s, today)
    decreases |lots|
  {
    if lots != [] {
      SellableStockIgnores(lots[1..], s, today, l);
    }
  }

  /** Total stock is zero exactly when no sellable lot holds anything. */
  lemma {:induction false} SellableStockZero(lots: seq<Lot>, s: Stock, today: int)
    requires Covers(s, lots)
    ensures SellableStock(lots, s, today) == 0 <==>
              forall l :: l in lots && InDate(l, today) ==> s[l] == 0
    decreases |lots|
  {
    if lots != [] {
      SellableStockZero(lots[1..], s, today);
    }
  }

  /**
   * order_by('-created_at').first() over the active lots: the active lot with the
   * latest creation ordinal; among equal ordinals, the earliest in the list.
   */
  function LatestActiveLot(lots: seq<Lot>): (r: Option<Lot>)
    ensures r.None? <==> forall l :: l in lots ==> !l.isActive
    ensures r.Some? ==> r.value in lots && r.value.isActive
    ensures r.Some? ==> forall l :: l in lots && l.isActive ==> l.createdAt <= r.value.createdAt
    decreases |lots|
  {
    if lots == [] then None
    else
      var rest := LatestActiveLot(lots[1..]);
      if lots[0].isActive && (rest.None? || lots[0].createdAt >= rest.value.createdAt)
      then Some(lots[0])
      else rest
  }

  /** Product.sale_price. */
  function SalePrice(p: Product): nat
  {
    match LatestActiveLot(p.lots)
    case Some(l) => l.salePrice
    case None => 0
  }

  /** Product.purchase_price. */
  function PurchasePrice(p: Product): nat
  {
    match LatestActiveLot(p.lots)
    case Some(l) => l.purchasePrice
    case None => 0
  }

  /**
   * Both prices come from one active lot that no other active lot postdates, and are
   * 0 when the product has no active lot.
   */
  lemma PricesFromLatestLot(p: Product)
    ensures (forall l :: l in p.lots ==> !l.isActive) ==> SalePrice(p) == 0 && PurchasePrice(p) == 0
    ensures (exists l :: l in p.lots && l.isActive) ==>
              exists l :: l in p.lots && l.isActive &&
                (forall m :: m in p.lots && m.isActive ==> m.createdAt <= l.createdAt) &&
                SalePrice(p) == l.salePrice && PurchasePrice(p) == l.purchasePrice
  {
    if exists l :: l in p.lots && l.isActive {
      var l := LatestActiveLot(p.lots).value;
      assert l in p.lots && l.isActive;
    }
  }

  /** total_stock in the current state. */
  function TotalStockNow(p: Product, today: int): nat
    reads p.lots
  {
    SellableStock(p.lots, StockOf(p.lots), today)
  }

  /** total_expired_stock in the current state. */
  function ExpiredStockNow(p: Product, today: int): nat
    reads p.lots
  {
    ExpiredStock(p.lots, StockOf(p.lots), today)
  }

  /** is_below_threshold. */
  predicate IsBelowThreshold(p: Product, today: int)
    reads p.lots
  {
    TotalStockNow(p, today) <= p.stockThreshold
  }

  /**
   * A product whose lots are all inactive or expired is always below the threshold,
   * and a product above it has at least one active, unexpired lot that holds stock.
   */
  lemma BelowThresholdMeaning(p: Product, today: int)
    ensures !IsBelowThreshold(p, today) ==> exists l :: l in p.lots && InDate(l, today) && l.remaining > 0
    ensures (forall l :: l in p.lots ==> !InDate(l, today)) ==> IsBelowThreshold(p, today)
  {
    SellableStockZero(p.lots, StockOf(p.lots), today);
  }
}
