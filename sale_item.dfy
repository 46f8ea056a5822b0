/**
 * Sale lines and their lot traceability (sales/models/sale_item.py). Saving a line
 * allocates FEFO draws and commits them; changing its quantity reverses the recorded
 * draws and allocates again; deleting it reverses them. Each committed or reversed pair
 * moves its lot twice: once through adjust_quantity, and once more when the paired
 * movement's save applies itself to the same lot.
 */
module SaleItems {
  import opened Wrappers
  import opened Text
  import opened Lots
  import opened Movements
  import opened Stock
  import opened Fefo
  import opened SaleRules
  import opened SalesDb
  import opened Sales

  /** What a sale-line operation can fail with. */
  datatype ItemError =
    | DbFailure(db: DbError)
    | OutOfStock(shortfall: Shortfall)
    | LotFailure(adjust: AdjustError)

  /** The source of the OUT movements of a sale. */
  function SaleSource(saleId: nat): string { "Vente #" + NatToString(saleId) }

  /** The source of the IN movements written when a line is reversed. */
  function CancelSource(saleId: nat): string { "Vente #" + NatToString(saleId) + " (annulation)" }

  function LineComment(itemId: nat): string { "Ligne de vente " + NatToString(itemId) }

  function CancelComment(itemId: nat): string { "Suppression ligne de vente " + NatToString(itemId) }

  predicate DrawsCovered(s: Stock, ds: seq<Draw>)
  {
    forall i :: 0 <= i < |ds| ==> ds[i].lot in s
  }

  predicate RowsCovered(s: Stock, rows: seq<ItemLotRow>)
  {
    forall i :: 0 <= i < |rows| ==> rows[i].lot in s
  }

  /** Every lot of the snapshot within [0, its initial quantity]. */
  predicate InBoundsStock(s: Stock)
  {
    forall l :: l in s ==> s[l] <= l.quantity
  }

  /**
   * One committed pair: lot.adjust_quantity(−q), then the OUT movement applied to the
   * same lot by its save.
   */
  function CommitDraw(s: Stock, d: Draw): (r: Result<Stock, AdjustError>)
    requires d.lot in s
    ensures r.Success? ==> r.value.Keys == s.Keys
  {
    match Adjusted(s[d.lot], d.lot.quantity, -(d.quantity as int))
    case Failure(e) => Failure(e)
    case Success(n) =>
      match Applied(Out, d.quantity, n, d.lot.quantity)
      case Failure(e) => Failure(e)
      case Success(m) => Success(s[d.lot := m])
  }

  /** _create_sale_item_lots on the stock: the pairs in order, stopping at the first error. */
  function CommitAll(s: Stock, ds: seq<Draw>): (r: Result<Stock, AdjustError>)
    requires DrawsCovered(s, ds)
    ensures r.Success? ==> r.value.Keys == s.Keys
    decreases |ds|
  {
    if ds == [] then Success(s)
    else match CommitDraw(s, ds[0])
      case Failure(e) => Failure(e)
      case Success(s1) => CommitAll(s1, ds[1..])
  }

  /** One reversed row: lot.adjust_quantity(+q), then the IN movement applied by its save. */
  function RevertRow(s: Stock, row: ItemLotRow): (r: Result<Stock, AdjustError>)
    requires row.lot in s
    ensures r.Success? ==> r.value.Keys == s.Keys
  {
    match Adjusted(s[row.lot], row.lot.quantity, row.quantity)
    case Failure(e) => Failure(e)
    case Success(n) =>
      match Applied(In, row.quantity, n, row.lot.quantity)
      case Failure(e) => Failure(e)
      case Success(m) => Success(s[row.lot := m])
  }

  /** _remove_sale_item_lots on the stock. */
  function RevertAll(s: Stock, rows: seq<ItemLotRow>): (r: Result<Stock, AdjustError>)
    requires RowsCovered(s, rows)
    ensures r.Success? ==> r.value.Keys == s.Keys
    decreases |rows|
  {
    if rows == [] then Success(s)
    else match RevertRow(s, rows[0])
      case Failure(e) => Failure(e)
      case Success(s1) => RevertAll(s1, rows[1..])
  }

  /** The SaleItemLot rows a commit writes: one per pair, priced at the lot's sale price. */
  function CommitRows(itemId: nat, ds: seq<Draw>): (r: seq<ItemLotRow>)
    ensures |r| == |ds|
    ensures forall i :: 0 <= i < |ds| ==>
              r[i] == ItemLotRow(itemId, ds[i].lot, ds[i].quantity, ds[i].lot.salePrice)
    decreases |ds|
  {
    if ds == [] then []
    else [ItemLotRow(itemId, ds[0].lot, ds[0].quantity, ds[0].lot.salePrice)] + CommitRows(itemId, ds[1..])
  }

  /** The OUT movements a commit writes, one per pair. */
  function CommitMoves(ds: seq<Draw>, saleId: nat, itemId: nat, date: int): (r: seq<MovementRecord>)
    ensures |r| == |ds|
    ensures forall i :: 0 <= i < |ds| ==>
              r[i] == MovementRecord(ds[i].lot, Out, ds[i].quantity, SaleSource(saleId), date, LineComment(itemId))
    decreases |ds|
  {
    if ds == [] then []
    else [MovementRecord(ds[0].lot, Out, ds[0].quantity, SaleSource(saleId), date, LineComment(itemId))]
         + CommitMoves(ds[1..], saleId, itemId, date)
  }

  /** The IN movements a reversal writes, one per recorded row. */
  function RevertMoves(rows: seq<ItemLotRow>, saleId: nat, itemId: nat, date: int): (r: seq<MovementRecord>)
    ensures |r| == |rows|
    ensures forall i :: 0 <= i < |rows| ==>
              r[i] == MovementRecord(rows[i].lot, In, rows[i].quantity, CancelSource(saleId), date, CancelComment(itemId))
    decreases |rows|
  {
    if rows == [] then []
    else [MovementRecord(rows[0].lot, In, rows[0].quantity, CancelSource(saleId), date, CancelComment(itemId))]
         + RevertMoves(rows[1..], saleId, itemId, date)
  }

  /**
   * The double application: an in-bounds lot survives a committed pair of q exactly when
   * it holds at least 2q, and then loses 2q; reversing a row of q raises it by 2q when
   * that stays within the initial quantity.
   */
  lemma CommitDrawMeaning(s: Stock, d: Draw)
    requires d.lot in s && s[d.lot] <= d.lot.quantity
    ensures CommitDraw(s, d).Success? <==> 2 * d.quantity <= s[d.lot]
    ensures CommitDraw(s, d).Success? ==> CommitDraw(s, d).value == s[d.lot := s[d.lot] - 2 * d.quantity]
    ensures CommitDraw(s, d).Failure? ==>
              CommitDraw(s, d).error ==
                if d.quantity <= s[d.lot]
                then InsufficientInLot(s[d.lot] - d.quantity, d.quantity)
                else InsufficientInLot(s[d.lot], d.quantity)
  {
  }

  lemma RevertRowMeaning(s: Stock, row: ItemLotRow)
    requires row.lot in s
    ensures RevertRow(s, row).Success? <==> s[row.lot] + 2 * row.quantity <= row.lot.quantity
    ensures RevertRow(s, row).Success? ==> RevertRow(s, row).value == s[row.lot := s[row.lot] + 2 * row.quantity]
  {
  }

  /**
   * A line that needs more than one lot can never be committed: the first pair empties
   * its lot, and the movement's second decrement then underflows. A one-lot line commits
   * exactly when that lot holds at least twice the quantity.
   */
  lemma NewLineCommitIff(lots: seq<Lot>, s: Stock, need: nat, today: int)
    requires Covers(s, lots) && InBoundsStock(s) && need > 0
    requires Allocation(lots, s, need, today).Success?
    ensures var ds := Allocation(lots, s, need, today).value;
            DrawsCovered(s, ds) && |ds| >= 1 &&
            (CommitAll(s, ds).Success? <==> |ds| == 1 && 2 * need <= s[ds[0].lot]) &&
            (|ds| == 1 && CommitAll(s, ds).Success? ==>
               CommitAll(s, ds).value == s[ds[0].lot := s[ds[0].lot] - 2 * need])
  {
    AllocationMeaning(lots, s, need, today);
    var ds := Allocation(lots, s, need, today).value;
    CommitDrawMeaning(s, ds[0]);
    if |ds| == 1 {
      assert DrawnTotal(ds) == ds[0].quantity + DrawnTotal(ds[1..]);
      assert ds[1..] == [];
      if CommitDraw(s, ds[0]).Success? {
        assert CommitAll(s, ds) == CommitAll(CommitDraw(s, ds[0]).value, []);
      }
    } else {
      assert ds[0].quantity == s[ds[0].lot];
    }
  }

  /** A commit changes only the lots it draws from. */
  lemma {:induction false} CommitAllFrame(s: Stock, ds: seq<Draw>, l: Lot, v: nat)
    requires DrawsCovered(s, ds) && l in s
    requires forall i :: 0 <= i < |ds| ==> ds[i].lot != l
    ensures DrawsCovered(s[l := v], ds)
    ensures CommitAll(s[l := v], ds) ==
              match CommitAll(s, ds)
              case Success(t) => Success(t[l := v])
              case Failure(e) => Failure(e)
    ensures CommitAll(s, ds).Success? ==> CommitAll(s, ds).value[l] == s[l]
    decreases |ds|
  {
    if ds != [] {
      var d := ds[0];
      assert s[l := v][d.lot] == s[d.lot];
      match CommitDraw(s, d)
      case Failure(e) =>
      case Success(s1) =>
        var n := Adjusted(s[d.lot], d.lot.quantity, -(d.quantity as int)).value;
        var m := Applied(Out, d.quantity, n, d.lot.quantity).value;
        assert s1 == s[d.lot := m];
        assert s[l := v][d.lot := m] == s[d.lot := m][l := v];
        assert CommitDraw(s[l := v], d) == Success(s1[l := v]);
        CommitAllFrame(s1, ds[1..], l, v);
    }
  }

  /**
   * Reversal exactness: reversing the rows a successful commit wrote (distinct lots, all
   * in bounds) restores every lot to its value before the commit.
   */
  lemma {:induction false} CommitThenRevert(s: Stock, ds: seq<Draw>, itemId: nat)
    requires DrawsCovered(s, ds) && InBoundsStock(s)
    requires forall i, j :: 0 <= i < j < |ds| ==> ds[i].lot != ds[j].lot
    requires CommitAll(s, ds).Success?
    ensures RowsCovered(CommitAll(s, ds).value, CommitRows(itemId, ds))
    ensures RevertAll(CommitAll(s, ds).value, CommitRows(itemId, ds)) == Success(s)
    decreases |ds|
  {
    if ds != [] {
      var d := ds[0];
      var l := d.lot;
      CommitDrawMeaning(s, d);
      var s1 := CommitDraw(s, d).value;
      var rest := ds[1..];
      var final := CommitAll(s, ds).value;
      assert CommitAll(s, ds) == CommitAll(s1, rest);
      CommitAllFrame(s1, rest, l, s[l]);
      assert s1[l := s[l]] == s;
      assert CommitAll(s, rest) == Success(final[l := s[l]]);
      assert final[l] == s1[l];
      var rows := CommitRows(itemId, ds);
      assert rows[0] == ItemLotRow(itemId, l, d.quantity, l.salePrice);
      assert rows[1..] == CommitRows(itemId, rest);
      RevertRowMeaning(final, rows[0]);
      assert RevertRow(final, rows[0]) == Success(final[l := s[l]]);
      CommitThenRevert(s, rest, itemId);
    } else {
    }
  }

  /** A frame for reversal, as for commits: only the recorded lots move. */
  lemma {:induction false} RevertAllFrame(s: Stock, rows: seq<ItemLotRow>, l: Lot)
    requires RowsCovered(s, rows) && l in s
    requires forall i :: 0 <= i < |rows| ==> rows[i].lot != l
    ensures RevertAll(s, rows).Success? ==> RevertAll(s, rows).value[l] == s[l]
    decreases |rows|
  {
    if rows != [] {
      match RevertRow(s, rows[0])
      case Failure(e) =>
      case Success(s1) =>
        RevertAllFrame(s1, rows[1..], l);
    }
  }

  /** Committing a prefix and then the rest is committing the whole. */
  lemma {:induction false} CommitAllSplit(s: Stock, ds: seq<Draw>, i: nat)
    requires DrawsCovered(s, ds) && i <= |ds|
    ensures DrawsCovered(s, ds[..i])
    ensures CommitAll(s, ds[..i]).Success? ==>
              DrawsCovered(CommitAll(s, ds[..i]).value, ds[i..]) &&
              CommitAll(s, ds) == CommitAll(CommitAll(s, ds[..i]).value, ds[i..])
    ensures CommitAll(s, ds[..i]).Failure? ==> CommitAll(s, ds) == CommitAll(s, ds[..i])
    decreases i
  {
    if i == 0 {
      assert ds[..0] == [] && ds[0..] == ds;
    } else {
      assert ds[..i][0] == ds[0];
      match CommitDraw(s, ds[0])
      case Failure(e) =>
      case Success(s1) =>
        assert ds[..i][1..] == ds[1..][..i - 1];
        assert ds[i..] == ds[1..][i - 1..];
        CommitAllSplit(s1, ds[1..], i - 1);
    }
  }

  lemma {:induction false} RevertAllSplit(s: Stock, rows: seq<ItemLotRow>, i: nat)
    requires RowsCovered(s, rows) && i <= |rows|
    ensures RowsCovered(s, rows[..i])
    ensures RevertAll(s, rows[..i]).Success? ==>
              RowsCovered(RevertAll(s, rows[..i]).value, rows[i..]) &&
              RevertAll(s, rows) == RevertAll(RevertAll(s, rows[..i]).value, rows[i..])
    ensures RevertAll(s, rows[..i]).Failure? ==> RevertAll(s, rows) == RevertAll(s, rows[..i])
    decreases i
  {
    if i == 0 {
      assert rows[..0] == [] && rows[0..] == rows;
    } else {
      assert rows[..i][0] == rows[0];
      match RevertRow(s, rows[0])
      case Failure(e) =>
      case Success(s1) =>
        assert rows[..i][1..] == rows[1..][..i - 1];
        assert rows[i..] == rows[1..][i - 1..];
        RevertAllSplit(s1, rows[1..], i - 1);
    }
  }

  /** One more pair on top of a successful prefix. */
  lemma CommitAllStep(s: Stock, ds: seq<Draw>, i: nat)
    requires DrawsCovered(s, ds) && i < |ds|
    requires CommitAll(s, ds[..i]).Success?
    ensures ds[i].lot in CommitAll(s, ds[..i]).value
    ensures CommitAll(s, ds[..i + 1]) == CommitDraw(CommitAll(s, ds[..i]).value, ds[i])
    ensures CommitAll(s, ds[..i + 1]).Failure? ==> CommitAll(s, ds) == CommitAll(s, ds[..i + 1])
  {
    CommitAllSplit(s, ds[..i + 1], i);
    assert ds[..i + 1][..i] == ds[..i];
    assert ds[..i + 1][i..] == [ds[i]];
    CommitAllSplit(s, ds, i + 1);
    var t := CommitAll(s, ds[..i]).value;
    match CommitDraw(t, ds[i])
    case Failure(e) =>
    case Success(t1) =>
      assert CommitAll(t, [ds[i]]) == CommitAll(t1, []);
  }

  lemma RevertAllStep(s: Stock, rows: seq<ItemLotRow>, i: nat)
    requires RowsCovered(s, rows) && i < |rows|
    requires RevertAll(s, rows[..i]).Success?
    ensures rows[i].lot in RevertAll(s, rows[..i]).value
    ensures RevertAll(s, rows[..i + 1]) == RevertRow(RevertAll(s, rows[..i]).value, rows[i])
    ensures RevertAll(s, rows[..i + 1]).Failure? ==> RevertAll(s, rows) == RevertAll(s, rows[..i + 1])
  {
    RevertAllSplit(s, rows[..i + 1], i);
    assert rows[..i + 1][..i] == rows[..i];
    assert rows[..i + 1][i..] == [rows[i]];
    RevertAllSplit(s, rows, i + 1);
    var t := RevertAll(s, rows[..i]).value;
    match RevertRow(t, rows[i])
    case Failure(e) =>
    case Success(t1) =>
      assert RevertAll(t, [rows[i]]) == RevertAll(t1, []);
  }

  /** The state a sale line's lot handling works on: the stock, the SaleItemLot table and the movement log. */
  datatype LineState = LineState(stock: Stock, itemLots: seq<ItemLotRow>, moves: seq<MovementRecord>)

  /** Every recorded SaleItemLot row refers to a lot of the snapshot. */
  predicate Tracked(st: LineState)
  {
    forall x :: x in st.itemLots ==> x.lot in st.stock
  }

  /** A fresh allocation of `quantity` from the product's lots, committed. */
  function Allocated(st: LineState, quantity: nat, itemId: nat, saleId: nat, date: int,
                     lots: seq<Lot>, today: int): (r: Result<LineState, ItemError>)
    requires Covers(st.stock, lots)
    ensures r.Success? ==> r.value.stock.Keys == st.stock.Keys
  {
    if quantity == 0 then Success(st)
    else match Allocation(lots, st.stock, quantity, today)
      case Failure(sh) => Failure(OutOfStock(sh))
      case Success(ds) =>
        AllocationMeaning(lots, st.stock, quantity, today);
        match CommitAll(st.stock, ds)
        case Failure(e) => Failure(LotFailure(e))
        case Success(s1) =>
          Success(LineState(s1, st.itemLots + CommitRows(itemId, ds),
                            st.moves + CommitMoves(ds, saleId, itemId, date)))
  }

  /** _remove_sale_item_lots: every recorded row of the item reversed, then the rows deleted. */
  function Reversed(st: LineState, itemId: nat, saleId: nat, date: int): (r: Result<LineState, ItemError>)
    requires Tracked(st)
    ensures r.Success? ==> r.value.stock.Keys == st.stock.Keys
  {
    var rows := ItemLotsOf(st.itemLots, itemId);
    assert RowsCovered(st.stock, rows) by {
      forall i | 0 <= i < |rows| ensures rows[i].lot in st.stock {
        assert rows[i] in rows;
      }
    }
    match RevertAll(st.stock, rows)
    case Failure(e) => Failure(LotFailure(e))
    case Success(s1) =>
      Success(LineState(s1, WithoutItemLots(st.itemLots, itemId),
                        st.moves + RevertMoves(rows, saleId, itemId, date)))
  }

  /**
   * The lot handling of SaleItem.save: a new line allocates; an existing line whose
   * quantity changed is reversed and then allocated again at its new quantity; an
   * unchanged quantity leaves everything as it is.
   */
  function LineLots(st: LineState, isNew: bool, previous: nat, quantity: nat, itemId: nat,
                    saleId: nat, date: int, lots: seq<Lot>, today: int): (r: Result<LineState, ItemError>)
    requires Covers(st.stock, lots) && Tracked(st)
  {
    if isNew then Allocated(st, quantity, itemId, saleId, date, lots, today)
    else if quantity == previous then Success(st)
    else match Reversed(st, itemId, saleId, date)
      case Failure(e) => Failure(e)
      case Success(st1) => Allocated(st1, quantity, itemId, saleId, date, lots, today)
  }

  /**
   * Saving a new line of quantity q > 0 over in-bounds stock succeeds exactly when the
   * FEFO walk stops at its first lot and that lot holds at least 2q; the lot then loses
   * 2q, one SaleItemLot row and one OUT movement of q are written.
   */
  lemma NewLineEffect(st: LineState, quantity: nat, itemId: nat, saleId: nat, date: int,
                      lots: seq<Lot>, today: int)
    requires Covers(st.stock, lots) && Tracked(st) && InBoundsStock(st.stock) && quantity > 0
    ensures var r := LineLots(st, true, 0, quantity, itemId, saleId, date, lots, today);
            var a := Allocation(lots, st.stock, quantity, today);
            (r.Success? <==> a.Success? && |a.value| == 1 && 2 * quantity <= st.stock[a.value[0].lot]) &&
            (a.Failure? ==> r == Failure(OutOfStock(Shortfall(quantity, SellableStock(lots, st.stock, today))))) &&
            (r.Success? ==>
               var l := a.value[0].lot;
               r.value == LineState(st.stock[l := st.stock[l] - 2 * quantity],
                                    st.itemLots + [ItemLotRow(itemId, l, quantity, l.salePrice)],
                                    st.moves + [MovementRecord(l, Out, quantity, SaleSource(saleId), date, LineComment(itemId))]))
  {
    AllocationMeaning(lots, st.stock, quantity, today);
    var a := Allocation(lots, st.stock, quantity, today);
    if a.Success? {
      NewLineCommitIff(lots, st.stock, quantity, today);
      var ds := a.value;
      if |ds| == 1 {
        assert DrawnTotal(ds) == ds[0].quantity + DrawnTotal(ds[1..]);
        assert CommitRows(itemId, ds) == [ItemLotRow(itemId, ds[0].lot, quantity, ds[0].lot.salePrice)];
        assert CommitMoves(ds, saleId, itemId, date) ==
               [MovementRecord(ds[0].lot, Out, quantity, SaleSource(saleId), date, LineComment(itemId))];
      }
    }
  }

  /** Re-saving a line at its recorded quantity touches nothing. */
  lemma UnchangedQuantityKeepsState(st: LineState, quantity: nat, itemId: nat, saleId: nat, date: int,
                                    lots: seq<Lot>, today: int)
    requires Covers(st.stock, lots) && Tracked(st)
    ensures LineLots(st, false, quantity, quantity, itemId, saleId, date, lots, today) == Success(st)
  {
  }

  lemma {:induction false} ItemLotsOfAppend(a: seq<ItemLotRow>, b: seq<ItemLotRow>, item: nat)
    ensures ItemLotsOf(a + b, item) == ItemLotsOf(a, item) + ItemLotsOf(b, item)
    decreases |a|
  {
    if a == [] {
      assert a + b == b;
    } else {
      var h := if a[0].item == item then [a[0]] else [];
      assert (a + b)[0] == a[0];
      assert (a + b)[1..] == a[1..] + b;
      ItemLotsOfAppend(a[1..], b, item);
      AppendAssoc(h, ItemLotsOf(a[1..], item), ItemLotsOf(b, item));
    }
  }

  lemma {:induction false} WithoutItemLotsAppend(a: seq<ItemLotRow>, b: seq<ItemLotRow>, item: nat)
    ensures WithoutItemLots(a + b, item) == WithoutItemLots(a, item) + WithoutItemLots(b, item)
    decreases |a|
  {
    if a == [] {
      assert a + b == b;
    } else {
      var h := if a[0].item == item then [] else [a[0]];
      assert (a + b)[0] == a[0];
      assert (a + b)[1..] == a[1..] + b;
      WithoutItemLotsAppend(a[1..], b, item);
      AppendAssoc(h, WithoutItemLots(a[1..], item), WithoutItemLots(b, item));
    }
  }

  /** The successful commit of a positive quantity, spelled out. */
  lemma AllocatedValue(st: LineState, quantity: nat, itemId: nat, saleId: nat, date: int,
                       lots: seq<Lot>, today: int)
    requires Covers(st.stock, lots) && quantity > 0
    requires Allocated(st, quantity, itemId, saleId, date, lots, today).Success?
    ensures Allocation(lots, st.stock, quantity, today).Success?
    ensures var ds := Allocation(lots, st.stock, quantity, today).value;
            DrawsCovered(st.stock, ds) && CommitAll(st.stock, ds).Success? &&
            Allocated(st, quantity, itemId, saleId, date, lots, today).value ==
              LineState(CommitAll(st.stock, ds).value, st.itemLots + CommitRows(itemId, ds),
                        st.moves + CommitMoves(ds, saleId, itemId, date))
  {
  }

  lemma {:induction false} CommitRowsOwn(item: nat, ds: seq<Draw>)
    ensures ItemLotsOf(CommitRows(item, ds), item) == CommitRows(item, ds)
    ensures WithoutItemLots(CommitRows(item, ds), item) == []
    decreases |ds|
  {
    if ds != [] {
      var rows := CommitRows(item, ds);
      assert rows[1..] == CommitRows(item, ds[1..]);
      CommitRowsOwn(item, ds[1..]);
    }
  }

  lemma {:induction false} NoRowsOfItem(rows: seq<ItemLotRow>, item: nat)
    requires forall x :: x in rows ==> x.item != item
    ensures ItemLotsOf(rows, item) == [] && WithoutItemLots(rows, item) == rows
    decreases |rows|
  {
    if rows != [] {
      NoRowsOfItem(rows[1..], item);
      assert [rows[0]] + rows[1..] == rows;
    }
  }

  /**
   * Deleting a line right after saving it new restores the stock and the SaleItemLot
   * table: each lot gets back the 2q the commit took. The movement log keeps both halves.
   */
  lemma NewLineThenDelete(st: LineState, quantity: nat, itemId: nat, saleId: nat, date: int,
                          lots: seq<Lot>, today: int)
    requires Covers(st.stock, lots) && Tracked(st) && InBoundsStock(st.stock) && NoDuplicates(lots)
    requires forall x :: x in st.itemLots ==> x.item != itemId
    requires LineLots(st, true, 0, quantity, itemId, saleId, date, lots, today).Success?
    ensures var e := LineLots(st, true, 0, quantity, itemId, saleId, date, lots, today).value;
            Tracked(e) &&
            Reversed(e, itemId, saleId, date).Success? &&
            Reversed(e, itemId, saleId, date).value.stock == st.stock &&
            Reversed(e, itemId, saleId, date).value.itemLots == st.itemLots
  {
    var e := LineLots(st, true, 0, quantity, itemId, saleId, date, lots, today).value;
    NoRowsOfItem(st.itemLots, itemId);
    if quantity > 0 {
      AllocatedValue(st, quantity, itemId, saleId, date, lots, today);
      AllocationNoDuplicates(lots, st.stock, quantity, today);
      var ds := Allocation(lots, st.stock, quantity, today).value;
      var rows := CommitRows(itemId, ds);
      assert e.itemLots == st.itemLots + rows;
      assert e.stock.Keys == st.stock.Keys;
      assert Tracked(e) by {
        forall x | x in e.itemLots ensures x.lot in e.stock {
          if x !in st.itemLots {
            var i :| 0 <= i < |rows| && rows[i] == x;
          }
        }
      }
      ItemLotsOfAppend(st.itemLots, rows, itemId);
      WithoutItemLotsAppend(st.itemLots, rows, itemId);
      CommitRowsOwn(itemId, ds);
      assert ItemLotsOf(e.itemLots, itemId) == rows;
      assert WithoutItemLots(e.itemLots, itemId) == st.itemLots;
      CommitThenRevert(st.stock, ds, itemId);
      assert RevertAll(e.stock, rows) == Success(st.stock);
    } else {
      assert e == st;
    }
  }

  /** The rows and movements of one more pair extend those of the prefix. */
  lemma CommitWritesSnoc(ds: seq<Draw>, i: nat, itemId: nat, saleId: nat, date: int)
    requires i < |ds|
    ensures CommitRows(itemId, ds[..i + 1]) ==
              CommitRows(itemId, ds[..i]) + [ItemLotRow(itemId, ds[i].lot, ds[i].quantity, ds[i].lot.salePrice)]
    ensures CommitMoves(ds[..i + 1], saleId, itemId, date) ==
              CommitMoves(ds[..i], saleId, itemId, date) +
              [MovementRecord(ds[i].lot, Out, ds[i].quantity, SaleSource(saleId), date, LineComment(itemId))]
  {
    assert ds[..i + 1] == ds[..i] + [ds[i]];
  }

  lemma RevertWritesSnoc(rows: seq<ItemLotRow>, i: nat, itemId: nat, saleId: nat, date: int)
    requires i < |rows|
    ensures RevertMoves(rows[..i + 1], saleId, itemId, date) ==
              RevertMoves(rows[..i], saleId, itemId, date) +
              [MovementRecord(rows[i].lot, In, rows[i].quantity, CancelSource(saleId), date, CancelComment(itemId))]
  {
    assert rows[..i + 1] == rows[..i] + [rows[i]];
  }

  /** The heap holds the snapshot's quantity in each of its lots. */
  predicate Matches(s: Stock)
    reads s.Keys
  {
    forall l :: l in s ==> l.remaining == s[l]
  }

  /** The current remaining quantity of each lot of a set. */
  function Snapshot(ls: set<Lot>): (s: Stock)
    reads ls
    ensures s.Keys == ls && Matches(s)
  {
    map l | l in ls :: l.remaining
  }

  /** The lots a line's save or delete can move: the product's, and any lot a SaleItemLot row names. */
  function Touched(lots: seq<Lot>, db: Db): set<Lot>
    reads db
  {
    (set l | l in lots) + LotsIn(db.itemLots)
  }

  /** The quantity `SaleItem.objects.only('quantity').get(pk=...)` reads back (0 for a new line). */
  function PreviousQuantity(items: seq<ItemRow>, pk: Option<nat>): nat
  {
    if pk.None? then 0
    else match FindItem(items, pk.value)
      case Some(row) => row.quantity
      case None => 0
  }

  /** One pass of _create_sale_item_lots' loop: the SaleItemLot row, adjust_quantity, the OUT movement. */
  method CommitOne(db: Db, d: Draw, itemId: nat, saleId: nat, date: int, ghost t: Stock) returns (r: Outcome<ItemError>)
    requires d.lot in t && Matches(t)
    modifies db`itemLots, db.movements, d.lot
    ensures r.Pass? <==> CommitDraw(t, d).Success?
    ensures r.Pass? ==>
              db.itemLots == old(db.itemLots) + [ItemLotRow(itemId, d.lot, d.quantity, d.lot.salePrice)] &&
              db.movements.rows == old(db.movements.rows) +
                [MovementRecord(d.lot, Out, d.quantity, SaleSource(saleId), date, LineComment(itemId))] &&
              Matches(CommitDraw(t, d).value)
    ensures r.Fail? ==> r.error == LotFailure(CommitDraw(t, d).error)
  {
    db.itemLots := db.itemLots + [ItemLotRow(itemId, d.lot, d.quantity, d.lot.salePrice)];
    var a := d.lot.AdjustQuantity(-(d.quantity as int));
    if a.Fail? {
      return Fail(LotFailure(a.error));
    }
    var m, b := Create(db.movements, d.lot, Out, d.quantity, SaleSource(saleId), date, LineComment(itemId));
    if b.Fail? {
      return Fail(LotFailure(b.error));
    }
    r := Pass;
  }

  /** One pass of _remove_sale_item_lots' loop: adjust_quantity(+q), then the IN movement. */
  method RevertOne(db: Db, row: ItemLotRow, itemId: nat, saleId: nat, date: int, ghost t: Stock) returns (r: Outcome<ItemError>)
    requires row.lot in t && Matches(t)
    modifies db.movements, row.lot
    ensures r.Pass? <==> RevertRow(t, row).Success?
    ensures r.Pass? ==>
              db.movements.rows == old(db.movements.rows) +
                [MovementRecord(row.lot, In, row.quantity, CancelSource(saleId), date, CancelComment(itemId))] &&
              Matches(RevertRow(t, row).value)
    ensures r.Fail? ==> r.error == LotFailure(RevertRow(t, row).error)
  {
    var a := row.lot.AdjustQuantity(row.quantity);
    if a.Fail? {
      return Fail(LotFailure(a.error));
    }
    var m, b := Create(db.movements, row.lot, In, row.quantity, CancelSource(saleId), date, CancelComment(itemId));
    if b.Fail? {
      return Fail(LotFailure(b.error));
    }
    r := Pass;
  }

  /** The loop of _create_sale_item_lots over the pairs; the result is CommitAll's. */
  method CommitDraws(db: Db, ds: seq<Draw>, itemId: nat, saleId: nat, date: int, ghost s: Stock)
    returns (r: Outcome<ItemError>)
    requires DrawsCovered(s, ds) && Matches(s)
    modifies db`itemLots, db.movements, s.Keys
    ensures r.Pass? <==> CommitAll(s, ds).Success?
    ensures r.Pass? ==>
              db.itemLots == old(db.itemLots) + CommitRows(itemId, ds) &&
              db.movements.rows == old(db.movements.rows) + CommitMoves(ds, saleId, itemId, date) &&
              Matches(CommitAll(s, ds).value)
    ensures r.Fail? ==> r.error == LotFailure(CommitAll(s, ds).error)
  {
    ghost var lots0, rows0 := db.itemLots, db.movements.rows;
    var i := 0;
    while i < |ds|
      invariant 0 <= i <= |ds|
      invariant DrawsCovered(s, ds[..i])
      invariant CommitAll(s, ds[..i]).Success?
      invariant db.itemLots == lots0 + CommitRows(itemId, ds[..i])
      invariant db.movements.rows == rows0 + CommitMoves(ds[..i], saleId, itemId, date)
      invariant Matches(CommitAll(s, ds[..i]).value)
    {
      CommitAllStep(s, ds, i);
      ghost var t := CommitAll(s, ds[..i]).value;
      r := CommitOne(db, ds[i], itemId, saleId, date, t);
      if r.Fail? {
        return;
      }
      CommitWritesSnoc(ds, i, itemId, saleId, date);
      AppendAssoc(lots0, CommitRows(itemId, ds[..i]), [ItemLotRow(itemId, ds[i].lot, ds[i].quantity, ds[i].lot.salePrice)]);
      AppendAssoc(rows0, CommitMoves(ds[..i], saleId, itemId, date),
                  [MovementRecord(ds[i].lot, Out, ds[i].quantity, SaleSource(saleId), date, LineComment(itemId))]);
      i := i + 1;
    }
    assert ds[..|ds|] == ds;
    r := Pass;
  }

  /** The loop of _remove_sale_item_lots over the item's rows; the result is RevertAll's. */
  method RevertRows(db: Db, rows: seq<ItemLotRow>, itemId: nat, saleId: nat, date: int, ghost s: Stock)
    returns (r: Outcome<ItemError>)
    requires RowsCovered(s, rows) && Matches(s)
    modifies db.movements, s.Keys
    ensures r.Pass? <==> RevertAll(s, rows).Success?
    ensures r.Pass? ==>
              db.movements.rows == old(db.movements.rows) + RevertMoves(rows, saleId, itemId, date) &&
              Matches(RevertAll(s, rows).value)
    ensures r.Fail? ==> r.error == LotFailure(RevertAll(s, rows).error)
  {
    ghost var moves0 := db.movements.rows;
    var i := 0;
    while i < |rows|
      invariant 0 <= i <= |rows|
      invariant RowsCovered(s, rows[..i])
      invariant RevertAll(s, rows[..i]).Success?
      invariant db.movements.rows == moves0 + RevertMoves(rows[..i], saleId, itemId, date)
      invariant Matches(RevertAll(s, rows[..i]).value)
    {
      RevertAllStep(s, rows, i);
      ghost var t := RevertAll(s, rows[..i]).value;
      r := RevertOne(db, rows[i], itemId, saleId, date, t);
      if r.Fail? {
        return;
      }
      RevertWritesSnoc(rows, i, itemId, saleId, date);
      AppendAssoc(moves0, RevertMoves(rows[..i], saleId, itemId, date),
                  [MovementRecord(rows[i].lot, In, rows[i].quantity, CancelSource(saleId), date, CancelComment(itemId))]);
      i := i + 1;
    }
    assert rows[..|rows|] == rows;
    r := Pass;
  }

  /**
   * The loop of _get_lots_for_sale over the candidate lots: min(remaining, still needed)
   * from each until the need is met. It takes what DrawsOf says, and leaves the unmet need.
   */
  method WalkLots(available: seq<Lot>, need: nat, ghost rems: seq<nat>) returns (lotsToUse: seq<Draw>, remaining: nat)
    requires |rems| == |available| && forall k :: 0 <= k < |rems| ==> rems[k] == available[k].remaining
    ensures |DrawsOf(rems, need)| <= |available|
    ensures lotsToUse == Pair(available, DrawsOf(rems, need))
    ensures Sum(DrawsOf(rems, need)) + remaining == need
  {
    ghost var d := DrawsOf(rems, need);
    lotsToUse := [];
    ghost var taken: seq<nat> := [];
    remaining := need;
    var i := 0;
    while i < |available|
      invariant 0 <= i <= |available|
      invariant |lotsToUse| == i && |taken| == i
      invariant forall k :: 0 <= k < i ==> lotsToUse[k] == Draw(available[k], taken[k])
      invariant d == taken + DrawsOf(rems[i..], remaining)
      invariant Sum(taken) + remaining == need
    {
      if remaining <= 0 {
        break;
      }
      var q := Min(available[i].remaining, remaining);
      DrawStep(rems, i, remaining, taken, d, need);
      lotsToUse := lotsToUse + [Draw(available[i], q)];
      taken := taken + [q];
      remaining := remaining - q;
      i := i + 1;
    }
    assert d == taken;
  }

  /** The persisted tables, for stating that a rolled-back transaction left them as they were. */
  datatype Tables = Tables(
    sales: seq<SaleRow>, customers: seq<CustomerRow>, items: seq<ItemRow>, itemLots: seq<ItemLotRow>,
    payments: seq<PaymentRow>, nextId: nat, moves: seq<MovementRecord>)

  function TablesOf(db: Db): Tables
    reads db, db.movements
  {
    Tables(db.sales, db.customers, db.items, db.itemLots, db.payments, db.nextId, db.movements.rows)
  }

  /** The rollback of an atomic block: every table and every snapshotted lot as before. */
  method Restore(db: Db, t: Tables, saved: Stock)
    modifies db, db.movements, saved.Keys
    ensures TablesOf(db) == t && Matches(saved)
  {
    db.sales, db.customers, db.items, db.itemLots, db.payments, db.nextId :=
      t.sales, t.customers, t.items, t.itemLots, t.payments, t.nextId;
    db.movements.rows := t.moves;
    forall l | l in saved.Keys {
      l.remaining := saved[l];
    }
  }

  /**
   * What a line's save does to the lots, from the current tables: LineLots on a snapshot
   * of the touched lots, with the previous quantity read back and, for a new line, the
   * next id as the line's id.
   */
  ghost function SaveEffect(db: Db, lots: seq<Lot>, pk: Option<nat>, quantity: nat, saleId: nat, date: int,
                            today: int): Result<LineState, ItemError>
    reads db, db.movements, Touched(lots, db)
  {
    LineLots(LineState(Snapshot(Touched(lots, db)), db.itemLots, db.movements.rows),
             pk.None?, PreviousQuantity(db.items, pk), quantity,
             if pk.None? then db.nextId else pk.value, saleId, date, lots, today)
  }

  /** What a line's delete does to the lots, from the current tables. */
  ghost function DeleteEffect(db: Db, lots: seq<Lot>, itemId: nat, saleId: nat, date: int): Result<LineState, ItemError>
    reads db, db.movements, Touched(lots, db)
  {
    Reversed(LineState(Snapshot(Touched(lots, db)), db.itemLots, db.movements.rows), itemId, saleId, date)
  }

  /**
   * The end of a line's atomic save or delete: after the lot handling passed, the sale's
   * totals are recomputed; if anything failed, the tables and the lots are rolled back.
   */
  method CloseSave(sale: Sale, db: Db, lines: Outcome<ItemError>, tables0: Tables, saved: Stock)
    returns (r: Outcome<ItemError>)
    requires sale.pk.Some?
    modifies sale, db, db.movements, saved.Keys
    ensures sale.pk == old(sale.pk)
    ensures lines.Fail? ==> r == lines
    ensures lines.Pass? ==> (r.Pass? <==> FindSale(old(db.sales), sale.pk.value).Some?)
    ensures r.Fail? ==> TablesOf(db) == tables0 && Matches(saved)
    ensures r.Pass? ==>
              TablesOf(db) == old(TablesOf(db)).(sales := db.sales, customers := db.customers) &&
              sale.Data() == Recomputed(old(sale.Data()), Some(ItemsTotal(db.items, sale.pk.value))) &&
              db.sales == WriteSale(old(db.sales), sale.pk.value, sale.Data(), TotalsFields) &&
              FindSale(old(db.sales), sale.pk.value).Some? &&
              db.customers == CreditsAfterSave(old(db.customers), db.sales,
                                FindSale(old(db.sales), sale.pk.value).value.data.customer, sale.customer) &&
              unchanged(saved.Keys)
  {
    r := lines;
    if r.Pass? {
      var u := sale.UpdateTotalsFromItems(db);
      if u.Fail? {
        r := Fail(DbFailure(u.error));
      }
    }
    if r.Fail? {
      Restore(db, tables0, saved);
    }
  }

  /** The id a line has after super().save(): the next id for a new line, its own otherwise. */
  function IdAfterWrite(pk: Option<nat>, nextId: nat): nat
  {
    if pk.None? then nextId else pk.value
  }

  /** The item table after super().save(): a new line's row appended, a saved one's written in place. */
  function ItemsAfterWrite(items: seq<ItemRow>, isNew: bool, row: ItemRow): seq<ItemRow>
  {
    if isNew then items + [row] else WriteItem(items, row)
  }

  class SaleItem {
    var pk: Option<nat>
    const sale: Sale
    const product: Product
    var quantity: nat
    /** 0 stands for an empty unit price, which save replaces by the product's price. */
    var unitPrice: nat
    var lineTotal: nat

    constructor (sale: Sale, product: Product, quantity: nat, unitPrice: nat)
      ensures pk.None? && this.sale == sale && this.product == product
      ensures this.quantity == quantity && this.unitPrice == unitPrice && lineTotal == 0
    {
      pk := None;
      this.sale := sale;
      this.product := product;
      this.quantity := quantity;
      this.unitPrice := unitPrice;
      lineTotal := 0;
    }

    /** The item row this instance writes. */
    function Row(id: nat, saleId: nat): ItemRow
      reads this
    {
      ItemRow(id, saleId, product.id, quantity, unitPrice, lineTotal)
    }

    /**
     * _get_lots_for_sale: walks the eligible lots in FEFO order taking min(remaining,
     * still needed) from each until the need is met; a leftover need is the shortfall.
     */
    method GetLotsForSale(need: nat, today: int) returns (r: Result<seq<Draw>, Shortfall>)
      ensures r == Allocation(product.lots, StockOf(product.lots), need, today)
    {
      var s := StockOf(product.lots);
      var available := Candidates(product.lots, s, today);
      assert Covers(s, available) by {
        CandidatesMeaning(product.lots, s, today);
      }
      var lotsToUse, remaining := WalkLots(available, need, RemsOf(available, s));
      if remaining > 0 {
        return Failure(Shortfall(need, need - remaining));
      }
      return Success(lotsToUse);
    }

    /**
     * _create_sale_item_lots: for each pair, a SaleItemLot row, the lot's adjustment and
     * the OUT movement, stopping at the first error. The result is CommitAll's.
     */
    method CreateSaleItemLots(db: Db, ds: seq<Draw>, ghost s: Stock) returns (r: Outcome<ItemError>)
      requires pk.Some? && sale.pk.Some?
      requires DrawsCovered(s, ds) && Matches(s)
      modifies db`itemLots, db.movements, s.Keys
      ensures r.Pass? <==> CommitAll(s, ds).Success?
      ensures r.Pass? ==>
                db.itemLots == old(db.itemLots) + CommitRows(pk.value, ds) &&
                db.movements.rows == old(db.movements.rows) + CommitMoves(ds, sale.pk.value, pk.value, sale.saleDate) &&
                Matches(CommitAll(s, ds).value)
      ensures r.Fail? ==> r.error == LotFailure(CommitAll(s, ds).error)
    {
      r := CommitDraws(db, ds, pk.value, sale.pk.value, sale.saleDate, s);
    }

    /** _remove_sale_item_lots: the result is Reversed's. */
    method RemoveSaleItemLots(db: Db, ghost s: Stock) returns (r: Outcome<ItemError>)
      requires pk.Some? && sale.pk.Some?
      requires Matches(s) && Tracked(LineState(s, db.itemLots, db.movements.rows))
      modifies db`itemLots, db.movements, s.Keys
      ensures var e := Reversed(LineState(s, old(db.itemLots), old(db.movements.rows)), pk.value, sale.pk.value, sale.saleDate);
              (r.Pass? <==> e.Success?) &&
              (r.Pass? ==> db.itemLots == e.value.itemLots && db.movements.rows == e.value.moves && Matches(e.value.stock)) &&
              (r.Fail? ==> r.error == e.error)
    {
      var rows := ItemLotsOf(db.itemLots, pk.value);
      assert RowsCovered(s, rows) by {
        forall i | 0 <= i < |rows| ensures rows[i].lot in s {
          assert rows[i] in rows;
        }
      }
      r := RevertRows(db, rows, pk.value, sale.pk.value, sale.saleDate, s);
      if r.Pass? {
        db.itemLots := WithoutItemLots(db.itemLots, pk.value);
      }
    }

    /** `if self.quantity > 0`: allocate from the current stock and commit; the result is Allocated's. */
    method Allocate(db: Db, today: int, ghost st: LineState) returns (r: Outcome<ItemError>)
      requires pk.Some? && sale.pk.Some?
      requires Matches(st.stock) && Covers(st.stock, product.lots)
      requires db.itemLots == st.itemLots && db.movements.rows == st.moves
      modifies db`itemLots, db.movements, st.stock.Keys
      ensures var e := Allocated(st, quantity, pk.value, sale.pk.value, sale.saleDate, product.lots, today);
              (r.Pass? <==> e.Success?) &&
              (r.Pass? ==> db.itemLots == e.value.itemLots && db.movements.rows == e.value.moves && Matches(e.value.stock)) &&
              (r.Fail? ==> r.error == e.error)
    {
      if quantity == 0 {
        return Pass;
      }
      var a := GetLotsForSale(quantity, today);
      AllocationAgree(product.lots, StockOf(product.lots), st.stock, quantity, today);
      match a
      case Failure(sh) =>
        r := Fail(OutOfStock(sh));
      case Success(ds) =>
        r := CreateSaleItemLots(db, ds, st.stock);
    }

    /** The lot handling of save, after the row is written; the result is LineLots'. */
    method SyncLots(db: Db, isNew: bool, previous: nat, today: int, ghost s: Stock) returns (r: Outcome<ItemError>)
      requires pk.Some? && sale.pk.Some?
      requires Matches(s) && Covers(s, product.lots) && Tracked(LineState(s, db.itemLots, db.movements.rows))
      modifies db`itemLots, db.movements, s.Keys
      ensures var e := LineLots(LineState(s, old(db.itemLots), old(db.movements.rows)), isNew, previous, quantity,
                                pk.value, sale.pk.value, sale.saleDate, product.lots, today);
              (r.Pass? <==> e.Success?) &&
              (r.Pass? ==> db.itemLots == e.value.itemLots && db.movements.rows == e.value.moves && Matches(e.value.stock)) &&
              (r.Fail? ==> r.error == e.error)
    {
      ghost var st := LineState(s, db.itemLots, db.movements.rows);
      if isNew {
        r := Allocate(db, today, st);
      } else if quantity != previous {
        r := RemoveSaleItemLots(db, s);
        if r.Fail? {
          return;
        }
        ghost var st1 := Reversed(st, pk.value, sale.pk.value, sale.saleDate).value;
        r := Allocate(db, today, st1);
      } else {
        r := Pass;
      }
    }
  
    /** The checks save passes before writing: the previous row exists, the sale is saved, the product is not already on the sale. */
    predicate Admissible(db: Db)
      reads this, sale, db
    {
      (pk.None? || FindItem(db.items, pk.value).Some?) && sale.pk.Some? &&
      !ClashesWith(db.items, pk, sale.pk.value, product.id)
    }

    /** super().save(): insert the row with the next id, or update it in place. */
    method WriteRow(db: Db, saleId: nat)
      modifies this`pk, db`items, db`nextId
      ensures pk == Some(IdAfterWrite(old(pk), old(db.nextId)))
      ensures db.items == ItemsAfterWrite(old(db.items), old(pk).None?, Row(pk.value, saleId))
      ensures db.nextId == old(db.nextId) + (if old(pk).None? then 1 else 0)
    {
      if pk.None? {
        pk := Some(db.nextId);
        db.items := db.items + [Row(db.nextId, saleId)];
        db.nextId := db.nextId + 1;
      } else {
        db.items := WriteItem(db.items, Row(pk.value, saleId));
      }
    }

    /** super().save() followed by the lot handling: the row is written, then the lots follow LineLots. */
    method WriteAndSync(db: Db, isNew: bool, previous: nat, today: int, saved: Stock) returns (r: Outcome<ItemError>)
      requires sale.pk.Some? && isNew == pk.None?
      requires Matches(saved) && Covers(saved, product.lots) && Tracked(LineState(saved, db.itemLots, db.movements.rows))
      modifies this`pk, db`items, db`nextId, db`itemLots, db.movements, saved.Keys
      ensures pk == Some(IdAfterWrite(old(pk), old(db.nextId)))
      ensures db.items == ItemsAfterWrite(old(db.items), old(pk).None?, Row(pk.value, sale.pk.value))
      ensures db.nextId == old(db.nextId) + (if old(pk).None? then 1 else 0)
      ensures var e := LineLots(LineState(saved, old(db.itemLots), old(db.movements.rows)), isNew, previous, quantity,
                                pk.value, sale.pk.value, sale.saleDate, product.lots, today);
              (r.Pass? <==> e.Success?) &&
              (r.Pass? ==> db.itemLots == e.value.itemLots && db.movements.rows == e.value.moves && Matches(e.value.stock)) &&
              (r.Fail? ==> r.error == e.error)
    {
      WriteRow(db, sale.pk.value);
      r := SyncLots(db, isNew, previous, today, saved);
    }

    /**
     * The part of save inside the transaction, once its checks have passed: the row and
     * the lots, then the sale's totals; any error restores the tables and the snapshot.
     */
    method SaveAdmitted(db: Db, isNew: bool, previous: nat, today: int, saved: Stock) returns (r: Outcome<ItemError>)
      requires sale.pk.Some? && isNew == pk.None?
      requires Matches(saved) && Covers(saved, product.lots) && Tracked(LineState(saved, db.itemLots, db.movements.rows))
      modifies this`pk, sale, db, db.movements, saved.Keys
      ensures sale.pk == old(sale.pk)
      ensures var e := LineLots(LineState(saved, old(db.itemLots), old(db.movements.rows)), isNew, previous, quantity,
                                if isNew then old(db.nextId) else old(pk).value, old(sale.pk).value, old(sale.saleDate),
                                product.lots, today);
              (r.Pass? <==> e.Success? && FindSale(old(db.sales), old(sale.pk).value).Some?) &&
              (e.Failure? ==> r == Fail(e.error)) &&
              (r.Pass? ==> db.itemLots == e.value.itemLots && db.movements.rows == e.value.moves && Matches(e.value.stock))
      ensures r.Fail? ==> TablesOf(db) == old(TablesOf(db)) && Matches(saved)
      ensures r.Pass? ==>
                var saleId := sale.pk.value;
                pk == Some(IdAfterWrite(old(pk), old(db.nextId))) &&
                db.items == ItemsAfterWrite(old(db.items), old(pk).None?, Row(pk.value, saleId)) &&
                db.nextId == old(db.nextId) + (if old(pk).None? then 1 else 0) &&
                sale.Data() == Recomputed(old(sale.Data()), Some(ItemsTotal(db.items, saleId))) &&
                db.sales == WriteSale(old(db.sales), saleId, sale.Data(), TotalsFields) &&
                FindSale(old(db.sales), saleId).Some? &&
                db.customers == CreditsAfterSave(old(db.customers), db.sales,
                                  FindSale(old(db.sales), saleId).value.data.customer, sale.customer) &&
                db.payments == old(db.payments)
    {
      var tables0 := TablesOf(db);
      var lines := WriteAndSync(db, isNew, previous, today, saved);
      r := CloseSave(sale, db, lines, tables0, saved);
    }
    /**
     * save, atomically. The unit price defaults to the product's; the line total is
     * price × quantity; the row is inserted or updated; the lots follow LineLots; the
     * sale's totals are recomputed. Any error rolls every table and lot back, while the
     * instance keeps its in-memory changes (a new line keeps the id it was given).
     */
    method Save(db: Db, today: int) returns (r: Outcome<ItemError>)
      modifies this, sale, db, db.movements, Touched(product.lots, db)
      ensures unitPrice == (if old(unitPrice) == 0 then SalePrice(product) else old(unitPrice))
      ensures quantity == old(quantity) && sale.pk == old(sale.pk)
      ensures old(pk).Some? && FindItem(old(db.items), old(pk).value).None? ==> r == Fail(DbFailure(DoesNotExist))
      ensures old(pk.None? || FindItem(db.items, pk.value).Some?) && old(sale.pk).None? ==>
                r == Fail(DbFailure(Unsaved))
      ensures (old(pk.None? || FindItem(db.items, pk.value).Some?) && old(sale.pk).Some? &&
               old(ClashesWith(db.items, pk, sale.pk.value, product.id))) ==>
                r == Fail(DbFailure(IntegrityError))
      ensures !old(Admissible(db)) ==> pk == old(pk) && unchanged(db, db.movements)
      ensures old(Admissible(db)) ==>
                lineTotal == unitPrice * quantity &&
                (r.Pass? <==> old(SaveEffect(db, product.lots, pk, quantity, sale.pk.value, sale.saleDate, today)).Success? && FindSale(old(db.sales), old(sale.pk).value).Some?) &&
                (old(SaveEffect(db, product.lots, pk, quantity, sale.pk.value, sale.saleDate, today)).Failure? ==> r == Fail(old(SaveEffect(db, product.lots, pk, quantity, sale.pk.value, sale.saleDate, today)).error))
      ensures r.Fail? ==> TablesOf(db) == old(TablesOf(db)) && Matches(old(Snapshot(Touched(product.lots, db))))
      ensures r.Pass? ==> old(Admissible(db)) && old(SaveEffect(db, product.lots, pk, quantity, sale.pk.value, sale.saleDate, today)).Success?
      ensures r.Pass? ==>
                var e := old(SaveEffect(db, product.lots, pk, quantity, sale.pk.value, sale.saleDate, today)).value;
                var saleId := sale.pk.value;
                pk == Some(IdAfterWrite(old(pk), old(db.nextId))) &&
                db.items == ItemsAfterWrite(old(db.items), old(pk).None?, Row(pk.value, saleId)) &&
                db.nextId == old(db.nextId) + (if old(pk).None? then 1 else 0) &&
                db.itemLots == e.itemLots && db.movements.rows == e.moves && Matches(e.stock) &&
                sale.Data() == Recomputed(old(sale.Data()), Some(ItemsTotal(db.items, saleId))) &&
                db.sales == WriteSale(old(db.sales), saleId, sale.Data(), TotalsFields) &&
                FindSale(old(db.sales), saleId).Some? &&
                db.customers == CreditsAfterSave(old(db.customers), db.sales,
                                  FindSale(old(db.sales), saleId).value.data.customer, sale.customer) &&
                db.payments == old(db.payments)
    {
      var isNew := pk.None?;
      var previous: nat := 0;
      if unitPrice == 0 {
        unitPrice := SalePrice(product);
      }
      if !isNew {
        var row := FindItem(db.items, pk.value);
        if row.None? {
          return Fail(DbFailure(DoesNotExist));
        }
        previous := row.value.quantity;
      }
      lineTotal := unitPrice * quantity;
      if sale.pk.None? {
        return Fail(DbFailure(Unsaved));
      }
      if ClashesWith(db.items, pk, sale.pk.value, product.id) {
        return Fail(DbFailure(IntegrityError));
      }
      var saved := Snapshot(Touched(product.lots, db));
      assert saved == old(Snapshot(Touched(product.lots, db)));
      assert SaveEffect(db, product.lots, pk, quantity, sale.pk.value, sale.saleDate, today) ==
             old(SaveEffect(db, product.lots, pk, quantity, sale.pk.value, sale.saleDate, today));
      assert TablesOf(db) == old(TablesOf(db));
      assert sale.Data() == old(sale.Data());
      ghost var effect := LineLots(LineState(saved, db.itemLots, db.movements.rows), isNew, previous, quantity,
                                   if isNew then db.nextId else pk.value, sale.pk.value, sale.saleDate,
                                   product.lots, today);
      assert previous == PreviousQuantity(db.items, pk);
      assert effect == old(SaveEffect(db, product.lots, pk, quantity, sale.pk.value, sale.saleDate, today));
      ghost var sales0 := db.sales;
      r := SaveAdmitted(db, isNew, previous, today, saved);
      assert r.Pass? <==> effect.Success? && FindSale(sales0, sale.pk.value).Some?;
      assert effect.Failure? ==> r == Fail(effect.error);
    }

    /** The part of delete inside the transaction: the lots, the row, then the sale's totals. */
    method DeleteAdmitted(db: Db, saved: Stock) returns (r: Outcome<ItemError>)
      requires pk.Some? && sale.pk.Some?
      requires Matches(saved) && Tracked(LineState(saved, db.itemLots, db.movements.rows))
      modifies this`pk, sale, db, db.movements, saved.Keys
      ensures sale.pk == old(sale.pk)
      ensures var e := Reversed(LineState(saved, old(db.itemLots), old(db.movements.rows)), old(pk).value,
                                old(sale.pk).value, old(sale.saleDate));
              (r.Pass? <==> e.Success? && FindSale(old(db.sales), old(sale.pk).value).Some?) &&
              (e.Failure? ==> r == Fail(e.error)) &&
              (r.Pass? ==> db.itemLots == e.value.itemLots && db.movements.rows == e.value.moves && Matches(e.value.stock))
      ensures r.Fail? ==> TablesOf(db) == old(TablesOf(db)) && Matches(saved)
      ensures r.Pass? ==>
                var saleId := sale.pk.value;
                pk.None? && db.items == RemoveItem(old(db.items), old(pk).value) && db.nextId == old(db.nextId) &&
                sale.Data() == Recomputed(old(sale.Data()), Some(ItemsTotal(db.items, saleId))) &&
                db.sales == WriteSale(old(db.sales), saleId, sale.Data(), TotalsFields) &&
                FindSale(old(db.sales), saleId).Some? &&
                db.customers == CreditsAfterSave(old(db.customers), db.sales,
                                  FindSale(old(db.sales), saleId).value.data.customer, sale.customer) &&
                db.payments == old(db.payments)
    {
      var tables0 := TablesOf(db);
      var lines := RemoveLine(db, saved);
      r := CloseSave(sale, db, lines, tables0, saved);
    }

    /** The lots restored through _remove_sale_item_lots and, if that passed, the row deleted. */
    method RemoveLine(db: Db, saved: Stock) returns (r: Outcome<ItemError>)
      requires pk.Some? && sale.pk.Some?
      requires Matches(saved) && Tracked(LineState(saved, db.itemLots, db.movements.rows))
      modifies this`pk, db`items, db`itemLots, db.movements, saved.Keys
      ensures var e := Reversed(LineState(saved, old(db.itemLots), old(db.movements.rows)), old(pk).value,
                                sale.pk.value, sale.saleDate);
              (r.Pass? <==> e.Success?) &&
              (r.Fail? ==> r.error == e.error && pk == old(pk) && db.items == old(db.items)) &&
              (r.Pass? ==> db.itemLots == e.value.itemLots && db.movements.rows == e.value.moves &&
                           Matches(e.value.stock) && pk.None? && db.items == RemoveItem(old(db.items), old(pk).value))
    {
      r := RemoveSaleItemLots(db, saved);
      if r.Pass? {
        db.items := RemoveItem(db.items, pk.value);
        pk := None;
      }
    }

    /**
     * delete, atomically: the lots are restored (with IN movements), the row is deleted
     * and the sale's totals are recomputed. Any error rolls every table and lot back.
     * An unsaved line, or one whose sale is unsaved, is refused before anything is written.
     */
    method Delete(db: Db) returns (r: Outcome<ItemError>)
      modifies this`pk, sale, db, db.movements, Touched(product.lots, db)
      ensures old(pk).None? || old(sale.pk).None? ==>
                r == Fail(DbFailure(Unsaved)) && unchanged(this, sale, db, db.movements)
      ensures sale.pk == old(sale.pk)
      ensures (old(pk).Some? && old(sale.pk).Some?) ==>
                var e := old(DeleteEffect(db, product.lots, pk.value, sale.pk.value, sale.saleDate));
                (r.Pass? <==> e.Success? && FindSale(old(db.sales), old(sale.pk).value).Some?) &&
                (e.Failure? ==> r == Fail(e.error))
      ensures r.Fail? ==> TablesOf(db) == old(TablesOf(db)) && Matches(old(Snapshot(Touched(product.lots, db))))
      ensures r.Pass? ==>
                var e := old(DeleteEffect(db, product.lots, pk.value, sale.pk.value, sale.saleDate)).value;
                var saleId := sale.pk.value;
                pk.None? && db.items == RemoveItem(old(db.items), old(pk).value) && db.nextId == old(db.nextId) &&
                db.itemLots == e.itemLots && db.movements.rows == e.moves && Matches(e.stock) &&
                sale.Data() == Recomputed(old(sale.Data()), Some(ItemsTotal(db.items, saleId))) &&
                db.sales == WriteSale(old(db.sales), saleId, sale.Data(), TotalsFields) &&
                FindSale(old(db.sales), saleId).Some? &&
                db.customers == CreditsAfterSave(old(db.customers), db.sales,
                                  FindSale(old(db.sales), saleId).value.data.customer, sale.customer) &&
                db.payments == old(db.payments)
    {
      if pk.None? || sale.pk.None? {
        return Fail(DbFailure(Unsaved));
      }
      var saved := Snapshot(Touched(product.lots, db));
      ghost var effect := Reversed(LineState(saved, db.itemLots, db.movements.rows), pk.value, sale.pk.value, sale.saleDate);
      assert effect == old(DeleteEffect(db, product.lots, pk.value, sale.pk.value, sale.saleDate));
      r := DeleteAdmitted(db, saved);
    }
  }
}
