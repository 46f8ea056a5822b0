/**
 * The FEFO (first expired, first out) allocation of SaleItem._get_lots_for_sale
 * (sales/models/sale_item.py): candidate lots are the product's active, unexpired lots
 * holding stock, ordered by (expiration_date, created_at); each draws
 * min(remaining, still needed) until the need is met, and a shortfall fails outright.
 */
module Fefo {
  import opened Wrappers
  import opened Lots
  import opened Stock

  /** One (lot, quantity taken) pair. */
  datatype Draw = Draw(lot: Lot, quantity: nat)

  /** The ValueError raised on a shortfall, with the two quantities it reports. */
  datatype Shortfall = Shortfall(requested: nat, available: nat)

  /** The order_by('expiration_date', 'created_at') comparison, non-strict. */
  predicate FefoBefore(a: Lot, b: Lot)
  {
    a.expirationDate < b.expirationDate ||
    (a.expirationDate == b.expirationDate && a.createdAt <= b.createdAt)
  }

  predicate FefoSorted(ls: seq<Lot>)
  {
    forall i, j :: 0 <= i < j < |ls| ==> FefoBefore(ls[i], ls[j])
  }

  /** Inserts l before the first lot it does not come after. */
  function Insert(l: Lot, sorted: seq<Lot>): seq<Lot>
    decreases |sorted|
  {
    if sorted == [] || FefoBefore(l, sorted[0]) then [l] + sorted
    else [sorted[0]] + Insert(l, sorted[1..])
  }

  /** A stable insertion sort on the FEFO key; ties keep the original order. */
  function SortFefo(ls: seq<Lot>): seq<Lot>
    decreases |ls|
  {
    if ls == [] then [] else Insert(ls[0], SortFefo(ls[1..]))
  }

  lemma {:induction false} InsertElements(l: Lot, sorted: seq<Lot>)
    ensures forall x :: x in Insert(l, sorted) ==> x == l || x in sorted
    decreases |sorted|
  {
    if !(sorted == [] || FefoBefore(l, sorted[0])) {
      InsertElements(l, sorted[1..]);
    }
  }

  lemma {:induction false} InsertSorted(l: Lot, sorted: seq<Lot>)
    requires FefoSorted(sorted)
    ensures FefoSorted(Insert(l, sorted))
    decreases |sorted|
  {
    if sorted == [] || FefoBefore(l, sorted[0]) {
      var r := [l] + sorted;
      forall i, j | 0 <= i < j < |r| ensures FefoBefore(r[i], r[j]) {
        if i == 0 && j > 1 {
          assert FefoBefore(sorted[0], sorted[j - 1]);
        }
      }
    } else {
      var rest := Insert(l, sorted[1..]);
      InsertSorted(l, sorted[1..]);
      InsertElements(l, sorted[1..]);
      var r := [sorted[0]] + rest;
      forall x | x in rest ensures FefoBefore(sorted[0], x) {
        if x != l {
          var k :| 0 <= k < |sorted[1..]| && sorted[1..][k] == x;
          assert sorted[k + 1] == x;
        }
      }
      forall i, j | 0 <= i < j < |r| ensures FefoBefore(r[i], r[j]) {
        if i > 0 {
          assert r[i] == rest[i - 1] && r[j] == rest[j - 1];
        } else {
          assert r[j] in rest;
        }
      }
    }
  }

  /** The candidate order is sorted by the FEFO key and is a permutation of its input. */
  lemma {:induction false} SortFefoCorrect(ls: seq<Lot>)
    ensures FefoSorted(SortFefo(ls))
    ensures multiset(SortFefo(ls)) == multiset(ls)
    decreases |ls|
  {
    if ls != [] {
      SortFefoCorrect(ls[1..]);
      InsertSorted(ls[0], SortFefo(ls[1..]));
      InsertCount(ls[0], SortFefo(ls[1..]));
      assert ls == [ls[0]] + ls[1..];
    }
  }

  /** The queryset filter: active, unexpired, and holding stock in s. */
  function Eligible(lots: seq<Lot>, s: Stock, today: int): (r: seq<Lot>)
    requires Covers(s, lots)
    ensures Covers(s, r)
    ensures forall l :: l in r ==> l in lots && InDate(l, today) && s[l] > 0
    ensures forall l :: l in lots && InDate(l, today) && s[l] > 0 ==> l in r
    decreases |lots|
  {
    if lots == [] then []
    else (if InDate(lots[0], today) && s[lots[0]] > 0 then [lots[0]] else [])
         + Eligible(lots[1..], s, today)
  }

  /** The candidate lots of _get_lots_for_sale, in the order they are drawn from. */
  function Candidates(lots: seq<Lot>, s: Stock, today: int): seq<Lot>
    requires Covers(s, lots)
  {
    SortFefo(Eligible(lots, s, today))
  }

  /**
   * The candidates are exactly the active, unexpired lots holding stock, in FEFO order,
   * each as often as in the product's lots.
   */
  lemma CandidatesMeaning(lots: seq<Lot>, s: Stock, today: int)
    requires Covers(s, lots)
    ensures Covers(s, Candidates(lots, s, today))
    ensures forall l :: l in Candidates(lots, s, today) <==> l in lots && InDate(l, today) && s[l] > 0
    ensures FefoSorted(Candidates(lots, s, today))
    ensures multiset(Candidates(lots, s, today)) == multiset(Eligible(lots, s, today))
  {
    SortFefoCorrect(Eligible(lots, s, today));
    forall l | l in Candidates(lots, s, today)
      ensures l in Eligible(lots, s, today)
    {
      assert l in multiset(Candidates(lots, s, today));
    }
    forall l | l in Eligible(lots, s, today)
      ensures l in Candidates(lots, s, today)
    {
      assert l in multiset(Eligible(lots, s, today));
    }
  }

  /**
   * What is_expired and is_exhausted mean to a sale: a lot that is expired today or
   * has nothing left is never a candidate to draw from, and its stock (if any) is no
   * part of total_stock.
   */
  lemma ExpiredOrExhaustedNeverDrawn(lots: seq<Lot>, today: int, l: Lot)
    requires l in lots && (l.IsExpired(today) || l.IsExhausted())
    ensures l !in Candidates(lots, StockOf(lots), today)
    ensures SellableStock(lots, StockOf(lots)[l := 0], today) == SellableStock(lots, StockOf(lots), today)
  {
    CandidatesMeaning(lots, StockOf(lots), today);
    SellableStockIgnores(lots, StockOf(lots), today, l);
  }

  /** The remaining quantity of each lot in the list. */
  function RemsOf(ls: seq<Lot>, s: Stock): (r: seq<nat>)
    requires Covers(s, ls)
    ensures |r| == |ls| && forall i :: 0 <= i < |ls| ==> r[i] == s[ls[i]]
    decreases |ls|
  {
    if ls == [] then [] else [s[ls[0]]] + RemsOf(ls[1..], s)
  }

  function Sum(xs: seq<nat>): nat
    decreases |xs|
  {
    if xs == [] then 0 else xs[0] + Sum(xs[1..])
  }

  function Min(a: nat, b: nat): nat { if a <= b then a else b }

  /** The quantities the walk takes from lots holding rems, for a need of `need`. */
  function DrawsOf(rems: seq<nat>, need: nat): seq<nat>
    decreases |rems|
  {
    if rems == [] || need == 0 then []
    else [Min(rems[0], need)] + DrawsOf(rems[1..], need - Min(rems[0], need))
  }

  /**
   * The walk takes min(need, all stock): every draw is positive and at most its lot's
   * quantity, every draw but the last empties its lot, and it stops once the need is met.
   */
  lemma {:induction false} DrawsOfMeaning(rems: seq<nat>, need: nat)
    requires forall i :: 0 <= i < |rems| ==> rems[i] > 0
    ensures |DrawsOf(rems, need)| <= |rems|
    ensures Sum(DrawsOf(rems, need)) == Min(need, Sum(rems))
    ensures forall i :: 0 <= i < |DrawsOf(rems, need)| ==> 0 < DrawsOf(rems, need)[i] <= rems[i]
    ensures forall i :: 0 <= i < |DrawsOf(rems, need)| - 1 ==> DrawsOf(rems, need)[i] == rems[i]
    ensures need > 0 && rems != [] ==> |DrawsOf(rems, need)| >= 1
    ensures Sum(DrawsOf(rems, need)) == need ==>
              forall k :: 0 <= k < |DrawsOf(rems, need)| ==> Sum(DrawsOf(rems, need)[..k]) < need
    decreases |rems|
  {
    if rems != [] && need != 0 {
      var m := Min(rems[0], need);
      var rest := DrawsOf(rems[1..], need - m);
      DrawsOfMeaning(rems[1..], need - m);
      var d := [m] + rest;
      assert DrawsOf(rems, need) == d;
      assert d[1..] == rest;
      if Sum(d) == need {
        forall k | 0 <= k < |d| ensures Sum(d[..k]) < need {
          if k > 0 {
            assert d[..k][1..] == rest[..k - 1];
          }
        }
      }
    }
  }

  /** The pairs the walk yields: the first |draws| candidates with their draws. */
  function Pair(ls: seq<Lot>, qs: seq<nat>): (r: seq<Draw>)
    requires |qs| <= |ls|
    ensures |r| == |qs| && forall i :: 0 <= i < |qs| ==> r[i] == Draw(ls[i], qs[i])
    decreases |qs|
  {
    if qs == [] then [] else [Draw(ls[0], qs[0])] + Pair(ls[1..], qs[1..])
  }

  function DrawnTotal(ds: seq<Draw>): nat
    decreases |ds|
  {
    if ds == [] then 0 else ds[0].quantity + DrawnTotal(ds[1..])
  }

  /**
   * _get_lots_for_sale for a need of `need` against stock s: the FEFO pairs, or the
   * shortfall with requested = need and available = need − leftover.
   */
  function Allocation(lots: seq<Lot>, s: Stock, need: nat, today: int): (r: Result<seq<Draw>, Shortfall>)
    requires Covers(s, lots)
    ensures r.Success? ==> forall i :: 0 <= i < |r.value| ==> r.value[i].lot in lots
  {
    var c := Candidates(lots, s, today);
    CandidatesMeaning(lots, s, today);
    var rems := RemsOf(c, s);
    var d := DrawsOf(rems, need);
    DrawsOfMeaning(rems, need);
    if Sum(d) < need then Failure(Shortfall(need, Sum(d)))
    else Success(Pair(c, d))
  }

  lemma {:induction false} SumInsert(l: Lot, sorted: seq<Lot>, s: Stock)
    requires Covers(s, sorted) && l in s
    ensures Covers(s, Insert(l, sorted))
    ensures Sum(RemsOf(Insert(l, sorted), s)) == s[l] + Sum(RemsOf(sorted, s))
    decreases |sorted|
  {
    assert multiset(Insert(l, sorted)) == multiset(sorted) + multiset{l} by {
      InsertCount(l, sorted);
    }
    assert Covers(s, Insert(l, sorted)) by {
      forall m | m in Insert(l, sorted) ensures m in s {
        assert m in multiset(Insert(l, sorted));
      }
    }
    if sorted == [] || FefoBefore(l, sorted[0]) {
      assert ([l] + sorted)[1..] == sorted;
    } else {
      SumInsert(l, sorted[1..], s);
      assert ([sorted[0]] + Insert(l, sorted[1..]))[1..] == Insert(l, sorted[1..]);
    }
  }

  lemma {:induction false} InsertCount(l: Lot, sorted: seq<Lot>)
    ensures multiset(Insert(l, sorted)) == multiset(sorted) + multiset{l}
    decreases |sorted|
  {
    if !(sorted == [] || FefoBefore(l, sorted[0])) {
      InsertCount(l, sorted[1..]);
      assert sorted == [sorted[0]] + sorted[1..];
    }
  }

  lemma {:induction false} SumSortFefo(ls: seq<Lot>, s: Stock)
    requires Covers(s, ls)
    ensures Covers(s, SortFefo(ls))
    ensures Sum(RemsOf(SortFefo(ls), s)) == Sum(RemsOf(ls, s))
    decreases |ls|
  {
    if ls != [] {
      SumSortFefo(ls[1..], s);
      SumInsert(ls[0], SortFefo(ls[1..]), s);
    }
  }

  lemma {:induction false} SumEligible(lots: seq<Lot>, s: Stock, today: int)
    requires Covers(s, lots)
    ensures Sum(RemsOf(Eligible(lots, s, today), s)) == SellableStock(lots, s, today)
    decreases |lots|
  {
    if lots != [] {
      SumEligible(lots[1..], s, today);
      var head := if InDate(lots[0], today) && s[lots[0]] > 0 then [lots[0]] else [];
      var rest := Eligible(lots[1..], s, today);
      assert Eligible(lots, s, today) == head + rest;
      SumRemsAppend(head, rest, s);
    }
  }

  lemma SumRemsAppend(a: seq<Lot>, b: seq<Lot>, s: Stock)
    requires Covers(s, a) && Covers(s, b)
    ensures Covers(s, a + b)
    ensures Sum(RemsOf(a + b, s)) == Sum(RemsOf(a, s)) + Sum(RemsOf(b, s))
  {
    assert Covers(s, a + b) by {
      forall l | l in a + b ensures l in s { assert l in a || l in b; }
    }
    var ra, rb := RemsOf(a, s), RemsOf(b, s);
    var rab := RemsOf(a + b, s);
    assert rab == ra + rb by {
      forall i | 0 <= i < |rab| ensures rab[i] == (ra + rb)[i] {
        if i < |a| { assert (a + b)[i] == a[i]; } else { assert (a + b)[i] == b[i - |a|]; }
      }
    }
    SumConcat(ra, rb);
  }

  lemma {:induction false} SumConcat(xs: seq<nat>, ys: seq<nat>)
    ensures Sum(xs + ys) == Sum(xs) + Sum(ys)
    decreases |xs|
  {
    if xs != [] {
      assert (xs + ys)[1..] == xs[1..] + ys;
      SumConcat(xs[1..], ys);
    } else {
      assert xs + ys == ys;
    }
  }

  /** The candidates together hold exactly the product's sellable stock (total_stock). */
  lemma CandidatesHoldSellableStock(lots: seq<Lot>, s: Stock, today: int)
    requires Covers(s, lots)
    ensures Covers(s, Candidates(lots, s, today))
    ensures Sum(RemsOf(Candidates(lots, s, today), s)) == SellableStock(lots, s, today)
  {
    SumSortFefo(Eligible(lots, s, today), s);
    SumEligible(lots, s, today);
  }

  /**
   * The allocation fails exactly when the need exceeds total_stock, and then reports
   * all of that stock as available. On success the draws total the need, come from
   * distinct-position candidates in FEFO order, and each takes at most what its lot holds.
   */
  lemma AllocationMeaning(lots: seq<Lot>, s: Stock, need: nat, today: int)
    requires Covers(s, lots)
    ensures Covers(s, Candidates(lots, s, today))
    ensures Allocation(lots, s, need, today).Failure? <==> need > SellableStock(lots, s, today)
    ensures Allocation(lots, s, need, today).Failure? ==>
              Allocation(lots, s, need, today).error ==
                Shortfall(need, SellableStock(lots, s, today))
    ensures Allocation(lots, s, need, today).Success? ==>
              var ds := Allocation(lots, s, need, today).value;
              DrawnTotal(ds) == need && |ds| <= |Candidates(lots, s, today)| &&
              (forall i :: 0 <= i < |ds| ==>
                 ds[i].lot == Candidates(lots, s, today)[i] && 0 < ds[i].quantity <= s[ds[i].lot]) &&
              (forall i :: 0 <= i < |ds| - 1 ==> ds[i].quantity == s[ds[i].lot])
  {
    var c := Candidates(lots, s, today);
    CandidatesMeaning(lots, s, today);
    CandidatesHoldSellableStock(lots, s, today);
    var rems := RemsOf(c, s);
    var d := DrawsOf(rems, need);
    DrawsOfMeaning(rems, need);
    if Sum(d) >= need {
      DrawnTotalPair(c, d);
    }
  }

  lemma {:induction false} DrawnTotalPair(ls: seq<Lot>, qs: seq<nat>)
    requires |qs| <= |ls|
    ensures DrawnTotal(Pair(ls, qs)) == Sum(qs)
    decreases |qs|
  {
    if qs != [] {
      DrawnTotalPair(ls[1..], qs[1..]);
    }
  }

  /**
   * Two sellable lots of 5, expiring on different days, and a need of 7: the earlier-
   * expiring lot gives 5 and the other 2, whatever their creation ordinals and whatever
   * their order in the product's lots.
   */
  lemma TwoLotExample(l1: Lot, l2: Lot, s: Stock, today: int)
    requires l1 != l2 && InDate(l1, today) && InDate(l2, today)
    requires l1.expirationDate < l2.expirationDate
    requires l1 in s && l2 in s && s[l1] == 5 && s[l2] == 5
    ensures Allocation([l1, l2], s, 7, today) == Success([Draw(l1, 5), Draw(l2, 2)])
    ensures Allocation([l2, l1], s, 7, today) == Success([Draw(l1, 5), Draw(l2, 2)])
  {
    assert Eligible([l2], s, today) == [l2];
    assert Eligible([l1, l2], s, today) == [l1, l2];
    assert Eligible([l1], s, today) == [l1];
    assert Eligible([l2, l1], s, today) == [l2, l1];
    assert SortFefo([l2]) == [l2];
    assert SortFefo([l1]) == [l1];
    assert SortFefo([l1, l2]) == [l1, l2];
    assert Insert(l2, [l1]) == [l1] + Insert(l2, []);
    assert SortFefo([l2, l1]) == [l1, l2];
    assert RemsOf([l1, l2], s) == [5, 5];
    assert DrawsOf([5], 2) == [2];
    assert DrawsOf([5, 5], 7) == [5, 2];
    assert Candidates([l1, l2], s, today) == [l1, l2];
    assert Candidates([l2, l1], s, today) == [l1, l2];
    assert Sum([5, 2]) == 7;
    assert Pair([l1, l2], [5, 2]) == [Draw(l1, 5), Draw(l2, 2)];
  }

  predicate NoDuplicates(ls: seq<Lot>)
  {
    forall i, j :: 0 <= i < j < |ls| ==> ls[i] != ls[j]
  }

  lemma {:induction false} EligibleNoDuplicates(lots: seq<Lot>, s: Stock, today: int)
    requires Covers(s, lots) && NoDuplicates(lots)
    ensures NoDuplicates(Eligible(lots, s, today))
    decreases |lots|
  {
    if lots != [] {
      EligibleNoDuplicates(lots[1..], s, today);
      var rest := Eligible(lots[1..], s, today);
      if InDate(lots[0], today) && s[lots[0]] > 0 {
        assert lots[0] !in lots[1..];
        assert lots[0] !in rest;
        var r := [lots[0]] + rest;
        forall i, j | 0 <= i < j < |r| ensures r[i] != r[j] {
          if i > 0 {
            assert r[i] == rest[i - 1] && r[j] == rest[j - 1];
          } else {
            assert r[j] in rest;
          }
        }
      } else {
        assert Eligible(lots, s, today) == rest;
      }
    }
  }

  lemma {:induction false} InsertNoDuplicates(l: Lot, sorted: seq<Lot>)
    requires NoDuplicates(sorted) && l !in sorted
    ensures NoDuplicates(Insert(l, sorted))
    decreases |sorted|
  {
    if !(sorted == [] || FefoBefore(l, sorted[0])) {
      InsertNoDuplicates(l, sorted[1..]);
      InsertElements(l, sorted[1..]);
      var rest := Insert(l, sorted[1..]);
      assert sorted[0] !in sorted[1..];
      assert sorted[0] !in rest;
      var r := [sorted[0]] + rest;
      forall i, j | 0 <= i < j < |r| ensures r[i] != r[j] {
        if i > 0 {
          assert r[i] == rest[i - 1] && r[j] == rest[j - 1];
        } else {
          assert r[j] in rest;
        }
      }
    } else {
      var r := [l] + sorted;
      forall i, j | 0 <= i < j < |r| ensures r[i] != r[j] {
        if i > 0 {
          assert r[i] == sorted[i - 1] && r[j] == sorted[j - 1];
        } else {
          assert r[j] in sorted;
        }
      }
    }
  }

  lemma {:induction false} SortFefoNoDuplicates(ls: seq<Lot>)
    requires NoDuplicates(ls)
    ensures NoDuplicates(SortFefo(ls))
    decreases |ls|
  {
    if ls != [] {
      SortFefoNoDuplicates(ls[1..]);
      SortFefoCorrect(ls[1..]);
      assert ls[0] !in ls[1..];
      assert ls[0] !in multiset(ls[1..]);
      assert ls[0] !in SortFefo(ls[1..]);
      InsertNoDuplicates(ls[0], SortFefo(ls[1..]));
    }
  }

  /**
   * When the product lists each lot once, an allocation draws from each lot at most once,
   * so the unique_together (sale_item, lot) constraint of SaleItemLot is never violated.
   */
  lemma AllocationNoDuplicates(lots: seq<Lot>, s: Stock, need: nat, today: int)
    requires Covers(s, lots) && NoDuplicates(lots)
    ensures Allocation(lots, s, need, today).Success? ==>
              var ds := Allocation(lots, s, need, today).value;
              forall i, j :: 0 <= i < j < |ds| ==> ds[i].lot != ds[j].lot
  {
    EligibleNoDuplicates(lots, s, today);
    SortFefoNoDuplicates(Eligible(lots, s, today));
    AllocationMeaning(lots, s, need, today);
  }

  /** The allocation only looks at the stock of the product's own lots. */
  lemma {:induction false} EligibleAgree(lots: seq<Lot>, s: Stock, t: Stock, today: int)
    requires Covers(s, lots) && Covers(t, lots)
    requires forall l :: l in lots ==> s[l] == t[l]
    ensures Eligible(lots, s, today) == Eligible(lots, t, today)
    decreases |lots|
  {
    if lots != [] {
      EligibleAgree(lots[1..], s, t, today);
    }
  }

  lemma AllocationAgree(lots: seq<Lot>, s: Stock, t: Stock, need: nat, today: int)
    requires Covers(s, lots) && Covers(t, lots)
    requires forall l :: l in lots ==> s[l] == t[l]
    ensures Allocation(lots, s, need, today) == Allocation(lots, t, need, today)
  {
    EligibleAgree(lots, s, t, today);
    var c := Candidates(lots, s, today);
    assert c == Candidates(lots, t, today);
    assert RemsOf(c, s) == RemsOf(c, t) by {
      CandidatesMeaning(lots, s, today);
      CandidatesMeaning(lots, t, today);
      RemsAgree(c, s, t, lots);
    }
  }

  lemma RemsAgree(c: seq<Lot>, s: Stock, t: Stock, lots: seq<Lot>)
    requires Covers(s, c) && Covers(t, c) && Covers(s, lots) && Covers(t, lots)
    requires forall l :: l in c ==> l in lots
    requires forall l :: l in lots ==> s[l] == t[l]
    ensures RemsOf(c, s) == RemsOf(c, t)
  {
    assert forall i :: 0 <= i < |c| ==> c[i] in lots;
  }

  lemma {:induction false} SumAppend(a: seq<nat>, x: nat)
    ensures Sum(a + [x]) == Sum(a) + x
    decreases |a|
  {
    if a == [] {
      assert a + [x] == [x];
    } else {
      assert (a + [x])[1..] == a[1..] + [x];
      SumAppend(a[1..], x);
    }
  }

  /** One step of the FEFO walk: the walk's invariant carries over to the next candidate. */
  lemma DrawStep(rems: seq<nat>, i: nat, remaining: nat, taken: seq<nat>, d: seq<nat>, need: nat)
    requires i < |rems| && remaining > 0
    requires d == taken + DrawsOf(rems[i..], remaining) && Sum(taken) + remaining == need
    ensures var q := Min(rems[i], remaining);
            q <= remaining &&
            d == (taken + [q]) + DrawsOf(rems[i + 1..], remaining - q) &&
            Sum(taken + [q]) + (remaining - q) == need
  {
    var q := Min(rems[i], remaining);
    assert rems[i..][0] == rems[i] && rems[i..][1..] == rems[i + 1..];
    assert DrawsOf(rems[i..], remaining) == [q] + DrawsOf(rems[i + 1..], remaining - q);
    AppendAssoc(taken, [q], DrawsOf(rems[i + 1..], remaining - q));
    SumAppend(taken, q);
  }

  lemma AppendAssoc<T>(a: seq<T>, b: seq<T>, c: seq<T>)
    ensures (a + b) + c == a + (b + c)
  {
  }
}
