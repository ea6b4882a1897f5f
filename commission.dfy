/**
 * Sales commission (challenge 1): a tiered commission per sale, and a
 * report that groups the sales by seller, totals what each seller sold and
 * earned, and lists the sellers in ascending order of name.
 *
 * Amounts are exact decimals, modelled as `real`.
 */
module Commission {
  import opened Wrappers
  import opened StringOrder

  /** One sale of the fixed dataset. */
  datatype Sale = Sale(seller: string, amount: real)

  /** One line of the report: a seller with the totals of their sales. */
  datatype SellerTotal = SellerTotal(seller: string, totalSold: real, totalCommission: real)

  /** Why the report could not be produced. */
  datatype ReportError = NoSalesData

  /** Which of the two per-sale figures a total adds up. */
  datatype Measure = Sold | Earned

  const FirstTier: real := 100.0
  const SecondTier: real := 500.0
  const FirstRate: real := 0.01
  const SecondRate: real := 0.05

  // ---------------------------------------------------------------------
  // The commission on one sale
  // ---------------------------------------------------------------------

  /** The commission earned on a single sale of `amount`. */
  function SaleCommission(amount: real): (c: real)
    ensures 0.0 <= c
    ensures c == 0.0 <==> amount < FirstTier
    ensures 0.0 <= amount ==> c <= amount * SecondRate
  {
    if amount < FirstTier then 0.0
    else if amount < SecondTier then amount * FirstRate
    else amount * SecondRate
  }

  /** The three tiers: nothing below 100, 1% up to 500, 5% from 500 on. */
  lemma CommissionByTier(amount: real)
    ensures amount < 100.0 ==> SaleCommission(amount) == 0.0
    ensures 100.0 <= amount < 500.0 ==> SaleCommission(amount) == amount / 100.0
    ensures 500.0 <= amount ==> SaleCommission(amount) == amount * 5.0 / 100.0
  {
  }

  /** A larger sale never earns a smaller commission, across tier boundaries too. */
  lemma CommissionMonotone(a: real, b: real)
    requires a <= b
    ensures SaleCommission(a) <= SaleCommission(b)
  {
  }

  // ---------------------------------------------------------------------
  // Sums over sales
  // ---------------------------------------------------------------------

  /** The figure a sale contributes to a total of kind `m`. */
  function Value(m: Measure, s: Sale): real
  {
    match m
    case Sold => s.amount
    case Earned => SaleCommission(s.amount)
  }

  /** The sum of figure `m` over `sales`; commissions never add up to a negative total. */
  function Total(m: Measure, sales: seq<Sale>): (r: real)
    ensures m == Earned ==> 0.0 <= r
  {
    if sales == [] then 0.0
    else Total(m, sales[..|sales| - 1]) + Value(m, sales[|sales| - 1])
  }

  /** A sale appended at the end adds its own figure to the sum. */
  lemma TotalAppend(m: Measure, sales: seq<Sale>, x: Sale)
    ensures Total(m, sales + [x]) == Total(m, sales) + Value(m, x)
  {
  }

  /** The names of everyone who made at least one sale. */
  function Sellers(sales: seq<Sale>): set<string>
  {
    set s | s in sales :: s.seller
  }

  /** The sales of one seller, in their original order (a group of the GroupBy). */
  function SalesOf(sales: seq<Sale>, seller: string): (r: seq<Sale>)
    ensures forall s :: s in r <==> s in sales && s.seller == seller
    ensures |r| <= |sales|
  {
    if sales == [] then []
    else
      var last := sales[|sales| - 1];
      SalesOf(sales[..|sales| - 1], seller) + (if last.seller == seller then [last] else [])
  }

  /**
   * A group keeps every copy of its seller's sales: each sale occurs in it
   * as often as in the input if it is that seller's, and not at all otherwise.
   */
  lemma {:induction false} SalesOfCounts(sales: seq<Sale>, seller: string)
    ensures forall s :: multiset(SalesOf(sales, seller))[s]
                     == if s.seller == seller then multiset(sales)[s] else 0
  {
    if sales != [] {
      var init := sales[..|sales| - 1];
      var last := sales[|sales| - 1];
      assert sales == init + [last];
      SalesOfCounts(init, seller);
    }
  }

  predicate Distinct(keys: seq<string>)
  {
    forall i, j :: 0 <= i < j < |keys| ==> keys[i] != keys[j]
  }

  /**
   * The group keys of the GroupBy: every seller once, in the order of
   * their first sale.
   */
  function GroupKeys(sales: seq<Sale>): (keys: seq<string>)
    ensures forall k :: k in keys <==> k in Sellers(sales)
    ensures Distinct(keys)
    ensures |keys| == |Sellers(sales)|
  {
    if sales == [] then []
    else
      var init := sales[..|sales| - 1];
      var last := sales[|sales| - 1];
      var keys := GroupKeys(init);
      SellersAppend(init, last);
      assert sales == init + [last];
      if last.seller in keys then
        assert Sellers(sales) == Sellers(init);
        keys
      else
        keys + [last.seller]
  }

  /** One more sale adds its seller to the sellers, if not already there. */
  lemma SellersAppend(sales: seq<Sale>, x: Sale)
    ensures Sellers(sales + [x]) == Sellers(sales) + {x.seller}
  {
  }

  /** One more sale adds its seller as a new key at the end, unless already a key. */
  lemma GroupKeysAppend(sales: seq<Sale>, x: Sale)
    ensures GroupKeys(sales + [x])
         == if x.seller in GroupKeys(sales) then GroupKeys(sales) else GroupKeys(sales) + [x.seller]
  {
  }

  // ---------------------------------------------------------------------
  // Rows of the report
  // ---------------------------------------------------------------------

  /**
   * The report line for one group: the seller with the two sums of its
   * sales. A name with no sales gets zero totals.
   */
  function Summarize(sales: seq<Sale>, seller: string): (r: SellerTotal)
    ensures r.seller == seller
    ensures 0.0 <= r.totalCommission
    ensures seller !in Sellers(sales) ==> r.totalSold == 0.0 && r.totalCommission == 0.0
  {
    var group := SalesOf(sales, seller);
    SellerTotal(seller, Total(Sold, group), Total(Earned, group))
  }

  /** The Select step: one report line per key, in key order. */
  function Summaries(sales: seq<Sale>, keys: seq<string>): (rows: seq<SellerTotal>)
    ensures |rows| == |keys|
    ensures forall i :: 0 <= i < |keys| ==> rows[i].seller == keys[i]
    ensures forall row :: row in rows ==> row.seller in keys && row == Summarize(sales, row.seller)
  {
    if keys == [] then []
    else [Summarize(sales, keys[0])] + Summaries(sales, keys[1..])
  }

  predicate StrictlyAscending(rows: seq<SellerTotal>)
  {
    forall i, j :: 0 <= i < j < |rows| ==> Less(rows[i].seller, rows[j].seller)
  }

  /** Places `row` before the first line whose seller does not sort before it. */
  function Insert(row: SellerTotal, rows: seq<SellerTotal>): (r: seq<SellerTotal>)
    ensures multiset(r) == multiset(rows) + multiset{row}
  {
    if rows == [] || !Less(rows[0].seller, row.seller) then [row] + rows
    else
      assert rows == [rows[0]] + rows[1..];
      [rows[0]] + Insert(row, rows[1..])
  }

  /** The OrderBy step: a stable insertion sort on the seller name. */
  function SortBySeller(rows: seq<SellerTotal>): (r: seq<SellerTotal>)
    ensures multiset(r) == multiset(rows)
  {
    if rows == [] then []
    else
      assert rows == [rows[0]] + rows[1..];
      Insert(rows[0], SortBySeller(rows[1..]))
  }

  /** Inserting a line with a new seller into an ascending report keeps it ascending. */
  lemma {:induction false} InsertAscending(row: SellerTotal, rows: seq<SellerTotal>)
    requires StrictlyAscending(rows)
    requires forall y :: y in rows ==> y.seller != row.seller
    ensures StrictlyAscending(Insert(row, rows))
  {
    if rows == [] {
    } else if !Less(rows[0].seller, row.seller) {
      LessTotal(row.seller, rows[0].seller);
      var r := [row] + rows;
      forall i, j | 0 <= i < j < |r|
        ensures Less(r[i].seller, r[j].seller)
      {
        if i == 0 && j > 1 {
          LessTransitive(row.seller, rows[0].seller, rows[j - 1].seller);
        }
      }
    } else {
      var tail := Insert(row, rows[1..]);
      InsertAscending(row, rows[1..]);
      assert forall y :: y in tail ==> y in multiset(rows[1..]) + multiset{row};
      var r := [rows[0]] + tail;
      forall j | 0 < j < |r|
        ensures Less(r[0].seller, r[j].seller)
      {
        assert r[j] in tail;
        if r[j] != row {
          assert r[j] in rows[1..];
          var k :| 0 <= k < |rows[1..]| && rows[1..][k] == r[j];
          assert rows[k + 1] == r[j];
        }
      }
    }
  }

  /** Sorting lines with pairwise different sellers yields a strictly ascending report. */
  lemma {:induction false} SortAscending(rows: seq<SellerTotal>)
    requires forall i, j :: 0 <= i < j < |rows| ==> rows[i].seller != rows[j].seller
    ensures StrictlyAscending(SortBySeller(rows))
  {
    if rows != [] {
      var sortedTail := SortBySeller(rows[1..]);
      SortAscending(rows[1..]);
      forall y | y in sortedTail
        ensures y.seller != rows[0].seller
      {
        assert y in multiset(rows[1..]);
        var k :| 0 <= k < |rows[1..]| && rows[1..][k] == y;
        assert rows[k + 1] == y;
      }
      InsertAscending(rows[0], sortedTail);
    }
  }

  // ---------------------------------------------------------------------
  // The report
  // ---------------------------------------------------------------------

  /** The sellers named in a report. */
  function RowSellers(rows: seq<SellerTotal>): set<string>
  {
    set r | r in rows :: r.seller
  }

  /**
   * GroupBy seller, Select the two sums, OrderBy seller: as many lines as
   * there are sellers, each the summary of one seller's group.
   */
  function AggregateBySeller(sales: seq<Sale>): (r: seq<SellerTotal>)
    ensures |r| == |Sellers(sales)|
    ensures forall row :: row in r ==> row.seller in Sellers(sales) && row == Summarize(sales, row.seller)
  {
    var summaries := Summaries(sales, GroupKeys(sales));
    SortBySellerSameRows(summaries);
    SortBySeller(summaries)
  }

  /** Sorting neither adds, drops nor duplicates a line. */
  lemma SortBySellerSameRows(rows: seq<SellerTotal>)
    ensures |SortBySeller(rows)| == |rows|
    ensures forall row :: row in SortBySeller(rows) <==> row in rows
  {
    var r := SortBySeller(rows);
    assert |r| == |multiset(r)| == |multiset(rows)| == |rows|;
    forall row
      ensures row in r <==> row in rows
    {
      assert row in r <==> row in multiset(r);
      assert row in rows <==> row in multiset(rows);
    }
  }

  /** The report lists its sellers in strictly ascending order of name. */
  lemma AggregateAscending(sales: seq<Sale>)
    ensures StrictlyAscending(AggregateBySeller(sales))
  {
    var summaries := Summaries(sales, GroupKeys(sales));
    SortAscending(summaries);
  }

  /** The report has exactly one line for each seller who made a sale, and no other. */
  lemma AggregateOneLinePerSeller(sales: seq<Sale>)
    ensures RowSellers(AggregateBySeller(sales)) == Sellers(sales)
    ensures |AggregateBySeller(sales)| == |Sellers(sales)|
  {
    var keys := GroupKeys(sales);
    var summaries := Summaries(sales, keys);
    var rows := SortBySeller(summaries);
    SortBySellerSameRows(summaries);
    forall k | k in Sellers(sales)
      ensures k in RowSellers(rows)
    {
      var i :| 0 <= i < |keys| && keys[i] == k;
      assert summaries[i] in rows;
    }
  }

  /**
   * Each line carries the sum of its seller's amounts and the sum of the
   * commission on each of those sales.
   */
  lemma AggregateLineTotals(sales: seq<Sale>)
    ensures forall row :: row in AggregateBySeller(sales) ==>
      && row.totalSold == Total(Sold, SalesOf(sales, row.seller))
      && row.totalCommission == Total(Earned, SalesOf(sales, row.seller))
  {
  }

  // ---------------------------------------------------------------------
  // Totals over the report
  // ---------------------------------------------------------------------

  /** The figure of kind `m` on one report line. */
  function RowValue(m: Measure, row: SellerTotal): real
  {
    match m
    case Sold => row.totalSold
    case Earned => row.totalCommission
  }

  /** The sum of figure `m` over the lines of a report. */
  function RowTotal(m: Measure, rows: seq<SellerTotal>): real
  {
    if rows == [] then 0.0 else RowValue(m, rows[0]) + RowTotal(m, rows[1..])
  }

  /** The sum over the groups named by `keys` of each group's total. */
  function KeyTotal(m: Measure, sales: seq<Sale>, keys: seq<string>): real
  {
    if keys == [] then 0.0 else Total(m, SalesOf(sales, keys[0])) + KeyTotal(m, sales, keys[1..])
  }

  lemma {:induction false} RowTotalInsert(m: Measure, row: SellerTotal, rows: seq<SellerTotal>)
    ensures RowTotal(m, Insert(row, rows)) == RowValue(m, row) + RowTotal(m, rows)
  {
    if rows != [] && Less(rows[0].seller, row.seller) {
      RowTotalInsert(m, row, rows[1..]);
    }
  }

  /** Sorting the report does not change its totals. */
  lemma {:induction false} RowTotalSort(m: Measure, rows: seq<SellerTotal>)
    ensures RowTotal(m, SortBySeller(rows)) == RowTotal(m, rows)
  {
    if rows != [] {
      RowTotalSort(m, rows[1..]);
      RowTotalInsert(m, rows[0], SortBySeller(rows[1..]));
    }
  }

  lemma {:induction false} RowTotalSummaries(m: Measure, sales: seq<Sale>, keys: seq<string>)
    ensures RowTotal(m, Summaries(sales, keys)) == KeyTotal(m, sales, keys)
  {
    if keys != [] {
      RowTotalSummaries(m, sales, keys[1..]);
    }
  }

  lemma {:induction false} KeyTotalAppend(m: Measure, sales: seq<Sale>, keys: seq<string>, k: string)
    ensures KeyTotal(m, sales, keys + [k]) == KeyTotal(m, sales, keys) + Total(m, SalesOf(sales, k))
  {
    if keys != [] {
      assert (keys + [k])[1..] == keys[1..] + [k];
      KeyTotalAppend(m, sales, keys[1..], k);
    }
  }

  /** One more sale adds its figure to its own seller's group and to no other. */
  lemma GroupTotalAppend(m: Measure, sales: seq<Sale>, x: Sale, k: string)
    ensures Total(m, SalesOf(sales + [x], k))
         == Total(m, SalesOf(sales, k)) + (if x.seller == k then Value(m, x) else 0.0)
  {
    var all := sales + [x];
    assert all[..|all| - 1] == sales && all[|all| - 1] == x;
    var group := SalesOf(sales, k);
    assert SalesOf(all, k) == group + (if x.seller == k then [x] else []);
    if x.seller == k {
      var grown := group + [x];
      assert grown[..|grown| - 1] == group && grown[|grown| - 1] == x;
    } else {
      assert SalesOf(all, k) == group;
    }
  }

  lemma {:induction false} KeyTotalAppendSale(m: Measure, sales: seq<Sale>, x: Sale, keys: seq<string>)
    requires Distinct(keys)
    ensures KeyTotal(m, sales + [x], keys)
         == KeyTotal(m, sales, keys) + (if x.seller in keys then Value(m, x) else 0.0)
  {
    if keys != [] {
      GroupTotalAppend(m, sales, x, keys[0]);
      assert Distinct(keys[1..]);
      assert keys[0] !in keys[1..];
      KeyTotalAppendSale(m, sales, x, keys[1..]);
    }
  }

  lemma NoGroupForNewSeller(sales: seq<Sale>, seller: string)
    requires seller !in Sellers(sales)
    ensures SalesOf(sales, seller) == []
  {
  }

  /** Summing every group's total gives the total over all sales. */
  lemma {:induction false} KeyTotalOfGroups(m: Measure, sales: seq<Sale>)
    ensures KeyTotal(m, sales, GroupKeys(sales)) == Total(m, sales)
  {
    if sales != [] {
      var init := sales[..|sales| - 1];
      var x := sales[|sales| - 1];
      assert sales == init + [x];
      KeyTotalOfGroups(m, init);
      KeyTotalOfGroupsStep(m, init, x);
    }
  }

  lemma KeyTotalOfGroupsStep(m: Measure, init: seq<Sale>, x: Sale)
    requires KeyTotal(m, init, GroupKeys(init)) == Total(m, init)
    ensures KeyTotal(m, init + [x], GroupKeys(init + [x])) == Total(m, init + [x])
  {
    var keys := GroupKeys(init);
    GroupKeysAppend(init, x);
    TotalAppend(m, init, x);
    KeyTotalAppendSale(m, init, x, keys);
    if x.seller !in keys {
      NewSellerGroupTotal(m, init, x, keys);
    }
  }

  /** A sale by a new seller opens a group that holds just that sale. */
  lemma NewSellerGroupTotal(m: Measure, init: seq<Sale>, x: Sale, keys: seq<string>)
    requires x.seller !in Sellers(init)
    ensures KeyTotal(m, init + [x], keys + [x.seller]) == KeyTotal(m, init + [x], keys) + Value(m, x)
  {
    KeyTotalAppend(m, init + [x], keys, x.seller);
    NoGroupForNewSeller(init, x.seller);
    GroupTotalAppend(m, init, x, x.seller);
  }

  /**
   * Nothing is lost or counted twice by the grouping: the report's total
   * sold is the sum of all sales, and its total commission is the sum of
   * the commission on every sale.
   */
  lemma AggregatePreservesTotals(sales: seq<Sale>)
    ensures RowTotal(Sold, AggregateBySeller(sales)) == Total(Sold, sales)
    ensures RowTotal(Earned, AggregateBySeller(sales)) == Total(Earned, sales)
  {
    var keys := GroupKeys(sales);
    RowTotalSort(Sold, Summaries(sales, keys));
    RowTotalSort(Earned, Summaries(sales, keys));
    RowTotalSummaries(Sold, sales, keys);
    RowTotalSummaries(Earned, sales, keys);
    KeyTotalOfGroups(Sold, sales);
    KeyTotalOfGroups(Earned, sales);
  }

  /** Challenge 1 as a whole: refuse an empty dataset, otherwise produce the report. */
  function CommissionReport(sales: seq<Sale>): (r: Result<seq<SellerTotal>, ReportError>)
    ensures r.Failure? <==> sales == []
    ensures r.Success? ==> r.value != [] && r.value == AggregateBySeller(sales)
  {
    if sales == [] then Failure(NoSalesData)
    else
      AggregateOneLinePerSeller(sales);
      assert sales[0].seller in Sellers(sales);
      Success(AggregateBySeller(sales))
  }

  // ---------------------------------------------------------------------
  // A worked example from the embedded dataset
  // ---------------------------------------------------------------------

  /** The ten sales of one seller in the embedded dataset. */
  const ExampleSales: seq<Sale> :=
    [Sale("João Silva", 1200.50), Sale("João Silva", 950.75), Sale("João Silva", 1800.00),
     Sale("João Silva", 1400.30), Sale("João Silva", 1100.90), Sale("João Silva", 1550.00),
     Sale("João Silva", 1700.80), Sale("João Silva", 250.30), Sale("João Silva", 480.75),
     Sale("João Silva", 320.40)]

  /** That seller sold 10754.70 in all. */
  lemma ExampleSellerSold()
    ensures Total(Sold, ExampleSales) == 10754.70
  {
    var s := ExampleSales;
    TotalAppend(Sold, s[..0], s[0]);
    assert s[..1] == s[..0] + [s[0]];
    assert Total(Sold, s[..1]) == 1200.5;
    TotalAppend(Sold, s[..1], s[1]);
    assert s[..2] == s[..1] + [s[1]];
    assert Total(Sold, s[..2]) == 2151.25;
    TotalAppend(Sold, s[..2], s[2]);
    assert s[..3] == s[..2] + [s[2]];
    assert Total(Sold, s[..3]) == 3951.25;
    TotalAppend(Sold, s[..3], s[3]);
    assert s[..4] == s[..3] + [s[3]];
    assert Total(Sold, s[..4]) == 5351.55;
    TotalAppend(Sold, s[..4], s[4]);
    assert s[..5] == s[..4] + [s[4]];
    assert Total(Sold, s[..5]) == 6452.45;
    TotalAppend(Sold, s[..5], s[5]);
    assert s[..6] == s[..5] + [s[5]];
    assert Total(Sold, s[..6]) == 8002.45;
    TotalAppend(Sold, s[..6], s[6]);
    assert s[..7] == s[..6] + [s[6]];
    assert Total(Sold, s[..7]) == 9703.25;
    TotalAppend(Sold, s[..7], s[7]);
    assert s[..8] == s[..7] + [s[7]];
    assert Total(Sold, s[..8]) == 9953.55;
    TotalAppend(Sold, s[..8], s[8]);
    assert s[..9] == s[..8] + [s[8]];
    assert Total(Sold, s[..9]) == 10434.3;
    TotalAppend(Sold, s[..9], s[9]);
    assert s[..10] == s[..9] + [s[9]];
    assert Total(Sold, s[..10]) == 10754.7;
    assert s[..10] == s;
  }

  /** Seven of those sales fall in the 5% tier and three in the 1% tier: 495.677 earned. */
  lemma ExampleSellerCommission()
    ensures Total(Earned, ExampleSales) == 495.677
  {
    var s := ExampleSales;
    TotalAppend(Earned, s[..0], s[0]);
    assert s[..1] == s[..0] + [s[0]];
    assert Total(Earned, s[..1]) == 60.025;
    TotalAppend(Earned, s[..1], s[1]);
    assert s[..2] == s[..1] + [s[1]];
    assert Total(Earned, s[..2]) == 107.5625;
    TotalAppend(Earned, s[..2], s[2]);
    assert s[..3] == s[..2] + [s[2]];
    assert Total(Earned, s[..3]) == 197.5625;
    TotalAppend(Earned, s[..3], s[3]);
    assert s[..4] == s[..3] + [s[3]];
    assert Total(Earned, s[..4]) == 267.5775;
    TotalAppend(Earned, s[..4], s[4]);
    assert s[..5] == s[..4] + [s[4]];
    assert Total(Earned, s[..5]) == 322.6225;
    TotalAppend(Earned, s[..5], s[5]);
    assert s[..6] == s[..5] + [s[5]];
    assert Total(Earned, s[..6]) == 400.1225;
    TotalAppend(Earned, s[..6], s[6]);
    assert s[..7] == s[..6] + [s[6]];
    assert Total(Earned, s[..7]) == 485.1625;
    TotalAppend(Earned, s[..7], s[7]);
    assert s[..8] == s[..7] + [s[7]];
    assert Total(Earned, s[..8]) == 487.6655;
    TotalAppend(Earned, s[..8], s[8]);
    assert s[..9] == s[..8] + [s[8]];
    assert Total(Earned, s[..9]) == 492.473;
    TotalAppend(Earned, s[..9], s[9]);
    assert s[..10] == s[..9] + [s[9]];
    assert Total(Earned, s[..10]) == 495.677;
    assert s[..10] == s;
  }

  /** A seller's group in a dataset of that seller alone is the whole dataset. */
  lemma {:induction false} SalesOfSingleSeller(sales: seq<Sale>, seller: string)
    requires forall s :: s in sales ==> s.seller == seller
    ensures SalesOf(sales, seller) == sales
  {
    if sales != [] {
      var init := sales[..|sales| - 1];
      assert sales == init + [sales[|sales| - 1]];
      SalesOfSingleSeller(init, seller);
    }
  }

  /** The report on that seller's sales is one line: 10754.70 sold, 495.677 earned. */
  lemma ExampleReport()
    ensures AggregateBySeller(ExampleSales) == [SellerTotal("João Silva", 10754.70, 495.677)]
  {
    var s := ExampleSales;
    var seller := "João Silva";
    assert forall x :: x in s ==> x.seller == seller;
    assert Sellers(s) == {seller};
    var keys := GroupKeys(s);
    assert keys == [seller];
    SalesOfSingleSeller(s, seller);
    ExampleSellerSold();
    ExampleSellerCommission();
    var row := Summarize(s, seller);
    assert row == SellerTotal(seller, 10754.70, 495.677);
    assert Summaries(s, keys) == [row];
  }
}
