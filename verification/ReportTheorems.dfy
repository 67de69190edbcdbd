/** Two differently grouped sums, and when they agree. */
module ReportTheorems {
  import opened OrderModel
  import opened ReportModel

  // --- groups partition what they group ----------------------------------------------------

  function GroupSum<K(==)>(xs: seq<Sale>, key: Sale -> K, rows: seq<Bucket<K>>, c: Column): int {
    if rows == [] then 0
    else GroupSum(xs, key, rows[..|rows| - 1], c) + Sum(Group(xs, key, rows[|rows| - 1].key), c)
  }

  function GroupCount<K(==)>(xs: seq<Sale>, key: Sale -> K, rows: seq<Bucket<K>>): int {
    if rows == [] then 0
    else GroupCount(xs, key, rows[..|rows| - 1]) + |Group(xs, key, rows[|rows| - 1].key)|
  }

  lemma {:induction false} OneMoreSale<K>(x: Sale, xs: seq<Sale>, key: Sale -> K, rows: seq<Bucket<K>>, c: Column)
    requires DistinctKeys(rows)
    ensures GroupSum([x] + xs, key, rows, c) ==
            GroupSum(xs, key, rows, c) + if HasKey(rows, key(x)) then Cell(x.amounts, c) else 0
    ensures GroupCount([x] + xs, key, rows) == GroupCount(xs, key, rows) + if HasKey(rows, key(x)) then 1 else 0
  {
    if rows != [] {
      var init, last := rows[..|rows| - 1], rows[|rows| - 1];
      OneMoreSale(x, xs, key, init, c);
      assert ([x] + xs)[1..] == xs;
      HasKeySplit(rows, key(x));
      if key(x) == last.key {
        assert !HasKey(init, key(x));
        assert ([x] + Group(xs, key, last.key))[1..] == Group(xs, key, last.key);
      } else {
        assert [] + Group(xs, key, last.key) == Group(xs, key, last.key);
      }
    }
  }

  lemma HasKeySplit<K>(rows: seq<Bucket<K>>, k: K)
    requires rows != []
    ensures HasKey(rows, k) <==> HasKey(rows[..|rows| - 1], k) || rows[|rows| - 1].key == k
  {}

  lemma {:induction false} NoSales<K>(key: Sale -> K, rows: seq<Bucket<K>>, c: Column)
    ensures GroupSum([], key, rows, c) == 0 && GroupCount([], key, rows) == 0
  {
    if rows != [] { NoSales(key, rows[..|rows| - 1], c); }
  }

  lemma {:induction false} GroupsPartition<K>(xs: seq<Sale>, key: Sale -> K, rows: seq<Bucket<K>>, c: Column)
    requires DistinctKeys(rows) && forall i :: 0 <= i < |xs| ==> HasKey(rows, key(xs[i]))
    ensures GroupSum(xs, key, rows, c) == Sum(xs, c) && GroupCount(xs, key, rows) == |xs|
  {
    if xs == [] {
      NoSales(key, rows, c);
    } else {
      var rest := xs[1..];
      assert xs == [xs[0]] + rest;
      assert forall i :: 0 <= i < |rest| ==> rest[i] == xs[i + 1];
      GroupsPartition(rest, key, rows, c);
      OneMoreSale(xs[0], rest, key, rows, c);
    }
  }

  // --- rounding ----------------------------------------------------------------------------

  /** a and b, in units of half a cent, are at most n halves apart. */
  predicate Within(unit: Unit, a: int, b: int, n: int) {
    a - b <= n * unit && b - a <= n * unit
  }

  /** Rounding moves a sum by at most half a cent. */
  lemma RoundIsNear(unit: Unit, x: int)
    ensures Within(unit, 2 * (unit * Round(unit, x)), 2 * x, 1)
  {}

  lemma {:induction false} TimesPositive(unit: Unit, d: nat)
    requires d >= 1
    ensures unit * d >= unit
  {}

  lemma TimesMinus(unit: Unit, a: int, b: int)
    ensures unit * a - unit * b == unit * (a - b)
  {}

  /** Cents that are fewer than n + 1 half cents apart differ by at most half that. */
  lemma CentsApart(unit: Unit, a: int, b: int, n: nat)
    requires Within(unit, 2 * (unit * a), 2 * (unit * b), n)
    ensures 2 * (a - b) <= n && 2 * (b - a) <= n
  {
    TimesMinus(unit, a, b);
    TimesMinus(unit, b, a);
    if 2 * (a - b) > n {
      TimesBeyond(unit, 2 * (a - b), n);
    } else if 2 * (b - a) > n {
      TimesBeyond(unit, 2 * (b - a), n);
    }
  }

  lemma TimesBeyond(unit: Unit, d: int, n: nat)
    requires d > n
    ensures unit * d > n * unit
  {
    TimesPositive(unit, d - n);
    TimesMinus(unit, d, n);
  }

  /** An amount in whole cents is not rounded. */
  lemma RoundIsExact(unit: Unit, cents: int)
    ensures Round(unit, unit * cents) == cents
  {
    RoundIsNear(unit, unit * cents);
    CentsApart(unit, Round(unit, unit * cents), cents, 1);
  }

  /** The amount is what it rounds to. */
  predicate IsWhole(unit: Unit, x: int) {
    x == unit * Round(unit, x)
  }

  ghost predicate WholeCents(unit: Unit, xs: seq<Sale>, c: Column) {
    forall i :: 0 <= i < |xs| ==> IsWhole(unit, Cell(xs[i].amounts, c))
  }

  /** What n roundings may cost, in halves of a cent: nothing on whole cents. */
  ghost function Slack(unit: Unit, xs: seq<Sale>, c: Column, n: nat): nat {
    if WholeCents(unit, xs, c) then 0 else n
  }

  lemma Distribute(unit: Unit, a: int, b: int)
    ensures unit * (a + b) == unit * a + unit * b
  {}

  lemma WholeOf(unit: Unit, x: int, cents: int)
    requires x == unit * cents
    ensures IsWhole(unit, x)
  {
    RoundIsExact(unit, cents);
  }

  lemma WholeAdds(unit: Unit, x: int, y: int)
    requires IsWhole(unit, x) && IsWhole(unit, y)
    ensures IsWhole(unit, x + y)
  {
    var a, b := Round(unit, x), Round(unit, y);
    Distribute(unit, a, b);
    WholeOf(unit, x + y, a + b);
  }

  lemma {:induction false} SumIsWhole(unit: Unit, xs: seq<Sale>, c: Column)
    requires WholeCents(unit, xs, c)
    ensures IsWhole(unit, Sum(xs, c))
  {
    if xs == [] {
      WholeOf(unit, 0, 0);
    } else {
      var rest := xs[1..];
      assert forall i :: 0 <= i < |rest| ==> rest[i] == xs[i + 1];
      SumIsWhole(unit, rest, c);
      WholeAdds(unit, Cell(xs[0].amounts, c), Sum(rest, c));
    }
  }

  lemma {:induction false} GroupIsWhole<K>(unit: Unit, xs: seq<Sale>, key: Sale -> K, k: K, c: Column)
    requires WholeCents(unit, xs, c)
    ensures WholeCents(unit, Group(xs, key, k), c)
  {
    if xs != [] {
      assert forall i :: 0 <= i < |xs[1..]| ==> xs[1..][i] == xs[i + 1];
      GroupIsWhole(unit, xs[1..], key, k, c);
    }
  }

  lemma AggregateIsNear(unit: Unit, xs: seq<Sale>, c: Column)
    ensures Within(unit, 2 * (unit * Cell(Aggregate(unit, xs), c)), 2 * Sum(xs, c), Slack(unit, xs, c, 1))
  {
    assert Cell(Aggregate(unit, xs), c) == Round(unit, Sum(xs, c));
    if WholeCents(unit, xs, c) {
      SumIsWhole(unit, xs, c);
    } else {
      RoundIsNear(unit, Sum(xs, c));
    }
  }

  lemma BucketIsNear<K>(unit: Unit, xs: seq<Sale>, key: Sale -> K, row: Bucket<K>, c: Column)
    requires IsBucketOf(unit, xs, key, row)
    ensures Within(unit, 2 * (unit * Cell(row.sums, c)), 2 * Sum(Group(xs, key, row.key), c), Slack(unit, xs, c, 1))
  {
    AggregateIsNear(unit, Group(xs, key, row.key), c);
    if WholeCents(unit, xs, c) { GroupIsWhole(unit, xs, key, row.key, c); }
  }

  lemma WithinAdds(unit: Unit, a: int, b: int, n: nat, x: int, y: int, m: nat)
    requires Within(unit, a, b, n) && Within(unit, x, y, m) && m <= 1
    ensures Within(unit, a + x, b + y, n + m)
  {}

  lemma {:induction false} BucketsAreNear<K>(
    unit: Unit, xs: seq<Sale>, key: Sale -> K, rows: seq<Bucket<K>>, c: Column)
    requires forall i :: 0 <= i < |rows| ==> IsBucketOf(unit, xs, key, rows[i])
    ensures Within(unit, 2 * (unit * TotalOf(rows, c)), 2 * GroupSum(xs, key, rows, c), Slack(unit, xs, c, |rows|))
  {
    if rows != [] {
      var n := |rows| - 1;
      var init, last := rows[..n], rows[n];
      BucketsAreNear(unit, xs, key, init, c);
      BucketIsNear(unit, xs, key, last, c);
      Distribute(unit, TotalOf(init, c), Cell(last.sums, c));
      WithinAdds(unit, 2 * (unit * TotalOf(init, c)), 2 * GroupSum(xs, key, init, c), Slack(unit, xs, c, n),
                 2 * (unit * Cell(last.sums, c)), 2 * Sum(Group(xs, key, last.key), c), Slack(unit, xs, c, 1));
    }
  }

  lemma {:induction false} BucketsCount<K>(unit: Unit, xs: seq<Sale>, key: Sale -> K, rows: seq<Bucket<K>>)
    requires forall i :: 0 <= i < |rows| ==> IsBucketOf(unit, xs, key, rows[i])
    ensures CountOf(rows) == GroupCount(xs, key, rows)
  {
    if rows != [] { BucketsCount(unit, xs, key, rows[..|rows| - 1]); }
  }

  lemma TotalsAgree(unit: Unit, sum: int, rolled: int, whole: int, n: nat, m: nat)
    requires Within(unit, 2 * (unit * rolled), 2 * sum, n) && Within(unit, 2 * (unit * whole), 2 * sum, m) && m <= 1
    ensures 2 * (rolled - whole) <= n + m && 2 * (whole - rolled) <= n + m
  {
    assert (n + m) * unit == n * unit + m * unit;
    CentsApart(unit, rolled, whole, n + m);
  }

  /**
   A roll-up of the buckets of any GROUP BY against one aggregate over the same rows: the counts
   agree, and the money agrees to half a cent per rounding; if all amounts are whole cents, it is
   equal.
   */
  lemma RollUpAgrees<K>(unit: Unit, xs: seq<Sale>, key: Sale -> K, rows: seq<Bucket<K>>, c: Column)
    requires IsGroupBy(unit, xs, key, rows)
    ensures CountOf(rows) == |xs|
    ensures var drift := TotalOf(rows, c) - Cell(Aggregate(unit, xs), c);
      2 * drift <= Slack(unit, xs, c, |rows| + 1) && -2 * drift <= Slack(unit, xs, c, |rows| + 1)
  {
    BucketsAreNear(unit, xs, key, rows, c);
    BucketsCount(unit, xs, key, rows);
    GroupsPartition(xs, key, rows, c);
    AggregateIsNear(unit, xs, c);
    TotalsAgree(unit, Sum(xs, c), TotalOf(rows, c), Cell(Aggregate(unit, xs), c),
                Slack(unit, xs, c, |rows|), Slack(unit, xs, c, 1));
  }

  /** The revenue series, at any granularity, sums to the totals beside it, in every column. */
  lemma SeriesSumsToTotals<K>(
    unit: Unit, orders: seq<Sale>, f: Filters, bucket: Sale -> K, points: seq<Bucket<K>>, c: Column)
    requires IsGroupBy(unit, Scoped(orders, f, true), bucket, points)
    ensures var report := FinancialTotals(unit, orders, f);
      var drift := TotalOf(points, c) - Cell(report.totals, c);
      var slack := Slack(unit, Scoped(orders, f, true), c, |points| + 1);
      CountOf(points) == report.orderCount && 2 * drift <= slack && -2 * drift <= slack
  {
    RollUpAgrees(unit, Scoped(orders, f, true), bucket, points, c);
  }

  // --- the two screens ---------------------------------------------------------------------

  function RevenueOf(xs: seq<Sale>): seq<Sale> {
    if xs == [] then []
    else (if CountsAsRevenue(xs[0].status) then [xs[0]] else []) + RevenueOf(xs[1..])
  }

  lemma {:induction false} RevenueGroups(xs: seq<Sale>, status: Status)
    requires CountsAsRevenue(status)
    ensures Group(RevenueOf(xs), StatusOf, status) == Group(xs, StatusOf, status)
  {
    if xs != [] {
      RevenueGroups(xs[1..], status);
      var rest := RevenueOf(xs[1..]);
      if CountsAsRevenue(xs[0].status) {
        assert ([xs[0]] + rest)[1..] == rest;
      } else {
        assert [] + rest == rest && [] + Group(xs[1..], StatusOf, status) == Group(xs[1..], StatusOf, status);
      }
    }
  }

  lemma {:induction false} RevenueBucketsAre(rows: seq<Bucket<Status>>)
    requires DistinctKeys(rows)
    ensures var r := RevenueBuckets(rows);
      && DistinctKeys(r)
      && (forall i :: 0 <= i < |r| ==> r[i] in rows && CountsAsRevenue(r[i].key))
      && (forall k :: HasKey(rows, k) && CountsAsRevenue(k) ==> HasKey(r, k))
  {
    if rows != [] {
      var n := |rows| - 1;
      var init, last := rows[..n], rows[n];
      RevenueBucketsAre(init);
      var r := RevenueBuckets(rows);
      forall k | HasKey(rows, k) && CountsAsRevenue(k)
        ensures HasKey(r, k)
      {
        HasKeySplit(rows, k);
        if last.key == k {
          assert r[|r| - 1].key == k;
        } else {
          var i :| 0 <= i < |RevenueBuckets(init)| && RevenueBuckets(init)[i].key == k;
          assert r[i].key == k;
        }
      }
    }
  }

  lemma {:induction false} RevenueHas(xs: seq<Sale>, i: nat)
    requires i < |RevenueOf(xs)|
    ensures RevenueOf(xs)[i] in xs && CountsAsRevenue(RevenueOf(xs)[i].status)
  {
    var first := if CountsAsRevenue(xs[0].status) then 1 else 0;
    if i >= first { RevenueHas(xs[1..], i - first); }
  }

  /** The flagged rows of the summary are a GROUP BY of the revenue orders alone. */
  lemma FlaggedRowsGroupRevenue(unit: Unit, xs: seq<Sale>, rows: seq<Bucket<Status>>)
    requires IsGroupBy(unit, xs, StatusOf, rows)
    ensures IsGroupBy(unit, RevenueOf(xs), StatusOf, RevenueBuckets(rows))
  {
    RevenueBucketsAre(rows);
    var r, ys := RevenueBuckets(rows), RevenueOf(xs);
    forall i | 0 <= i < |r|
      ensures IsBucketOf(unit, ys, StatusOf, r[i])
    {
      RevenueGroups(xs, r[i].key);
    }
    forall i | 0 <= i < |ys|
      ensures HasKey(r, StatusOf(ys[i]))
    {
      RevenueHas(xs, i);
      var j :| 0 <= j < |xs| && xs[j] == ys[i];
      assert HasKey(rows, StatusOf(xs[j]));
    }
  }

  lemma {:induction false} UnfilteredRevenue(orders: seq<Sale>, f: Filters)
    requires f.status.None?
    ensures RevenueOf(Scoped(orders, f, false)) == Scoped(orders, f, true)
  {
    if orders != [] {
      UnfilteredRevenue(orders[1..], f);
      var rest := Scoped(orders[1..], f, false);
      if Matches(f, false, orders[0]) {
        assert ([orders[0]] + rest)[1..] == rest;
      } else {
        assert [] + rest == rest;
      }
    }
  }

  /** The summary counts every order in scope, once. */
  lemma SummaryCountsEveryOrder(unit: Unit, orders: seq<Sale>, f: Filters, rows: seq<Bucket<Status>>)
    requires IsGroupBy(unit, Scoped(orders, f, false), StatusOf, rows)
    ensures Summarised(rows).orderCount == |Scoped(orders, f, false)|
  {
    RollUpAgrees(unit, Scoped(orders, f, false), StatusOf, rows, Total);
  }

  lemma FlaggedRowsAgree(unit: Unit, xs: seq<Sale>, rows: seq<Bucket<Status>>)
    requires IsGroupBy(unit, xs, StatusOf, rows)
    ensures Summarised(rows).revenueOrderCount == |RevenueOf(xs)|
    ensures var drift := Summarised(rows).revenueTotal - Aggregate(unit, RevenueOf(xs)).total;
      var slack := Slack(unit, RevenueOf(xs), Total, |RevenueBuckets(rows)| + 1);
      2 * drift <= slack && -2 * drift <= slack
  {
    FlaggedRowsGroupRevenue(unit, xs, rows);
    RollUpAgrees(unit, RevenueOf(xs), StatusOf, RevenueBuckets(rows), Total);
  }

  /**
   For the same filters without a status, the summary's revenue figures are the financial report's
   count and net, whatever order the rows come in: the money to half a cent per rounding, and to
   the cent when amounts are whole cents.
   */
  lemma ScreensAgree(unit: Unit, orders: seq<Sale>, f: Filters, rows: seq<Bucket<Status>>)
    requires f.status.None? && IsGroupBy(unit, Scoped(orders, f, false), StatusOf, rows)
    ensures var summary, report := Summarised(rows), FinancialTotals(unit, orders, f);
      var drift := summary.revenueTotal - report.totals.total;
      var slack := Slack(unit, Scoped(orders, f, true), Total, |RevenueBuckets(rows)| + 1);
      && summary.revenueOrderCount == report.orderCount
      && 2 * drift <= slack && -2 * drift <= slack
  {
    FlaggedRowsAgree(unit, Scoped(orders, f, false), rows);
    UnfilteredRevenue(orders, f);
  }

  lemma {:induction false} DistinctAreFew(rows: seq<Bucket<Status>>, allowed: set<Status>)
    requires DistinctKeys(rows) && forall i :: 0 <= i < |rows| ==> rows[i].key in allowed
    ensures |rows| <= |allowed|
    decreases |rows|
  {
    if rows != [] { DistinctAreFew(rows[..|rows| - 1], allowed - {rows[|rows| - 1].key}); }
  }

  lemma FlaggedRowsAreFew(rows: seq<Bucket<Status>>)
    requires DistinctKeys(rows)
    ensures |RevenueBuckets(rows)| <= 8
  {
    RevenueBucketsAre(rows);
    var r := RevenueBuckets(rows);
    var eight := {Paid, WaitingStore, StoreAccepted, SearchingDriver, DriverAssigned, OnTheWay, Delivered, Completed};
    forall i | 0 <= i < |r|
      ensures r[i].key in eight
    {
      assert CountsAsRevenue(r[i].key);
    }
    DistinctAreFew(r, eight);
  }

  /** There are only eight revenue statuses, so the two screens are never five cents apart. */
  lemma ScreensWithinFourCents(unit: Unit, orders: seq<Sale>, f: Filters, rows: seq<Bucket<Status>>)
    requires f.status.None? && IsGroupBy(unit, Scoped(orders, f, false), StatusOf, rows)
    ensures -4 <= Summarised(rows).revenueTotal - FinancialTotals(unit, orders, f).totals.total <= 4
  {
    ScreensAgree(unit, orders, f, rows);
    FlaggedRowsAreFew(rows);
  }

  // --- with a status filter ----------------------------------------------------------------

  ghost predicate AllHave(xs: seq<Sale>, status: Status) {
    forall i :: 0 <= i < |xs| ==> xs[i].status == status
  }

  lemma AllHaveCons(x: Sale, xs: seq<Sale>, status: Status)
    ensures AllHave([x] + xs, status) <==> x.status == status && AllHave(xs, status)
  {
    assert forall i :: 0 <= i < |xs| ==> ([x] + xs)[i + 1] == xs[i];
    assert AllHave([x] + xs, status) ==> ([x] + xs)[0].status == status;
  }

  lemma {:induction false} FilteredRevenue(orders: seq<Sale>, f: Filters)
    requires f.status.Some?
    ensures var some, all := RevenueOf(Scoped(orders, f, false)), Scoped(orders, f, true);
      |some| <= |all| && (|some| == |all| <==> AllHave(all, f.status.value))
  {
    if orders != [] {
      FilteredRevenue(orders[1..], f);
      var x, rest, all := orders[0], Scoped(orders[1..], f, false), Scoped(orders[1..], f, true);
      assert ([x] + rest)[1..] == rest && [] + rest == rest && [] + all == all;
      AllHaveCons(x, all, f.status.value);
    }
  }

  /**
   The financial report ignores the status filter, the summary does not: with one, their counts
   agree exactly when every revenue order in scope already has that status.
   */
  lemma StatusFilterAgreesIff(unit: Unit, orders: seq<Sale>, f: Filters, rows: seq<Bucket<Status>>)
    requires f.status.Some? && IsGroupBy(unit, Scoped(orders, f, false), StatusOf, rows)
    ensures Summarised(rows).revenueOrderCount == FinancialTotals(unit, orders, f).orderCount <==>
            AllHave(Scoped(orders, f, true), f.status.value)
  {
    FlaggedRowsAgree(unit, Scoped(orders, f, false), rows);
    FilteredRevenue(orders, f);
  }

  // --- the period --------------------------------------------------------------------------

  /** The half-open bounds are the inclusive days: an order placed at any time of the last day counts. */
  lemma RangeIsInclusive(r: Range, createdAt: int)
    ensures r.from * DAY <= createdAt < (r.to + 1) * DAY <==> r.from <= createdAt / DAY <= r.to
  {}

  /** A period is accepted exactly when both days are dates, in order, at most a year and a day apart. */
  lemma AcceptedRanges(from: Day, to: Day)
    ensures ParseRange(from, to).Parsed? <==>
            from.Day? && to.Day? && from.n <= to.n <= from.n + 365
    ensures ParseRange(from, to).Parsed? ==> ParseRange(from, to) == Parsed(Range(from.n, to.n))
    ensures ParseRange(from, to).BadRange? ==>
              ParseRange(from, to) == if from.Day? && to.Day? then BadRange(false, true) else BadRange(!from.Day?, !to.Day?)
  {}
}
