/** Which orders the reports count, what their totals add up, and how they are rounded. */
module ReportScope {
  import opened Options
  import opened OrderModel
  import opened ReportModel
  import opened ReportTheorems

  // --- which orders count ------------------------------------------------------------------

  /** The sale was made: paid for, and not reversed since. */
  predicate IsMade(s: Status) {
    s !in [Draft, WaitingPayment, StoreRejected, Canceled]
  }

  /** A kept order of one of the period's calendar days, in the shop and by the means asked for. */
  predicate Counted(f: Filters, revenueOnly: bool, o: Sale) {
    && !o.deleted
    && f.range.from <= o.createdAt / 86_400 <= f.range.to
    && f.shop in [None, Some(o.shop)] && f.paymentMethod in [None, Some(o.paidBy)]
    && if revenueOnly then IsMade(o.status) else f.status in [None, Some(o.status)]
  }

  lemma RevenueIsMade(s: Status)
    ensures CountsAsRevenue(s) <==> IsMade(s)
  {
    var r := REVENUE_STATUSES;
    assert r[0] == Paid && r[1] == WaitingStore && r[2] == StoreAccepted && r[3] == SearchingDriver;
    assert r[4] == DriverAssigned && r[5] == OnTheWay && r[6] == Delivered && r[7] == Completed;
  }

  lemma MatchesIff(f: Filters, revenueOnly: bool, o: Sale)
    ensures Matches(f, revenueOnly, o) <==> Counted(f, revenueOnly, o)
  {
    RevenueIsMade(o.status);
    assert f.shop.Some? ==> (Some(o.shop) == f.shop <==> o.shop == f.shop.value);
    assert f.paymentMethod.Some? ==> (Some(o.paidBy) == f.paymentMethod <==> o.paidBy == f.paymentMethod.value);
  }

  /** The queries see each order that counts as often as it is there, and no other. */
  lemma {:induction false} ScopedCounts(orders: seq<Sale>, f: Filters, revenueOnly: bool, o: Sale)
    ensures multiset(Scoped(orders, f, revenueOnly))[o] == if Counted(f, revenueOnly, o) then multiset(orders)[o] else 0
  {
    if orders != [] {
      ScopedCounts(orders[1..], f, revenueOnly, o);
      MatchesIff(f, revenueOnly, orders[0]);
      assert orders == [orders[0]] + orders[1..];
    }
  }

  // --- totals ------------------------------------------------------------------------------

  function SumOf(xs: seq<Sale>, amount: Sale -> int): int {
    if xs == [] then 0 else amount(xs[0]) + SumOf(xs[1..], amount)
  }

  function SubTotalOf(o: Sale): int {
    o.amounts.subTotal
  }

  function EventDiscountOf(o: Sale): int {
    o.amounts.discountEvent
  }

  function VoucherDiscountOf(o: Sale): int {
    o.amounts.discountVoucher
  }

  function ShippingOf(o: Sale): int {
    o.amounts.shipping
  }

  function TotalPaidOf(o: Sale): int {
    o.amounts.total
  }

  lemma {:induction false} ColumnsAreSums(xs: seq<Sale>)
    ensures Sum(xs, SubTotal) == SumOf(xs, SubTotalOf)
    ensures Sum(xs, DiscountEvent) == SumOf(xs, EventDiscountOf)
    ensures Sum(xs, DiscountVoucher) == SumOf(xs, VoucherDiscountOf)
    ensures Sum(xs, Shipping) == SumOf(xs, ShippingOf)
    ensures Sum(xs, Total) == SumOf(xs, TotalPaidOf)
  {
    if xs != [] { ColumnsAreSums(xs[1..]); }
  }

  function Abs(x: int): nat {
    if x < 0 then -x else x
  }

  /** `cents` is the nearest number of cents to the amount; of two equally near, the one further from zero. */
  predicate IsNearest(unit: Unit, amount: int, cents: int) {
    var over := unit * cents - amount;
    2 * Abs(over) < unit || (2 * Abs(over) == unit && Abs(amount) < Abs(unit * cents))
  }

  lemma HalfUp(unit: Unit, x: nat)
    ensures var cents := (2 * x + unit) / (2 * unit);
      cents >= 0 && -(unit as int) < 2 * (unit * cents - x) <= unit
  {
    var cents, rest := (2 * x + unit) / (2 * unit), (2 * x + unit) % (2 * unit);
    assert 2 * x + unit == 2 * unit * cents + rest;
    assert 2 * unit * cents == 2 * (unit * cents);
  }

  lemma TimesNegative(unit: Unit, cents: int)
    ensures unit * -cents == -(unit * cents)
  {}

  lemma TimesNonNegative(unit: Unit, cents: int)
    requires cents >= 0
    ensures unit * cents >= 0
  {}

  lemma RoundIsNearest(unit: Unit, x: int)
    ensures IsNearest(unit, x, Round(unit, x))
  {
    HalfUp(unit, Abs(x));
    var cents := (2 * Abs(x) + unit) / (2 * unit);
    TimesNonNegative(unit, cents);
    if x < 0 {
      TimesNegative(unit, cents);
      assert Round(unit, x) == -cents;
    } else {
      assert Round(unit, x) == cents;
    }
  }

  /** Each total of the financial report is the nearest number of cents to the exact sum of its own column. */
  lemma TotalsAreSums(unit: Unit, orders: seq<Sale>, f: Filters)
    ensures var counted := Scoped(orders, f, true);
      var report := FinancialTotals(unit, orders, f);
      && report.orderCount == |counted|
      && IsNearest(unit, SumOf(counted, SubTotalOf), report.totals.subTotal)
      && IsNearest(unit, SumOf(counted, EventDiscountOf), report.totals.discountEvent)
      && IsNearest(unit, SumOf(counted, VoucherDiscountOf), report.totals.discountVoucher)
      && IsNearest(unit, SumOf(counted, ShippingOf), report.totals.shipping)
      && IsNearest(unit, SumOf(counted, TotalPaidOf), report.totals.total)
  {
    var counted := Scoped(orders, f, true);
    ColumnsAreSums(counted);
    RoundIsNearest(unit, Sum(counted, SubTotal));
    RoundIsNearest(unit, Sum(counted, DiscountEvent));
    RoundIsNearest(unit, Sum(counted, DiscountVoucher));
    RoundIsNearest(unit, Sum(counted, Shipping));
    RoundIsNearest(unit, Sum(counted, Total));
  }

  /** The summary's figures for all orders: their number, and the sum of their totals to half a cent per rounding. */
  lemma SummaryAddsUp(unit: Unit, orders: seq<Sale>, f: Filters, rows: seq<Bucket<Status>>)
    requires IsGroupBy(unit, Scoped(orders, f, false), StatusOf, rows)
    ensures var counted := Scoped(orders, f, false);
      var exact := SumOf(counted, TotalPaidOf);
      && Summarised(rows).orderCount == |counted|
      && exists cents: int :: IsNearest(unit, exact, cents) &&
           2 * Abs(Summarised(rows).total - cents) <= Slack(unit, counted, Total, |rows| + 1)
  {
    var counted := Scoped(orders, f, false);
    RollUpAgrees(unit, counted, StatusOf, rows, Total);
    ColumnsAreSums(counted);
    RoundIsNearest(unit, Sum(counted, Total));
    assert IsNearest(unit, SumOf(counted, TotalPaidOf), Aggregate(unit, counted).total);
  }

  // --- what a GROUP BY may return ----------------------------------------------------------

  lemma {:induction false} GroupGrows<K>(xs: seq<Sale>, x: Sale, key: Sale -> K, k: K)
    ensures Group(xs + [x], key, k) == Group(xs, key, k) + if key(x) == k then [x] else []
    decreases |xs|
  {
    if xs == [] {
      assert [] + [x] == [x] && [x][1..] == [];
    } else {
      var more := xs + [x];
      assert more[0] == xs[0] && more[1..] == xs[1..] + [x];
      GroupGrows(xs[1..], x, key, k);
      var first, rest, last := if key(xs[0]) == k then [xs[0]] else [], Group(xs[1..], key, k), if key(x) == k then [x] else [];
      assert Group(xs, key, k) == first + rest && Group(more, key, k) == first + (rest + last);
    }
  }

  function BucketFor<K(==)>(unit: Unit, xs: seq<Sale>, key: Sale -> K, k: K): Bucket<K> {
    Bucket(k, |Group(xs, key, k)|, Aggregate(unit, Group(xs, key, k)))
  }

  /** The keys that occur, each once, in the order of their first row. */
  function KeysOf<K(==)>(xs: seq<Sale>, key: Sale -> K): seq<K> {
    if xs == [] then []
    else
      var before := KeysOf(xs[..|xs| - 1], key);
      if key(xs[|xs| - 1]) in before then before else before + [key(xs[|xs| - 1])]
  }

  lemma {:induction false} KeysOccur<K>(xs: seq<Sale>, key: Sale -> K)
    ensures var keys := KeysOf(xs, key);
      && (forall i, j :: 0 <= i < j < |keys| ==> keys[i] != keys[j])
      && (forall i :: 0 <= i < |keys| ==> Group(xs, key, keys[i]) != [])
      && (forall i :: 0 <= i < |xs| ==> key(xs[i]) in keys)
  {
    if xs != [] {
      var n := |xs| - 1;
      KeysOccur(xs[..n], key);
      var keys := KeysOf(xs, key);
      assert xs == xs[..n] + [xs[n]];
      forall i | 0 <= i < |keys|
        ensures Group(xs, key, keys[i]) != []
      {
        GroupGrows(xs[..n], xs[n], key, keys[i]);
      }
    }
  }

  /** Every selection can be grouped, in as many rows as it has keys: what the roll-ups assume is always there. */
  lemma GroupsExist<K>(unit: Unit, xs: seq<Sale>, key: Sale -> K) returns (rows: seq<Bucket<K>>)
    ensures IsGroupBy(unit, xs, key, rows)
    ensures |rows| == |KeysOf(xs, key)|
  {
    var keys := KeysOf(xs, key);
    KeysOccur(xs, key);
    rows := seq(|keys|, i requires 0 <= i < |keys| => BucketFor(unit, xs, key, keys[i]));
    forall i | 0 <= i < |xs|
      ensures HasKey(rows, key(xs[i]))
    {
      var j :| 0 <= j < |keys| && keys[j] == key(xs[i]);
      assert rows[j].key == key(xs[i]);
    }
  }
}
