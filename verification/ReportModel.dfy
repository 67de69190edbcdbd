/**
 The reports: which orders a query counts, what a GROUP BY returns, and the roll-ups shown on the
 two screens.  Money is held exactly, in units of which `unit` make one cent; every SQL sum is
 added exactly and then rounded to cents.
 */
module ReportModel {
  import opened Options
  import opened OrderModel

  type Unit = n: nat | n > 0 witness 1

  datatype PaymentMethod = Cash | Qris | Transfer
  datatype Column = SubTotal | DiscountEvent | DiscountVoucher | Shipping | Total
  datatype Money = Money(subTotal: int, discountEvent: int, discountVoucher: int, shipping: int, total: int)

  /** `createdAt` is in seconds; a removed order keeps its row. */
  datatype Sale = Sale(
    status: Status, createdAt: int, shop: nat, paidBy: PaymentMethod, deleted: bool, amounts: Money)

  function Cell(m: Money, c: Column): int {
    match c
    case SubTotal => m.subTotal
    case DiscountEvent => m.discountEvent
    case DiscountVoucher => m.discountVoucher
    case Shipping => m.shipping
    case Total => m.total
  }

  // --- filters -----------------------------------------------------------------------------

  const DAY := 86_400
  const MAX_RANGE_DAYS := 366

  /** An inclusive period of calendar days, as day numbers. */
  datatype Range = Range(from: int, to: int)
  datatype Filters = Filters(
    range: Range, status: Option<Status>, shop: Option<nat>, paymentMethod: Option<PaymentMethod>)

  datatype Day = Missing | Malformed | Day(n: int)
  datatype ParsedRange = Parsed(range: Range) | BadRange(from: bool, to: bool)

  function Days(r: Range): int {
    r.to - r.from + 1
  }

  /** Both days are required; the fields at fault are named. */
  function ParseRange(from: Day, to: Day): ParsedRange {
    if !from.Day? || !to.Day? then BadRange(!from.Day?, !to.Day?)
    else if to.n < from.n || Days(Range(from.n, to.n)) > MAX_RANGE_DAYS then BadRange(false, true)
    else Parsed(Range(from.n, to.n))
  }

  /** The WHERE clause; a revenue query ignores the status filter. */
  predicate Matches(f: Filters, revenueOnly: bool, o: Sale) {
    && !o.deleted
    && f.range.from * DAY <= o.createdAt < (f.range.to + 1) * DAY
    && (if revenueOnly then CountsAsRevenue(o.status) else f.status.Some? ==> o.status == f.status.value)
    && (f.shop.Some? ==> o.shop == f.shop.value)
    && (f.paymentMethod.Some? ==> o.paidBy == f.paymentMethod.value)
  }

  function Scoped(orders: seq<Sale>, f: Filters, revenueOnly: bool): seq<Sale> {
    if orders == [] then []
    else (if Matches(f, revenueOnly, orders[0]) then [orders[0]] else []) + Scoped(orders[1..], f, revenueOnly)
  }

  // --- aggregates --------------------------------------------------------------------------

  function Sum(xs: seq<Sale>, c: Column): int {
    if xs == [] then 0 else Cell(xs[0].amounts, c) + Sum(xs[1..], c)
  }

  /** Half a cent rounds away from zero, as numeric values do. */
  function Round(unit: Unit, x: int): int {
    if x >= 0 then (2 * x + unit) / (2 * unit) else -((-2 * x + unit) / (2 * unit))
  }

  function Aggregate(unit: Unit, xs: seq<Sale>): Money {
    Money(Round(unit, Sum(xs, SubTotal)), Round(unit, Sum(xs, DiscountEvent)), Round(unit, Sum(xs, DiscountVoucher)),
          Round(unit, Sum(xs, Shipping)), Round(unit, Sum(xs, Total)))
  }

  function Group<K(==)>(xs: seq<Sale>, key: Sale -> K, k: K): seq<Sale> {
    if xs == [] then []
    else (if key(xs[0]) == k then [xs[0]] else []) + Group(xs[1..], key, k)
  }

  datatype Bucket<K> = Bucket(key: K, count: int, sums: Money)

  ghost predicate DistinctKeys<K>(rows: seq<Bucket<K>>) {
    forall i, j :: 0 <= i < j < |rows| ==> rows[i].key != rows[j].key
  }

  ghost predicate HasKey<K>(rows: seq<Bucket<K>>, k: K) {
    exists i :: 0 <= i < |rows| && rows[i].key == k
  }

  ghost predicate IsBucketOf<K>(unit: Unit, xs: seq<Sale>, key: Sale -> K, row: Bucket<K>) {
    var group := Group(xs, key, row.key);
    group != [] && row.count == |group| && row.sums == Aggregate(unit, group)
  }

  /** Any order of rows a GROUP BY may return: one for each key present. */
  ghost predicate IsGroupBy<K>(unit: Unit, xs: seq<Sale>, key: Sale -> K, rows: seq<Bucket<K>>) {
    && DistinctKeys(rows)
    && (forall i :: 0 <= i < |rows| ==> IsBucketOf(unit, xs, key, rows[i]))
    && (forall i :: 0 <= i < |xs| ==> HasKey(rows, key(xs[i])))
  }

  function StatusOf(o: Sale): Status {
    o.status
  }

  // --- roll-ups ----------------------------------------------------------------------------

  function CountOf<K>(rows: seq<Bucket<K>>): int {
    if rows == [] then 0 else CountOf(rows[..|rows| - 1]) + rows[|rows| - 1].count
  }

  function TotalOf<K>(rows: seq<Bucket<K>>, c: Column): int {
    if rows == [] then 0 else TotalOf(rows[..|rows| - 1], c) + Cell(rows[|rows| - 1].sums, c)
  }

  function RevenueBuckets(rows: seq<Bucket<Status>>): seq<Bucket<Status>> {
    if rows == [] then []
    else
      var last := rows[|rows| - 1];
      RevenueBuckets(rows[..|rows| - 1]) + if CountsAsRevenue(last.key) then [last] else []
  }

  datatype Summary = Summary(orderCount: int, total: int, revenueOrderCount: int, revenueTotal: int)

  function Summarised(rows: seq<Bucket<Status>>): Summary {
    Summary(CountOf(rows), TotalOf(rows, Total), CountOf(RevenueBuckets(rows)), TotalOf(RevenueBuckets(rows), Total))
  }

  /** The whole-period totals beside the revenue series. */
  datatype Financial = Financial(orderCount: int, totals: Money)

  function FinancialTotals(unit: Unit, orders: seq<Sale>, f: Filters): Financial {
    var xs := Scoped(orders, f, true);
    Financial(|xs|, Aggregate(unit, xs))
  }
}
