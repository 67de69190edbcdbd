/** The report service: flagging and rolling up the rows the database grouped. */
module ReportService {
  import opened OrderModel
  import opened ReportModel

  method IsRevenueStatus(status: Status) returns (counts: bool)
    ensures counts == CountsAsRevenue(status)
  {
    for i := 0 to |REVENUE_STATUSES|
      invariant status !in REVENUE_STATUSES[..i]
    {
      if REVENUE_STATUSES[i] == status {
        return true;
      }
    }
    counts := false;
  }

  /** One pass over the per-status rows. */
  method Summarise(rows: seq<Bucket<Status>>) returns (summary: Summary)
    ensures summary == Summarised(rows)
  {
    summary := Summary(0, 0, 0, 0);
    for i := 0 to |rows|
      invariant summary == Summarised(rows[..i])
    {
      assert rows[..i + 1][..i] == rows[..i];
      SummarisedOneMore(rows[..i], rows[i]);
      assert rows[..i] + [rows[i]] == rows[..i + 1];
      var row := rows[i];
      summary := summary.(orderCount := summary.orderCount + row.count, total := summary.total + row.sums.total);
      var counts := IsRevenueStatus(row.key);
      if counts {
        summary := summary.(
          revenueOrderCount := summary.revenueOrderCount + row.count,
          revenueTotal := summary.revenueTotal + row.sums.total);
      }
    }
    assert rows[..|rows|] == rows;
  }

  lemma SummarisedOneMore(rows: seq<Bucket<Status>>, row: Bucket<Status>)
    ensures var before, after := Summarised(rows), Summarised(rows + [row]);
      && after.orderCount == before.orderCount + row.count && after.total == before.total + row.sums.total
      && after.revenueOrderCount == before.revenueOrderCount + (if CountsAsRevenue(row.key) then row.count else 0)
      && after.revenueTotal == before.revenueTotal + (if CountsAsRevenue(row.key) then row.sums.total else 0)
  {
    assert (rows + [row])[..|rows|] == rows;
    var r := RevenueBuckets(rows);
    assert (r + [row])[..|r|] == r && r + [] == r;
  }
}
