/**
 * The four charts fed the same two reports, both of January but of
 * different years (the instants are milliseconds, 365 days apart). The first
 * has revenue 100, gross burn 80, margin 90, net burn -50 and cash 500; the
 * later one has revenue 50, gross burn 40, margin 30, net burn 10 and no
 * cash-flow object.
 */
module DashboardScenario {
  import opened Reports
  import opened MonthlyAggregation
  import opened BarChart
  import opened GaugeChart
  import opened DoughnutChart

  const Earlier: Record := Record(0, 100.0, 80.0, Some(-50.0), Some(90.0), Some(CashFlow(Some(500.0))))
  const Later: Record := Record(31536000000, 50.0, 40.0, Some(10.0), Some(30.0), None)

  lemma {:induction false} TwoJanuaries(reports: seq<Record>, monthOf: MonthFormat)
    requires reports == [Earlier, Later]
    requires monthOf(Earlier.createdAt) == monthOf(Later.createdAt) == "Jan"
    ensures RevenueGrowth(reports, monthOf).labels == ["Jan"]
    ensures Aggregate(reports, monthOf, Revenue).values[0] == 150.0
    ensures RevenueGrowth(reports, monthOf).growthRates == [0.0]
    ensures Aggregate(reports, monthOf, GrossBurn).labels == ["Jan"]
    ensures Aggregate(reports, monthOf, GrossBurn).values[0] == 120.0
    ensures forall i :: 0 <= i < |reports| ==> Later.createdAt >= reports[i].createdAt
    ensures FirstNewest(reports) == 1
    ensures Gauge(FinalCash(Later), NetBurn(Later)) == 100
    ensures Count(reports, From81) == 1 && Count(reports, From61) == 0 && Count(reports, From41) == 0
         && Count(reports, From21) == 1 && Count(reports, Below21) == 0
  {
    YearsCollapse(reports, monthOf, Revenue);
    YearsCollapse(reports, monthOf, GrossBurn);
    var g := RevenueGrowth(reports, monthOf).growthRates;
    assert |g| == 1 && g[0] == 0.0;
    assert g == [g[0]];
    assert reports[..1] == [Earlier] && [Earlier][..0] == [];
  }
}
