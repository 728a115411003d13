/**
 * The revenue-growth bar chart: `revenue` summed per month abbreviation in
 * Jan..Dec order, then turned into month-over-month percentage change.
 */
module BarChart {
  import opened Reports
  import opened MonthlyAggregation

  /**
   * The growth from `previous` to `current` in percent; a falsy (zero)
   * previous value gives 0 rather than an infinite rate.
   */
  function Rate(previous: real, current: real): (r: real)
    ensures previous == 0.0 ==> r == 0.0
    ensures previous != 0.0 ==> previous * (1.0 + r / 100.0) == current
    ensures previous > 0.0 ==> (r > 0.0 <==> current > previous) && (r < 0.0 <==> current < previous)
  {
    if previous != 0.0 then (current - previous) / previous * 100.0 else 0.0
  }

  /** The `map` over the aggregated revenues: the first month has no prior month and gets 0. */
  function GrowthRates(values: seq<real>): (rates: seq<real>)
    ensures |rates| == |values|
    ensures |values| > 0 ==> rates[0] == 0.0
    ensures forall i :: 0 < i < |values| ==> rates[i] == Rate(values[i - 1], values[i])
  {
    seq(|values|, i requires 0 <= i < |values| => if i == 0 then 0.0 else Rate(values[i - 1], values[i]))
  }

  /**
   * Where no month's revenue is zero, the rates and the first month's revenue
   * give back every month's revenue.
   */
  lemma {:induction false} GrowthRatesRecover(values: seq<real>, i: nat)
    requires i < |values|
    requires forall j :: 0 <= j < |values| ==> values[j] != 0.0
    ensures Rebuild(values[0], GrowthRates(values)[1..i + 1]) == values[i]
  {
    var rates := GrowthRates(values);
    if i > 0 {
      GrowthRatesRecover(values, i - 1);
      var applied := rates[1..i + 1];
      assert applied[..|applied| - 1] == rates[1..i];
      assert applied[|applied| - 1] == rates[i];
      RebuildStep(values[0], applied, values[i - 1], values[i]);
    } else {
      assert rates[1..1] == [];
    }
  }

  /** One more rate applied to the previous month's revenue gives this month's. */
  lemma RebuildStep(start: real, applied: seq<real>, previous: real, current: real)
    requires applied != [] && previous != 0.0
    requires Rebuild(start, applied[..|applied| - 1]) == previous
    requires applied[|applied| - 1] == Rate(previous, current)
    ensures Rebuild(start, applied) == current
  {
  }

  /** Apply the percentage changes `rates` in turn, starting from `start`. */
  function Rebuild(start: real, rates: seq<real>): real {
    if rates == [] then start
    else
      var before := Rebuild(start, rates[..|rates| - 1]);
      before * (1.0 + rates[|rates| - 1] / 100.0)
  }

  lemma GrowthExamples()
    ensures GrowthRates([0.0, 50.0]) == [0.0, 0.0]
    ensures GrowthRates([100.0, 150.0, 75.0]) == [0.0, 50.0, -50.0]
  {
    assert GrowthRates([0.0, 50.0])[1] == Rate(0.0, 50.0) == 0.0;
    assert GrowthRates([100.0, 150.0, 75.0])[1] == Rate(100.0, 150.0) == 50.0;
    assert GrowthRates([100.0, 150.0, 75.0])[2] == Rate(150.0, 75.0) == -50.0;
  }

  /** The chart's labels and growth rates, aligned by month. */
  datatype GrowthSeries = GrowthSeries(labels: seq<string>, growthRates: seq<real>)

  /** Reference definition: the growth rates of the monthly revenue series. */
  function RevenueGrowth(reports: seq<Record>, monthOf: MonthFormat): (g: GrowthSeries)
    ensures |g.labels| == |g.growthRates|
    ensures forall k :: k in g.labels <==> k in MonthOrder && k in MonthKeys(reports, monthOf)
    ensures InMonthOrder(g.labels)
    ensures |g.labels| > 0 ==> g.growthRates[0] == 0.0
    ensures forall i :: 0 < i < |g.labels| ==>
      g.growthRates[i] == Rate(MonthTotal(reports, monthOf, Revenue, g.labels[i - 1]),
                               MonthTotal(reports, monthOf, Revenue, g.labels[i]))
  {
    var s := Aggregate(reports, monthOf, Revenue);
    GrowthSeries(s.labels, GrowthRates(s.values))
  }

  /**
   * The effect body's computation: group revenue by month, keep the
   * canonical months present, read their totals, compute the growth rates.
   */
  method RevenueGrowthSeries(reports: seq<Record>, monthOf: MonthFormat)
    returns (sortedMonths: seq<string>, growthRates: seq<real>)
    ensures GrowthSeries(sortedMonths, growthRates) == RevenueGrowth(reports, monthOf)
  {
    var revenueByMonth := GroupByMonth(reports, monthOf, Revenue);
    var series := Chronological(revenueByMonth);
    ChronologicalTotals(reports, monthOf, Revenue, revenueByMonth);
    sortedMonths := series.labels;
    var aggregatedRevenues := series.values;
    growthRates := GrowthRates(aggregatedRevenues);
  }

  /** The growth chart is the same for every ordering of the same reports. */
  lemma RevenueGrowthPermutation(s: seq<Record>, t: seq<Record>, monthOf: MonthFormat)
    requires multiset(s) == multiset(t)
    ensures RevenueGrowth(s, monthOf) == RevenueGrowth(t, monthOf)
  {
    AggregatePermutation(s, t, monthOf, Revenue);
  }

  /** The growth chart reads only `createdAt` and `revenue`. */
  lemma RevenueGrowthIgnoresOtherFields(s: seq<Record>, t: seq<Record>, monthOf: MonthFormat)
    requires |s| == |t|
    requires forall i :: 0 <= i < |s| ==> s[i].createdAt == t[i].createdAt && s[i].revenue == t[i].revenue
    ensures RevenueGrowth(s, monthOf) == RevenueGrowth(t, monthOf)
  {
    assert AgreeOn(s, t, Revenue);
    AggregateReadsOnly(s, t, monthOf, Revenue);
  }

  /** The component's state: the month labels and growth rates it plots. */
  class RevenueGrowthChart {
    var labels: seq<string>
    var growthRateData: seq<real>

    constructor ()
      ensures labels == [] && growthRateData == []
    {
      labels, growthRateData := [], [];
    }

    /**
     * The effect run when the shared reports or the loading flag change:
     * nothing is replaced while loading or when there are no reports.
     */
    method Refresh(reportsData: seq<Record>, loading: bool, monthOf: MonthFormat)
      modifies this
      ensures !loading && |reportsData| > 0 ==>
        GrowthSeries(labels, growthRateData) == RevenueGrowth(reportsData, monthOf)
      ensures loading || |reportsData| == 0 ==> labels == old(labels) && growthRateData == old(growthRateData)
    {
      if !loading && |reportsData| > 0 {
        labels, growthRateData := RevenueGrowthSeries(reportsData, monthOf);
      }
    }
  }
}
