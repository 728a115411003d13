/**
 * The gross-burn line chart: the reports' `grossBurn`, summed per month
 * abbreviation and listed in Jan..Dec order.
 */
module LineChart {
  import opened Reports
  import opened MonthlyAggregation

  /**
   * The effect body's computation: group the reports by month into the
   * dictionary, keep the canonical months present, read their totals.
   */
  method BurnRateSeries(reports: seq<Record>, monthOf: MonthFormat)
    returns (labels: seq<string>, burnRateData: seq<real>)
    ensures |labels| == |burnRateData|
    ensures forall k :: k in labels <==> k in MonthOrder && k in MonthKeys(reports, monthOf)
    ensures InMonthOrder(labels)
    ensures forall i :: 0 <= i < |labels| ==> burnRateData[i] == MonthTotal(reports, monthOf, GrossBurn, labels[i])
    ensures Series(labels, burnRateData) == Aggregate(reports, monthOf, GrossBurn)
  {
    var monthData := GroupByMonth(reports, monthOf, GrossBurn);
    var series := Chronological(monthData);
    ChronologicalTotals(reports, monthOf, GrossBurn, monthData);
    labels := series.labels;
    burnRateData := series.values;
  }

  /** The burn series is the same for every ordering of the same reports. */
  lemma BurnRatePermutation(s: seq<Record>, t: seq<Record>, monthOf: MonthFormat)
    requires multiset(s) == multiset(t)
    ensures Aggregate(s, monthOf, GrossBurn) == Aggregate(t, monthOf, GrossBurn)
  {
    AggregatePermutation(s, t, monthOf, GrossBurn);
  }

  /**
   * The burn series reads only `createdAt` and `grossBurn`: reports that differ
   * in revenue, margin, net burn or cash give the same series.
   */
  lemma BurnRateIgnoresOtherFields(s: seq<Record>, t: seq<Record>, monthOf: MonthFormat)
    requires |s| == |t|
    requires forall i :: 0 <= i < |s| ==> s[i].createdAt == t[i].createdAt && s[i].grossBurn == t[i].grossBurn
    ensures Aggregate(s, monthOf, GrossBurn) == Aggregate(t, monthOf, GrossBurn)
  {
    assert AgreeOn(s, t, GrossBurn);
    AggregateReadsOnly(s, t, monthOf, GrossBurn);
  }

  /** The component's state: the chart's labels and data and its loading flag. */
  class BurnRateChart {
    var labels: seq<string>
    var burnRateData: seq<real>
    var loading: bool

    constructor ()
      ensures labels == [] && burnRateData == [] && loading
    {
      labels, burnRateData, loading := [], [], true;
    }

    /**
     * The effect run when the shared reports change: with reports, the
     * series is replaced; with none, labels and data keep what they had.
     * Either way loading ends.
     */
    method Refresh(reportsData: seq<Record>, monthOf: MonthFormat)
      modifies this
      ensures !loading
      ensures |reportsData| > 0 ==> Series(labels, burnRateData) == Aggregate(reportsData, monthOf, GrossBurn)
      ensures |reportsData| == 0 ==> labels == old(labels) && burnRateData == old(burnRateData)
    {
      if |reportsData| > 0 {
        labels, burnRateData := BurnRateSeries(reportsData, monthOf);
      }
      loading := false;
    }
  }
}
