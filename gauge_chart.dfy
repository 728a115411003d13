/**
 * The cash-runway gauge: the latest report's cash balance divided by its
 * monthly net burn, as a share of a 12-month horizon, clamped to 0..100 and
 * rounded.
 */
module GaugeChart {
  import opened Reports

  /** `latestReport?.cashFlow?.finalCashBalance ?? 0`. */
  function FinalCash(r: Record): (cash: real)
    ensures r.cashFlow.Some? && r.cashFlow.value.finalCashBalance.Some? ==> cash == r.cashFlow.value.finalCashBalance.value
    ensures r.cashFlow.None? || r.cashFlow.value.finalCashBalance.None? ==> cash == 0.0
  {
    match r.cashFlow
    case None => 0.0
    case Some(flow) => flow.finalCashBalance.GetOr(0.0)
  }

  /** `latestReport?.netBurn ?? 0`. */
  function NetBurn(r: Record): (burn: real)
    ensures r.netBurn.Some? ==> burn == r.netBurn.value
    ensures r.netBurn.None? ==> burn == 0.0
  {
    r.netBurn.GetOr(0.0)
  }

  function Abs(x: real): (a: real)
    ensures a >= 0.0 && (a == x || a == -x)
  {
    if x < 0.0 then -x else x
  }

  /** `Math.round`: the nearest integer, halves rounded up. */
  function Round(x: real): (n: int)
    ensures n as real - 0.5 <= x < n as real + 0.5
  {
    (x + 0.5).Floor
  }

  /** How long the cash lasts: a number of months, or unbounded when nothing is burnt. */
  datatype Runway = Months(months: real) | Unbounded

  /** The gauge's horizon in months and its scale. */
  const HorizonMonths: real := 12.0
  const GaugeMax: real := 100.0

  /**
   * Reference definition of the gauge: 100 when the net burn is not negative
   * (the runway is unbounded); otherwise the runway as a percentage of the
   * horizon, kept within 0..100, rounded to the nearest integer.
   */
  function Gauge(finalCash: real, netBurn: real): (g: int)
    ensures 0 <= g <= 100
    ensures netBurn >= 0.0 ==> g == 100
    ensures netBurn < 0.0 ==>
      var percent := finalCash / -netBurn / 12.0 * 100.0;
      && (0.0 <= percent <= 100.0 ==> percent - 0.5 < g as real <= percent + 0.5)
      && (percent < 0.0 ==> g == 0)
      && (percent > 100.0 ==> g == 100)
  {
    if netBurn < 0.0 then
      var percent := finalCash / Abs(netBurn) / HorizonMonths * GaugeMax;
      Round(if percent < 0.0 then 0.0 else if percent > GaugeMax then GaugeMax else percent)
    else 100
  }

  /**
   * The effect's step-by-step computation: the runway, then the gauge value
   * reassigned through the two clamps, then rounding.
   */
  method RunwayPercentage(finalCash: real, netBurn: real) returns (percentage: int)
    ensures 0 <= percentage <= 100
    ensures percentage == Gauge(finalCash, netBurn)
  {
    var runwayMonths: Runway;
    if netBurn < 0.0 {
      runwayMonths := Months(finalCash / Abs(netBurn));
    } else {
      runwayMonths := Unbounded;
    }
    var gaugeValue: real;
    if runwayMonths.Unbounded? {
      gaugeValue := 100.0;
    } else {
      gaugeValue := runwayMonths.months / HorizonMonths * GaugeMax;
      if gaugeValue < 0.0 {
        gaugeValue := 0.0;
      }
      if gaugeValue > 100.0 {
        gaugeValue := 100.0;
      }
    }
    percentage := Round(gaugeValue);
  }

  /** A negative cash balance while burning empties the gauge. */
  lemma NegativeCashEmptiesGauge(finalCash: real, netBurn: real)
    requires finalCash < 0.0 && netBurn < 0.0
    ensures Gauge(finalCash, netBurn) == 0
  {
    var d := Abs(netBurn);
    assert finalCash / d < 0.0;
  }

  /** For a fixed burn, more cash never lowers the gauge. */
  lemma GaugeMonotoneInCash(cash1: real, cash2: real, netBurn: real)
    requires cash1 <= cash2 && netBurn < 0.0
    ensures Gauge(cash1, netBurn) <= Gauge(cash2, netBurn)
  {
    var d := Abs(netBurn);
    assert cash1 / d <= cash2 / d;
  }

  lemma GaugeExamples()
    ensures Gauge(600.0, -100.0) == 50
    ensures Gauge(1000.0, -10.0) == 100
    ensures Gauge(500.0, 0.0) == 100
  {
    assert 600.0 / Abs(-100.0) / HorizonMonths * GaugeMax == 50.0;
  }

  /** `b.createdAt - a.createdAt` as the comparator orders: newest first. */
  ghost predicate NewestFirst(s: seq<Record>) {
    forall p, q :: 0 <= p < q < |s| ==> s[p].createdAt >= s[q].createdAt
  }

  method Swap(a: array<Record>, i: int, j: int)
    requires 0 <= i < a.Length && 0 <= j < a.Length
    modifies a
    ensures a[i] == old(a[j]) && a[j] == old(a[i])
    ensures forall m :: 0 <= m < a.Length && m != i && m != j ==> a[m] == old(a[m])
    ensures multiset(a[..]) == old(multiset(a[..]))
  {
    a[i], a[j] := a[j], a[i];
  }

  /**
   * The position of the first report, in list order, with the latest
   * `createdAt`: the report a stable newest-first sort brings to the front.
   */
  function FirstNewest(s: seq<Record>): (m: nat)
    requires |s| > 0
    ensures m < |s|
    ensures forall i :: 0 <= i < |s| ==> s[m].createdAt >= s[i].createdAt
    ensures forall i :: 0 <= i < m ==> s[i].createdAt < s[m].createdAt
  {
    if |s| == 1 then 0
    else
      var m := FirstNewest(s[..|s| - 1]);
      if s[|s| - 1].createdAt > s[m].createdAt then |s| - 1 else m
  }

  /** The first newest report of a longer prefix: the new report only if it is strictly newer. */
  lemma FirstNewestSnoc(s: seq<Record>, n: nat)
    requires 0 < n < |s|
    ensures FirstNewest(s[..n + 1])
         == if s[n].createdAt > s[FirstNewest(s[..n])].createdAt then n else FirstNewest(s[..n])
  {
    assert s[..n + 1][..n] == s[..n];
  }

  /** Among reports sharing the latest instant, the earliest in the list wins. */
  lemma TieGoesToFirst(s: seq<Record>)
    requires |s| == 2 && s[0].createdAt == s[1].createdAt
    ensures FirstNewest(s) == 0
  {
  }

  /**
   * `t[..i + 1]` is `s[..i + 1]` with `s[i]` moved back to position `j`,
   * past only reports strictly older than it and stopping at one that is not.
   */
  ghost predicate InsertedAt(s: seq<Record>, t: seq<Record>, i: int, j: int)
    requires 0 <= j <= i < |s| == |t|
  {
    && t[j] == s[i]
    && (forall q :: 0 <= q < j ==> t[q] == s[q])
    && (forall q :: j < q <= i ==> t[q] == s[q - 1] && t[q].createdAt < t[j].createdAt)
    && (j > 0 ==> t[j - 1].createdAt >= t[j].createdAt)
  }

  /** Inserting into a newest-first prefix that way keeps it newest-first. */
  lemma InsertedSorted(s: seq<Record>, t: seq<Record>, i: int, j: int)
    requires 0 <= j <= i < |s| == |t|
    requires NewestFirst(s[..i]) && InsertedAt(s, t, i, j)
    ensures NewestFirst(t[..i + 1])
  {
    forall p, q | 0 <= p < q <= i ensures t[p].createdAt >= t[q].createdAt {
      if q < j {
        assert s[..i][p] == t[p] && s[..i][q] == t[q];
      } else if q == j {
        assert s[..i][p] == t[p] && s[..i][j - 1] == t[j - 1];
      } else if p < j {
        assert s[..i][p] == t[p] && s[..i][q - 1] == t[q];
      } else if p > j {
        assert s[..i][p - 1] == t[p] && s[..i][q - 1] == t[q];
      }
    }
  }

  /**
   * One pass of the sort: `a[i]` moves forward past every strictly older
   * report and stops behind the first report that is not older, so it never
   * overtakes a report with the same instant and the others keep their order.
   */
  method InsertNewest(a: array<Record>, i: int) returns (j: int)
    requires 0 <= i < a.Length && NewestFirst(a[..i])
    modifies a
    ensures 0 <= j <= i && InsertedAt(old(a[..]), a[..], i, j)
    ensures NewestFirst(a[..i + 1])
    ensures multiset(a[..]) == old(multiset(a[..]))
    ensures forall k :: i < k < a.Length ==> a[k] == old(a[k])
  {
    j := i;
    while j > 0 && a[j - 1].createdAt < a[j].createdAt
      invariant 0 <= j <= i && a[j] == old(a[i])
      invariant forall q :: 0 <= q < j ==> a[q] == old(a[q])
      invariant forall q :: j < q <= i ==> a[q] == old(a[q - 1]) && a[q].createdAt < a[j].createdAt
      invariant forall k :: i < k < a.Length ==> a[k] == old(a[k])
      invariant multiset(a[..]) == old(multiset(a[..]))
    {
      Swap(a, j - 1, j);
      j := j - 1;
    }
    assert InsertedAt(old(a[..]), a[..], i, j);
    InsertedSorted(old(a[..]), a[..], i, j);
  }

  /** After a pass, the front is the first newest report of the longer prefix. */
  lemma FrontAfterInsert(original: seq<Record>, before: seq<Record>, after: seq<Record>, i: int, j: int)
    requires 0 <= j <= i && 0 < i < |original| == |before| == |after|
    requires NewestFirst(before[..i]) && before[i] == original[i]
    requires before[0] == original[FirstNewest(original[..i])]
    requires InsertedAt(before, after, i, j)
    ensures after[0] == original[FirstNewest(original[..i + 1])]
  {
    FirstNewestSnoc(original, i);
    if j > 0 {
      assert before[..i][0] == before[0] && before[..i][j - 1] == before[j - 1];
    } else {
      assert after[1] == before[0];
    }
  }

  /**
   * `reportsData.sort(...)`: reorders the shared array in place, newest
   * report first. Among the newest reports the one listed first ends up at
   * the front.
   */
  method SortNewestFirst(a: array<Record>)
    modifies a
    ensures NewestFirst(a[..])
    ensures multiset(a[..]) == old(multiset(a[..]))
    ensures a.Length > 0 ==> a[0] == old(a[..])[FirstNewest(old(a[..]))]
  {
    ghost var original := a[..];
    var i := 0;
    while i < a.Length
      invariant 0 <= i <= a.Length
      invariant NewestFirst(a[..i])
      invariant multiset(a[..]) == multiset(original)
      invariant forall k :: i <= k < a.Length ==> a[k] == original[k]
      invariant i > 0 ==> a[0] == original[FirstNewest(original[..i])]
    {
      ghost var before := a[..];
      var j := InsertNewest(a, i);
      if i == 0 {
        assert original[..1] == [original[0]];
      } else {
        FrontAfterInsert(original, before, a[..], i, j);
      }
      i := i + 1;
    }
    assert a[..] == a[..a.Length];
  }

  /** The report the gauge reads: the first after sorting, the first of the newest. */
  method LatestReport(a: array<Record>) returns (latest: Record)
    requires a.Length > 0
    modifies a
    ensures NewestFirst(a[..]) && multiset(a[..]) == old(multiset(a[..]))
    ensures latest == a[0] && latest == old(a[..])[FirstNewest(old(a[..]))]
    ensures forall i :: 0 <= i < a.Length ==> latest.createdAt >= old(a[i]).createdAt
  {
    SortNewestFirst(a);
    latest := a[0];
  }

  /** The component's state: the percentage the gauge shows. */
  class RunwayGauge {
    var runwayPercentage: int

    constructor ()
      ensures runwayPercentage == 0
    {
      runwayPercentage := 0;
    }

    /**
     * The effect run when the shared reports or the loading flag change. It
     * sorts the shared array itself, so every other reader sees the new order.
     */
    method Refresh(reportsData: array<Record>, loading: bool)
      modifies this, reportsData
      ensures !loading && reportsData.Length > 0 ==>
        && NewestFirst(reportsData[..])
        && multiset(reportsData[..]) == old(multiset(reportsData[..]))
        && runwayPercentage == Gauge(FinalCash(reportsData[0]), NetBurn(reportsData[0]))
        && reportsData[0] == old(reportsData[..])[FirstNewest(old(reportsData[..]))]
      ensures loading || reportsData.Length == 0 ==>
        runwayPercentage == old(runwayPercentage) && reportsData[..] == old(reportsData[..])
      ensures 0 <= old(runwayPercentage) <= 100 ==> 0 <= runwayPercentage <= 100
    {
      if !loading && reportsData.Length > 0 {
        var latestReport := LatestReport(reportsData);
        runwayPercentage := RunwayPercentage(FinalCash(latestReport), NetBurn(latestReport));
      }
    }
  }
}
