/**
 * The margin distribution doughnut: each report's `margin` is put in one of
 * five bands, and the chart shows how many reports each band holds.
 */
module DoughnutChart {
  import opened Reports

  /** The five bands, named by their lower threshold. */
  datatype Band = From81 | From61 | From41 | From21 | Below21

  /** The order of the chart's labels and of its data vector. */
  const BandOrder: seq<Band> := [From81, From61, From41, From21, Below21]

  /** The key of the band in the counting dictionary and on the chart. */
  function Label(b: Band): string {
    match b
    case From81 => "81–100"
    case From61 => "61–80"
    case From41 => "41–60"
    case From21 => "21–40"
    case Below21 => "0–20"
  }

  /** The chart's label vector, in band order. */
  const ChartLabels: seq<string> := ["81–100", "61–80", "41–60", "21–40", "0–20"]

  /** Each position of the data vector carries the label of the band it counts. */
  lemma LabelsFollowBandOrder()
    ensures |BandOrder| == |ChartLabels|
    ensures forall i :: 0 <= i < |BandOrder| ==> Label(BandOrder[i]) == ChartLabels[i]
    ensures forall i, j :: 0 <= i < j < |BandOrder| ==> Label(BandOrder[i]) != Label(BandOrder[j])
  {
  }

  /** `margin >= threshold`; a missing margin compares false with every threshold. */
  predicate AtLeast(margin: Option<real>, threshold: real) {
    margin.Some? && margin.value >= threshold
  }

  /**
   * The `if`/`else if` chain: the first threshold the margin meets picks the
   * band, and everything below 21 (negative or missing margins too) is the
   * last band.
   */
  function Classify(margin: Option<real>): (b: Band)
    ensures b == From81 <==> margin.Some? && margin.value >= 81.0
    ensures b == From61 <==> margin.Some? && 61.0 <= margin.value < 81.0
    ensures b == From41 <==> margin.Some? && 41.0 <= margin.value < 61.0
    ensures b == From21 <==> margin.Some? && 21.0 <= margin.value < 41.0
    ensures b == Below21 <==> margin.None? || margin.value < 21.0
  {
    if AtLeast(margin, 81.0) then From81
    else if AtLeast(margin, 61.0) then From61
    else if AtLeast(margin, 41.0) then From41
    else if AtLeast(margin, 21.0) then From21
    else Below21
  }

  /** Reference definition of a band's count: the reports whose margin falls in it. */
  function Count(reports: seq<Record>, b: Band): (n: nat)
    ensures n <= |reports|
  {
    if reports == [] then 0
    else
      Count(reports[..|reports| - 1], b) + (if Classify(reports[|reports| - 1].margin) == b then 1 else 0)
  }

  /**
   * The effect body's computation: the `forEach` loop increments one entry of
   * the counting dictionary per report, then the five counts are read out in
   * label order.
   */
  method MarginDistribution(reports: seq<Record>) returns (rangeData: seq<nat>)
    ensures |rangeData| == |BandOrder| == 5
    ensures forall i :: 0 <= i < |BandOrder| ==> rangeData[i] == Count(reports, BandOrder[i])
    ensures rangeData[0] + rangeData[1] + rangeData[2] + rangeData[3] + rangeData[4] == |reports|
  {
    var marginCounts: map<Band, nat> :=
      map[From81 := 0, From61 := 0, From41 := 0, From21 := 0, Below21 := 0];
    var i := 0;
    forall b: Band ensures b in marginCounts && marginCounts[b] == Count(reports[..0], b) {
      assert reports[..0] == [];
      match b
      case From81 =>
      case From61 =>
      case From41 =>
      case From21 =>
      case Below21 =>
    }
    while i < |reports|
      invariant 0 <= i <= |reports|
      invariant forall b: Band :: b in marginCounts && marginCounts[b] == Count(reports[..i], b)
    {
      assert reports[..i + 1][..i] == reports[..i];
      var band := Classify(reports[i].margin);
      marginCounts := marginCounts[band := marginCounts[band] + 1];
      i := i + 1;
    }
    assert reports[..i] == reports;
    rangeData := [
      marginCounts[From81],
      marginCounts[From61],
      marginCounts[From41],
      marginCounts[From21],
      marginCounts[Below21]
    ];
    CountsCoverReports(reports);
  }

  /** Every report is counted in exactly one band: the counts add up to the number of reports. */
  lemma {:induction false} CountsCoverReports(reports: seq<Record>)
    ensures Count(reports, From81) + Count(reports, From61) + Count(reports, From41)
          + Count(reports, From21) + Count(reports, Below21) == |reports|
  {
    if reports != [] {
      CountsCoverReports(reports[..|reports| - 1]);
    }
  }

  lemma {:induction false} CountAppend(s: seq<Record>, t: seq<Record>, b: Band)
    ensures Count(s + t, b) == Count(s, b) + Count(t, b)
    decreases |t|
  {
    if t == [] {
      assert s + t == s;
    } else {
      var n := |t| - 1;
      assert (s + t)[..|s + t| - 1] == s + t[..n];
      assert (s + t)[|s + t| - 1] == t[n];
      CountAppend(s, t[..n], b);
    }
  }

  /** Taking one report out of a sequence takes it out of its band's count. */
  lemma CountWithout(t: seq<Record>, j: nat, b: Band)
    requires j < |t|
    ensures Count(t, b) == Count(t[..j] + t[j + 1..], b) + (if Classify(t[j].margin) == b then 1 else 0)
  {
    assert t == t[..j] + [t[j]] + t[j + 1..];
    CountAppend(t[..j] + [t[j]], t[j + 1..], b);
    CountAppend(t[..j], [t[j]], b);
    CountAppend(t[..j], t[j + 1..], b);
    assert [t[j]][..0] == [];
  }

  /** The counts do not depend on the order the reports arrive in. */
  lemma {:induction false} CountPermutation(s: seq<Record>, t: seq<Record>, b: Band)
    requires multiset(s) == multiset(t)
    ensures Count(s, b) == Count(t, b)
    decreases |s|
  {
    if s == [] {
      assert |t| == |multiset(t)| == 0;
    } else {
      var j := MatchLast(s, t);
      CountPermutation(s[..|s| - 1], t[..j] + t[j + 1..], b);
      CountWithout(t, j, b);
    }
  }

  lemma BoundaryExamples()
    ensures Classify(Some(81.0)) == From81
    ensures Classify(Some(80.999)) == From61
    ensures Classify(Some(21.0)) == From21
    ensures Classify(Some(-5.0)) == Below21
    ensures Classify(None) == Below21
  {
  }

  /** The component's state: the five counts it plots. */
  class MarginChart {
    var rangeData: seq<nat>

    constructor ()
      ensures rangeData == [0, 0, 0, 0, 0]
    {
      rangeData := [0, 0, 0, 0, 0];
    }

    /**
     * The effect run when the shared reports or the loading flag change:
     * nothing is replaced while loading or when there are no reports.
     */
    method Refresh(reportsData: seq<Record>, loading: bool)
      modifies this
      ensures !loading && |reportsData| > 0 ==>
        |rangeData| == 5 && forall i :: 0 <= i < 5 ==> rangeData[i] == Count(reportsData, BandOrder[i])
      ensures loading || |reportsData| == 0 ==> rangeData == old(rangeData)
    {
      if !loading && |reportsData| > 0 {
        rangeData := MarginDistribution(reportsData);
      }
    }
  }
}
