/**
 * The month grouping shared by the burn-rate and revenue-growth charts:
 * reports are bucketed by month abbreviation (whatever the year), one field
 * is summed per bucket, and the buckets present are listed in Jan..Dec order.
 */
module MonthlyAggregation {
  import opened Reports

  /** The month abbreviations that occur among `reports`. */
  function MonthKeys(reports: seq<Record>, monthOf: MonthFormat): set<string> {
    set i | 0 <= i < |reports| :: monthOf(reports[i].createdAt)
  }

  /**
   * Reference definition of a bucket: the sum of `metric` over every report
   * whose month abbreviation is `k`, starting from 0.
   */
  function MonthTotal(reports: seq<Record>, monthOf: MonthFormat, metric: Metric, k: string): real
  {
    if reports == [] then 0.0
    else
      var last := reports[|reports| - 1];
      MonthTotal(reports[..|reports| - 1], monthOf, metric, k)
        + (if monthOf(last.createdAt) == k then Amount(last, metric) else 0.0)
  }

  /**
   * The `forEach` accumulation into the month dictionary. A bucket whose
   * current value is falsy (absent, or 0) is overwritten with the report's
   * amount, otherwise the amount is added; the result is the plain sum.
   */
  method GroupByMonth(reports: seq<Record>, monthOf: MonthFormat, metric: Metric)
    returns (totals: map<string, real>)
    ensures totals.Keys == MonthKeys(reports, monthOf)
    ensures forall k :: k in totals ==> totals[k] == MonthTotal(reports, monthOf, metric, k)
  {
    totals := map[];
    var i := 0;
    while i < |reports|
      invariant 0 <= i <= |reports|
      invariant totals.Keys == MonthKeys(reports[..i], monthOf)
      invariant forall k :: k in totals ==> totals[k] == MonthTotal(reports[..i], monthOf, metric, k)
    {
      var report := reports[i];
      var month := monthOf(report.createdAt);
      assert reports[..i + 1][..i] == reports[..i];
      MonthKeysSnoc(reports[..i], report, monthOf);
      assert reports[..i + 1] == reports[..i] + [report];
      if month !in totals {
        MonthTotalAbsent(reports[..i], monthOf, metric, month);
      }
      if month in totals && totals[month] != 0.0 {
        totals := totals[month := totals[month] + Amount(report, metric)];
      } else {
        totals := totals[month := Amount(report, metric)];
      }
      i := i + 1;
    }
    assert reports[..i] == reports;
  }

  lemma MonthKeysSnoc(reports: seq<Record>, r: Record, monthOf: MonthFormat)
    ensures MonthKeys(reports + [r], monthOf) == MonthKeys(reports, monthOf) + {monthOf(r.createdAt)}
  {
    var s := reports + [r];
    forall k | k in MonthKeys(s, monthOf)
      ensures k in MonthKeys(reports, monthOf) + {monthOf(r.createdAt)}
    {
      var i :| 0 <= i < |s| && monthOf(s[i].createdAt) == k;
      if i < |reports| {
        assert s[i] == reports[i];
      }
    }
    forall k | k in MonthKeys(reports, monthOf)
      ensures k in MonthKeys(s, monthOf)
    {
      var i :| 0 <= i < |reports| && monthOf(reports[i].createdAt) == k;
      assert s[i] == reports[i];
    }
    assert s[|reports|] == r;
  }

  /** A month that no report falls in sums to 0. */
  lemma {:induction false} MonthTotalAbsent(reports: seq<Record>, monthOf: MonthFormat, metric: Metric, k: string)
    requires k !in MonthKeys(reports, monthOf)
    ensures MonthTotal(reports, monthOf, metric, k) == 0.0
  {
    if reports != [] {
      var n := |reports| - 1;
      MonthKeysSnoc(reports[..n], reports[n], monthOf);
      assert reports[..n] + [reports[n]] == reports;
      MonthTotalAbsent(reports[..n], monthOf, metric, k);
    }
  }

  lemma {:induction false} MonthTotalAppend(s: seq<Record>, t: seq<Record>, monthOf: MonthFormat, metric: Metric, k: string)
    ensures MonthTotal(s + t, monthOf, metric, k)
         == MonthTotal(s, monthOf, metric, k) + MonthTotal(t, monthOf, metric, k)
    decreases |t|
  {
    if t == [] {
      assert s + t == s;
    } else {
      var n := |t| - 1;
      assert (s + t)[..|s + t| - 1] == s + t[..n];
      assert (s + t)[|s + t| - 1] == t[n];
      MonthTotalAppend(s, t[..n], monthOf, metric, k);
    }
  }

  /** Taking one report out of a sequence takes its amount out of its month's total. */
  lemma MonthTotalWithout(t: seq<Record>, j: nat, monthOf: MonthFormat, metric: Metric, k: string)
    requires j < |t|
    ensures MonthTotal(t, monthOf, metric, k)
         == MonthTotal(t[..j] + t[j + 1..], monthOf, metric, k)
            + (if monthOf(t[j].createdAt) == k then Amount(t[j], metric) else 0.0)
  {
    assert t == t[..j] + [t[j]] + t[j + 1..];
    MonthTotalAppend(t[..j] + [t[j]], t[j + 1..], monthOf, metric, k);
    MonthTotalAppend(t[..j], [t[j]], monthOf, metric, k);
    MonthTotalAppend(t[..j], t[j + 1..], monthOf, metric, k);
    assert [t[j]][..0] == [];
  }

  /** Summing is insensitive to the order the reports arrive in. */
  lemma {:induction false} MonthTotalPermutation(s: seq<Record>, t: seq<Record>, monthOf: MonthFormat, metric: Metric, k: string)
    requires multiset(s) == multiset(t)
    ensures MonthTotal(s, monthOf, metric, k) == MonthTotal(t, monthOf, metric, k)
    decreases |s|
  {
    if s == [] {
      assert |t| == |multiset(t)| == 0;
    } else {
      var j := MatchLast(s, t);
      MonthTotalPermutation(s[..|s| - 1], t[..j] + t[j + 1..], monthOf, metric, k);
      MonthTotalWithout(t, j, monthOf, metric, k);
    }
  }

  lemma MonthKeysPermutation(s: seq<Record>, t: seq<Record>, monthOf: MonthFormat)
    requires multiset(s) == multiset(t)
    ensures MonthKeys(s, monthOf) == MonthKeys(t, monthOf)
  {
    forall k | k in MonthKeys(s, monthOf) ensures k in MonthKeys(t, monthOf) {
      var i :| 0 <= i < |s| && monthOf(s[i].createdAt) == k;
      assert s[i] in multiset(t);
      var j :| 0 <= j < |t| && t[j] == s[i];
    }
    forall k | k in MonthKeys(t, monthOf) ensures k in MonthKeys(s, monthOf) {
      var j :| 0 <= j < |t| && monthOf(t[j].createdAt) == k;
      assert t[j] in multiset(s);
      var i :| 0 <= i < |s| && s[i] == t[j];
    }
  }

  /** `s` and `t` agree, report by report, on the instant and on `metric`. */
  ghost predicate AgreeOn(s: seq<Record>, t: seq<Record>, metric: Metric) {
    |s| == |t| &&
    forall i :: 0 <= i < |s| ==> s[i].createdAt == t[i].createdAt && Amount(s[i], metric) == Amount(t[i], metric)
  }

  /** A bucket reads nothing of a report but its instant and the summed field. */
  lemma {:induction false} MonthTotalReadsOnly(s: seq<Record>, t: seq<Record>, monthOf: MonthFormat, metric: Metric, k: string)
    requires AgreeOn(s, t, metric)
    ensures MonthTotal(s, monthOf, metric, k) == MonthTotal(t, monthOf, metric, k)
    decreases |s|
  {
    if s != [] {
      var n := |s| - 1;
      assert AgreeOn(s[..n], t[..n], metric);
      MonthTotalReadsOnly(s[..n], t[..n], monthOf, metric, k);
    }
  }

  /**
   * `monthOrder.filter(...)`: the entries of `order` that are keys of the
   * accumulated dictionary, in the order of `order`.
   */
  function PresentMonths(order: seq<string>, keys: set<string>): (labels: seq<string>)
    ensures forall k :: k in labels <==> k in order && k in keys
    ensures |labels| <= |order|
  {
    if order == [] then []
    else (if order[0] in keys then [order[0]] else []) + PresentMonths(order[1..], keys)
  }

  /** `labels` occupy strictly increasing positions of `order`. */
  ghost predicate RanksIncrease(order: seq<string>, labels: seq<string>) {
    forall i, j :: 0 <= i < j < |labels| ==> Rank(order, labels[i]) < Rank(order, labels[j])
  }

  lemma DistinctTail(order: seq<string>)
    requires order != [] && Distinct(order)
    ensures Distinct(order[1..])
  {
    var tail := order[1..];
    forall i, j | 0 <= i < j < |tail| ensures tail[i] != tail[j] {
      assert tail[i] == order[i + 1] && tail[j] == order[j + 1];
    }
  }

  /** Past a head that occurs nowhere else, every position moves up by one. */
  lemma RankAfterHead(order: seq<string>, labels: seq<string>)
    requires order != [] && Distinct(order)
    requires forall k :: k in labels ==> k in order[1..]
    ensures forall i :: 0 <= i < |labels| ==> Rank(order, labels[i]) == 1 + Rank(order[1..], labels[i])
  {
    var tail := order[1..];
    forall i | 0 <= i < |labels| ensures Rank(order, labels[i]) == 1 + Rank(tail, labels[i]) {
      assert labels[i] in labels;
      var p := Rank(tail, labels[i]);
      assert tail[p] == order[p + 1];
    }
  }

  /** When `order` has no repeats, the filtered labels keep strictly increasing positions in it. */
  lemma {:induction false} PresentMonthsInOrder(order: seq<string>, keys: set<string>)
    requires Distinct(order)
    ensures RanksIncrease(order, PresentMonths(order, keys))
  {
    if order != [] {
      var tail := order[1..];
      var rest := PresentMonths(tail, keys);
      DistinctTail(order);
      PresentMonthsInOrder(tail, keys);
      RankAfterHead(order, rest);
      RanksIncreaseCons(order, rest);
      assert PresentMonths(order, keys) == (if order[0] in keys then [order[0]] + rest else rest);
    }
  }

  lemma RanksIncreaseCons(order: seq<string>, rest: seq<string>)
    requires order != []
    requires RanksIncrease(order[1..], rest)
    requires forall i :: 0 <= i < |rest| ==> Rank(order, rest[i]) == 1 + Rank(order[1..], rest[i])
    ensures RanksIncrease(order, rest) && RanksIncrease(order, [order[0]] + rest)
  {
    var labels := [order[0]] + rest;
    forall i, j | 0 <= i < j < |labels| ensures Rank(order, labels[i]) < Rank(order, labels[j]) {
      assert labels[j] == rest[j - 1];
      if i > 0 {
        assert labels[i] == rest[i - 1];
      }
    }
  }

  /** The labels are canonical months in strictly increasing Jan..Dec position. */
  ghost predicate InMonthOrder(labels: seq<string>) {
    RanksIncrease(MonthOrder, labels)
  }

  /** A chart series: one label per bucket and its value, index-aligned. */
  datatype Series = Series(labels: seq<string>, values: seq<real>)

  /**
   * The canonical months among `keys`, in Jan..Dec order and without repeats;
   * a key outside the canonical list (such as an unparsable date's) is dropped.
   */
  function MonthLabels(keys: set<string>): (labels: seq<string>)
    ensures forall k :: k in labels <==> k in MonthOrder && k in keys
    ensures InMonthOrder(labels)
  {
    MonthOrderDistinct();
    PresentMonthsInOrder(MonthOrder, keys);
    PresentMonths(MonthOrder, keys)
  }

  /**
   * Reference definition of a monthly series: the canonical months that occur
   * among the reports, never zero-filled, each with its month's total.
   */
  function Aggregate(reports: seq<Record>, monthOf: MonthFormat, metric: Metric): (s: Series)
    ensures |s.labels| == |s.values|
    ensures forall k :: k in s.labels <==> k in MonthOrder && k in MonthKeys(reports, monthOf)
    ensures InMonthOrder(s.labels)
    ensures forall i :: 0 <= i < |s.values| ==> s.values[i] == MonthTotal(reports, monthOf, metric, s.labels[i])
  {
    var labels := MonthLabels(MonthKeys(reports, monthOf));
    Series(labels, seq(|labels|, i requires 0 <= i < |labels| => MonthTotal(reports, monthOf, metric, labels[i])))
  }

  /**
   * The `filter` over the month order followed by the `map` to values, read
   * off the dictionary `GroupByMonth` built.
   */
  function Chronological(totals: map<string, real>): (s: Series)
    ensures |s.labels| == |s.values|
    ensures forall k :: k in s.labels <==> k in MonthOrder && k in totals
    ensures InMonthOrder(s.labels)
    ensures forall i :: 0 <= i < |s.labels| ==> s.labels[i] in totals && s.values[i] == totals[s.labels[i]]
  {
    var labels := MonthLabels(totals.Keys);
    Series(labels, seq(|labels|, i requires 0 <= i < |labels| => totals[labels[i]]))
  }

  /** Reading the accumulated dictionary in canonical order gives the reference series. */
  lemma ChronologicalTotals(reports: seq<Record>, monthOf: MonthFormat, metric: Metric, totals: map<string, real>)
    requires totals.Keys == MonthKeys(reports, monthOf)
    requires forall k :: k in totals ==> totals[k] == MonthTotal(reports, monthOf, metric, k)
    ensures Chronological(totals) == Aggregate(reports, monthOf, metric)
  {
  }

  /** The series is the same for every ordering of the same reports. */
  lemma AggregatePermutation(s: seq<Record>, t: seq<Record>, monthOf: MonthFormat, metric: Metric)
    requires multiset(s) == multiset(t)
    ensures Aggregate(s, monthOf, metric) == Aggregate(t, monthOf, metric)
  {
    MonthKeysPermutation(s, t, monthOf);
    var a, b := Aggregate(s, monthOf, metric), Aggregate(t, monthOf, metric);
    assert a.labels == b.labels;
    forall i | 0 <= i < |a.values| ensures a.values[i] == b.values[i] {
      MonthTotalPermutation(s, t, monthOf, metric, a.labels[i]);
    }
  }

  /** The series reads only the instants and the summed field of the reports. */
  lemma AggregateReadsOnly(s: seq<Record>, t: seq<Record>, monthOf: MonthFormat, metric: Metric)
    requires AgreeOn(s, t, metric)
    ensures Aggregate(s, monthOf, metric) == Aggregate(t, monthOf, metric)
  {
    assert MonthKeys(s, monthOf) == MonthKeys(t, monthOf) by {
      forall k ensures k in MonthKeys(s, monthOf) <==> k in MonthKeys(t, monthOf) {
        if k in MonthKeys(s, monthOf) {
          var i :| 0 <= i < |s| && monthOf(s[i].createdAt) == k;
          assert monthOf(t[i].createdAt) == k;
        }
        if k in MonthKeys(t, monthOf) {
          var i :| 0 <= i < |t| && monthOf(t[i].createdAt) == k;
          assert monthOf(s[i].createdAt) == k;
        }
      }
    }
    var a, b := Aggregate(s, monthOf, metric), Aggregate(t, monthOf, metric);
    forall i | 0 <= i < |a.values| ensures a.values[i] == b.values[i] {
      MonthTotalReadsOnly(s, t, monthOf, metric, a.labels[i]);
    }
  }

  lemma JanuaryLabels()
    ensures MonthLabels({"Jan"}) == ["Jan"]
  {
    var tail := MonthOrder[1..];
    var rest := PresentMonths(tail, {"Jan"});
    assert MonthOrder[0] == "Jan";
    assert "Jan" !in tail by {
      MonthOrderDistinct();
    }
    assert PresentMonths(MonthOrder, {"Jan"}) == ["Jan"] + rest;
  }

  /** Two reports of January, of whatever years, make one "Jan" bucket holding their sum. */
  lemma {:induction false} YearsCollapse(reports: seq<Record>, monthOf: MonthFormat, metric: Metric)
    requires |reports| == 2
    requires monthOf(reports[0].createdAt) == monthOf(reports[1].createdAt) == "Jan"
    ensures Aggregate(reports, monthOf, metric).labels == ["Jan"]
    ensures Aggregate(reports, monthOf, metric).values[0] == Amount(reports[0], metric) + Amount(reports[1], metric)
  {
    JanuaryKeys(reports, monthOf);
    JanuaryLabels();
    JanuaryTotal(reports, monthOf, metric);
  }

  lemma JanuaryKeys(reports: seq<Record>, monthOf: MonthFormat)
    requires |reports| == 2
    requires monthOf(reports[0].createdAt) == monthOf(reports[1].createdAt) == "Jan"
    ensures MonthKeys(reports, monthOf) == {"Jan"}
  {
    assert monthOf(reports[0].createdAt) in MonthKeys(reports, monthOf);
  }

  lemma JanuaryTotal(reports: seq<Record>, monthOf: MonthFormat, metric: Metric)
    requires |reports| == 2
    requires monthOf(reports[0].createdAt) == monthOf(reports[1].createdAt) == "Jan"
    ensures MonthTotal(reports, monthOf, metric, "Jan") == Amount(reports[0], metric) + Amount(reports[1], metric)
  {
    var first := reports[..1];
    assert reports[..|reports| - 1] == first;
    assert first[..0] == [] && first[0] == reports[0];
    assert MonthTotal(first, monthOf, metric, "Jan") == Amount(reports[0], metric);
    assert MonthTotal(reports, monthOf, metric, "Jan")
        == MonthTotal(first, monthOf, metric, "Jan") + Amount(reports[1], metric);
  }
}
