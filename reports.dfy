/**
 * The financial report records that the dashboard's chart components read
 * from the shared reports context, and the month vocabulary they group by.
 */
module Reports {

  /** A field that may be missing from a report (JavaScript `undefined`). */
  datatype Option<+T> = None | Some(value: T) {

    /** The value, or `default` when it is missing (JavaScript `?? default`). */
    function GetOr(default: T): T {
      match this
      case Some(v) => v
      case None => default
    }
  }

  /** The optional `cashFlow` sub-object of a report. */
  datatype CashFlow = CashFlow(finalCashBalance: Option<real>)

  /**
   * One report. `createdAt` is the instant the report was created, as the
   * number `new Date(createdAt)` compares by. `revenue` and `grossBurn` are
   * taken to be present; the other amounts may be missing.
   */
  datatype Record = Record(
    createdAt: int,
    revenue: real,
    grossBurn: real,
    netBurn: Option<real>,
    margin: Option<real>,
    cashFlow: Option<CashFlow>)

  /**
   * The month abbreviation of an instant, `dayjs(createdAt).format("MMM")`:
   * the name of the month only, so instants of different years can share it.
   */
  type MonthFormat = int -> string

  /** The two fields that are summed per month. */
  datatype Metric = GrossBurn | Revenue

  function Amount(r: Record, metric: Metric): real {
    match metric
    case GrossBurn => r.grossBurn
    case Revenue => r.revenue
  }

  /** The canonical month order both monthly charts sort their labels by. */
  const MonthOrder: seq<string> :=
    ["Jan", "Feb", "Mar", "Apr", "May", "Jun", "Jul", "Aug", "Sep", "Oct", "Nov", "Dec"]

  ghost predicate Distinct(order: seq<string>) {
    forall i, j :: 0 <= i < j < |order| ==> order[i] != order[j]
  }

  lemma MonthOrderDistinct()
    ensures |MonthOrder| == 12 && Distinct(MonthOrder)
  {
  }

  /** The position of `k` in `order`; `|order|` when `k` does not occur. */
  function Rank(order: seq<string>, k: string): (n: nat)
    ensures n <= |order|
    ensures n < |order| <==> k in order
    ensures n < |order| ==> order[n] == k
    ensures forall i :: 0 <= i < n ==> order[i] != k
  {
    if order == [] then 0
    else if order[0] == k then 0
    else 1 + Rank(order[1..], k)
  }

  /**
   * In two orderings of the same reports, the last report of the first sits
   * somewhere in the second, and the rest are again two orderings of the same.
   */
  lemma MatchLast(s: seq<Record>, t: seq<Record>) returns (j: nat)
    requires s != [] && multiset(s) == multiset(t)
    ensures j < |t| && t[j] == s[|s| - 1]
    ensures multiset(s[..|s| - 1]) == multiset(t[..j] + t[j + 1..])
  {
    var n := |s| - 1;
    var x := s[n];
    assert s == s[..n] + [x];
    assert x in multiset(t);
    j :| 0 <= j < |t| && t[j] == x;
    assert t == t[..j] + [x] + t[j + 1..];
    assert multiset(s[..n]) == multiset(s) - multiset{x};
    assert multiset(t[..j] + t[j + 1..]) == multiset(t) - multiset{x};
  }
}
