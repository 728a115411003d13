# Receiptly dashboard charts: report aggregation model

This Dafny project models how Receiptly's report dashboard turns its list of
financial reports into chart data. Four chart components each read the same
shared `reportsData` list:

- **Gross-burn line chart** (`LineChart.jsx`). It groups reports by month
  abbreviation, whatever the year, and sums `grossBurn` per month. It lists
  only the months that occur, in Jan..Dec order.
- **Revenue growth bar chart** (`BarChart.jsx`). It does the same grouping
  over `revenue`. It then turns the monthly sums into month-over-month
  percentage change. The first month gets 0, and so does a month that
  follows a zero month.
- **Cash-runway gauge** (`GaugeChart.jsx`). It sorts the shared list in
  place, newest first. From the newest report it takes the final cash
  balance and the net burn, each defaulting to 0. A negative burn gives a
  runway in months, shown as a share of 12 months, clamped to 0..100 and
  rounded. Any other burn fills the gauge.
- **Margin doughnut** (`DoughnutChart.jsx`). It counts reports into five
  margin bands with thresholds 81, 61, 41 and 21.

Modules:

- `Reports` (`reports.dfy`) holds the report record. `createdAt` is an
  integer instant. `revenue` and `grossBurn` are always present. `netBurn`,
  `margin`, `cashFlow` and `cashFlow.finalCashBalance` may be missing. The
  module also holds the canonical month list.
- `MonthlyAggregation` (`monthly_aggregation.dfy`) holds the grouping step
  both monthly charts share. The dictionary-filling loop is a method proved
  against a reference function `Aggregate`.
- `LineChart`, `BarChart`, `GaugeChart` and `DoughnutChart` hold one chart
  each. Each has a class for the component's state, and the class's
  `Refresh` method models the effect body.
- `DashboardScenario` feeds all four charts the same two January reports
  from different years.

The month abbreviation `dayjs(createdAt).format("MMM")` is a parameter
`monthOf: int -> string`. It yields only a month name, which is why two
Januaries of different years fall into one bucket. It can also yield a name
that is not one of the twelve (an unparsable date's), and the model shows
that such a name is dropped.

Two details of the code shape the model:

- The gauge sorts the shared `reportsData` array in place
  (`GaugeChart.jsx:16-18`), so `GaugeChart.RunwayGauge.Refresh` modifies
  that array. The other three charts are proved independent of report order,
  so the reordering cannot change their output.
- `LineChart.jsx:42,44` and `BarChart.jsx:31,33` add `report.grossBurn` and
  `report.revenue` with no default, so the model takes both fields to be
  present.

## Model

| member | source | states |
|---|---|---|
| `MonthlyAggregation.GroupByMonth` | frontend/src/components/pages/Reports/Charts/LineChart.jsx:38-46 | The truthiness-guarded insert-or-add loop builds a dictionary whose keys are exactly the month names of the reports, and each value is the plain sum from 0 of the field over that month's reports. |
| `MonthlyAggregation.MonthTotalPermutation` | frontend/src/components/pages/Reports/Charts/LineChart.jsx:39-46 | A month's total is the same for any reordering of the reports. |
| `MonthlyAggregation.MonthKeysPermutation` | frontend/src/components/pages/Reports/Charts/LineChart.jsx:39-46 | Any reordering of the reports gives the same set of month keys. |
| `MonthlyAggregation.MonthTotalReadsOnly` | frontend/src/components/pages/Reports/Charts/LineChart.jsx:40-44 | A month's total depends only on each report's `createdAt` and the summed field. |
| `MonthlyAggregation.PresentMonths` | frontend/src/components/pages/Reports/Charts/LineChart.jsx:64 | The filter keeps exactly the entries of the order list that are dictionary keys. |
| `MonthlyAggregation.PresentMonthsInOrder` | frontend/src/components/pages/Reports/Charts/LineChart.jsx:49-64 | With a repeat-free order list, the kept labels sit at strictly increasing positions of that list, so none repeats. |
| `MonthlyAggregation.MonthLabels` | frontend/src/components/pages/Reports/Charts/LineChart.jsx:49-64 | The labels are exactly the canonical months among the keys, in Jan..Dec order. A non-canonical key is dropped. |
| `MonthlyAggregation.Aggregate` | frontend/src/components/pages/Reports/Charts/LineChart.jsx:39-68 | Labels and values are index-aligned. The labels are exactly the canonical months some report falls in, in Jan..Dec order, never zero-filled. Each value is its month's total over all years. |
| `MonthlyAggregation.Chronological` | frontend/src/components/pages/Reports/Charts/LineChart.jsx:64-68 | The labels are exactly the canonical months that are dictionary keys, in Jan..Dec order, and each value is that key's entry. |
| `MonthlyAggregation.ChronologicalTotals` | frontend/src/components/pages/Reports/Charts/LineChart.jsx:64-68 | Reading the dictionary the loop built in canonical order gives the reference series `Aggregate`. |
| `MonthlyAggregation.AggregatePermutation` | frontend/src/components/pages/Reports/Charts/LineChart.jsx:39-64 | The series is the same for any reordering of the reports. |
| `MonthlyAggregation.AggregateReadsOnly` | frontend/src/components/pages/Reports/Charts/LineChart.jsx:40-44 | Reports that agree on `createdAt` and the summed field give the same series. |
| `MonthlyAggregation.YearsCollapse` | frontend/src/components/pages/Reports/Charts/LineChart.jsx:40-45 | Two reports whose instants both format as "Jan", whatever their years, give the single label "Jan" with their summed amount. |
| `MonthlyAggregation.JanuaryKeys` | frontend/src/components/pages/Reports/Charts/LineChart.jsx:39-40 | Two reports formatting as "Jan" give exactly one dictionary key, "Jan". |
| `MonthlyAggregation.JanuaryTotal` | frontend/src/components/pages/Reports/Charts/LineChart.jsx:41-45 | The "Jan" bucket of two January reports holds the sum of their two amounts. |
| `LineChart.BurnRateSeries` | frontend/src/components/pages/Reports/Charts/LineChart.jsx:37-68 | `labels` and `burnRateData` have equal length. The labels are the canonical months present, in Jan..Dec order. Each value is that month's `grossBurn` total, and the pair equals the reference series. |
| `LineChart.BurnRatePermutation` | frontend/src/components/pages/Reports/Charts/LineChart.jsx:39-64 | The burn series is invariant under any permutation of the reports. |
| `LineChart.BurnRateIgnoresOtherFields` | frontend/src/components/pages/Reports/Charts/LineChart.jsx:40-44 | Changing revenue, margin, net burn or cash leaves the burn series unchanged. |
| `LineChart.BurnRateChart.constructor` | frontend/src/components/pages/Reports/Charts/LineChart.jsx:29-31 | The chart starts with empty labels and data and with loading set. |
| `LineChart.BurnRateChart.Refresh` | frontend/src/components/pages/Reports/Charts/LineChart.jsx:34-79 | With reports, labels and data become the reference series. With none, they keep their previous values. Loading ends either way. |
| `BarChart.Rate` | frontend/src/components/pages/Reports/Charts/BarChart.jsx:63-66 | A zero previous value gives 0. Otherwise, applying the rate to the previous value gives back the current one. With a positive previous value, the rate's sign is the sign of current minus previous. |
| `BarChart.GrowthRates` | frontend/src/components/pages/Reports/Charts/BarChart.jsx:63-67 | There is one rate per month. The first is 0, and each later one is the rate from the previous month. |
| `BarChart.GrowthRatesRecover` | frontend/src/components/pages/Reports/Charts/BarChart.jsx:63-67 | When no month is zero, the first month's revenue and the rates give back every month's revenue. |
| `BarChart.GrowthExamples` | frontend/src/components/pages/Reports/Charts/BarChart.jsx:63-67 | [0, 50] gives [0, 0], and [100, 150, 75] gives [0, 50, -50]. |
| `BarChart.RevenueGrowth` | frontend/src/components/pages/Reports/Charts/BarChart.jsx:26-67 | The labels are the canonical months present, in Jan..Dec order, aligned with the rates. The first rate is 0, and each later one is the rate between consecutive monthly revenue totals over all years. |
| `BarChart.RevenueGrowthSeries` | frontend/src/components/pages/Reports/Charts/BarChart.jsx:26-67 | Grouping, filtering, reading totals and mapping to rates give the reference growth series. |
| `BarChart.RevenueGrowthPermutation` | frontend/src/components/pages/Reports/Charts/BarChart.jsx:28-55 | The growth chart is invariant under any permutation of the reports. |
| `BarChart.RevenueGrowthIgnoresOtherFields` | frontend/src/components/pages/Reports/Charts/BarChart.jsx:28-35 | Only `createdAt` and `revenue` affect the growth chart. |
| `BarChart.RevenueGrowthChart.constructor` | frontend/src/components/pages/Reports/Charts/BarChart.jsx:19-20 | Labels and growth data start empty. |
| `BarChart.RevenueGrowthChart.Refresh` | frontend/src/components/pages/Reports/Charts/BarChart.jsx:22-75 | When not loading and given reports, the state becomes the reference growth series. While loading or with no reports, it keeps its previous values. |
| `GaugeChart.FinalCash` | frontend/src/components/pages/Reports/Charts/GaugeChart.jsx:22 | A present balance is used as is. A missing `cashFlow` or balance counts as 0. |
| `GaugeChart.NetBurn` | frontend/src/components/pages/Reports/Charts/GaugeChart.jsx:23 | A present net burn is used as is. A missing one counts as 0. |
| `GaugeChart.Round` | frontend/src/components/pages/Reports/Charts/GaugeChart.jsx:44 | The result is the integer within half a unit of the input, with halves rounded up. |
| `GaugeChart.Gauge` | frontend/src/components/pages/Reports/Charts/GaugeChart.jsx:26-44 | The gauge is always an integer in 0..100. A net burn of 0 or more gives 100, whatever the cash. A negative burn gives the nearest integer to runway/12*100 when that lies in 0..100, 0 below that range, and 100 above it. |
| `GaugeChart.RunwayPercentage` | frontend/src/components/pages/Reports/Charts/GaugeChart.jsx:26-44 | The step-by-step runway, the two clamps and the rounding give the reference gauge, in 0..100. |
| `GaugeChart.NegativeCashEmptiesGauge` | frontend/src/components/pages/Reports/Charts/GaugeChart.jsx:27-41 | A negative cash balance with a negative net burn gives 0. |
| `GaugeChart.GaugeMonotoneInCash` | frontend/src/components/pages/Reports/Charts/GaugeChart.jsx:29-44 | For a fixed negative net burn, more cash never lowers the gauge. |
| `GaugeChart.GaugeExamples` | frontend/src/components/pages/Reports/Charts/GaugeChart.jsx:26-44 | 600 cash with a -100 burn gives 50. 1000 with -10 gives 100. A burn of 0 gives 100. |
| `GaugeChart.FirstNewest` | frontend/src/components/pages/Reports/Charts/GaugeChart.jsx:16-19 | The position of the report a stable newest-first sort puts first. Its `createdAt` is at least every report's, and every report listed before it is strictly older. |
| `GaugeChart.TieGoesToFirst` | frontend/src/components/pages/Reports/Charts/GaugeChart.jsx:16-19 | Of two reports with the same instant, the first-listed one is chosen. |
| `GaugeChart.InsertNewest` | frontend/src/components/pages/Reports/Charts/GaugeChart.jsx:16-18 | One insertion pass moves the report at position i back to position j. Every report it passes is strictly older, and the report it stops behind is not older. The reports before j stay where they were, and the passed ones each shift one place back. The prefix becomes newest-first, the array stays a permutation, and later entries are untouched. |
| `GaugeChart.InsertedSorted` | frontend/src/components/pages/Reports/Charts/GaugeChart.jsx:16-18 | Such an insertion into a newest-first prefix leaves the longer prefix newest-first. |
| `GaugeChart.FrontAfterInsert` | frontend/src/components/pages/Reports/Charts/GaugeChart.jsx:16-19 | After each pass, the front of the array is the first-listed newest report of the prefix sorted so far. |
| `GaugeChart.FirstNewestSnoc` | frontend/src/components/pages/Reports/Charts/GaugeChart.jsx:16-19 | Extending the list by one report changes the first newest report only when the new report is strictly newer. |
| `GaugeChart.SortNewestFirst` | frontend/src/components/pages/Reports/Charts/GaugeChart.jsx:16-18 | The array is reordered in place into a permutation of itself, ordered by `createdAt` descending. Its front is the first-listed of the newest original reports, as a stable sort leaves it. |
| `GaugeChart.LatestReport` | frontend/src/components/pages/Reports/Charts/GaugeChart.jsx:16-19 | The chosen report is the first of the sorted array: the first-listed original report with the latest `createdAt`. Its `createdAt` is at least that of every original report. |
| `GaugeChart.RunwayGauge.constructor` | frontend/src/components/pages/Reports/Charts/GaugeChart.jsx:10 | The gauge starts at 0. |
| `GaugeChart.RunwayGauge.Refresh` | frontend/src/components/pages/Reports/Charts/GaugeChart.jsx:12-49 | When not loading and given reports, the shared array ends newest-first and is a permutation of itself. The gauge is computed from its first report, which is the first-listed newest original report. Otherwise nothing changes. |
| `DoughnutChart.LabelsFollowBandOrder` | frontend/src/components/pages/Reports/Charts/DoughnutChart.jsx:13-51 | Each position of the data vector carries the label of the band it counts, in the label vector's order, and no two bands share a label. |
| `DoughnutChart.Classify` | frontend/src/components/pages/Reports/Charts/DoughnutChart.jsx:28-41 | Each margin lands in exactly one band, the first threshold it meets: 81 or more, 61 to under 81, 41 to under 61, 21 to under 41, and otherwise the last band. A missing margin lands in the last band. |
| `DoughnutChart.Count` | frontend/src/components/pages/Reports/Charts/DoughnutChart.jsx:27-42 | No band counts more reports than there are. |
| `DoughnutChart.MarginDistribution` | frontend/src/components/pages/Reports/Charts/DoughnutChart.jsx:19-51 | There are always exactly 5 counts, in the order 81–100, 61–80, 41–60, 21–40, 0–20. Each is its band's count, and together they sum to the number of reports. |
| `DoughnutChart.CountsCoverReports` | frontend/src/components/pages/Reports/Charts/DoughnutChart.jsx:27-42 | The five band counts add up to the number of reports. |
| `DoughnutChart.CountPermutation` | frontend/src/components/pages/Reports/Charts/DoughnutChart.jsx:27-42 | Band counts are invariant under any permutation of the reports. |
| `DoughnutChart.BoundaryExamples` | frontend/src/components/pages/Reports/Charts/DoughnutChart.jsx:30-40 | Margin 81 lands in 81–100. 80.999 lands in 61–80 and 21 in 21–40. Both -5 and a missing margin land in 0–20. |
| `DoughnutChart.MarginChart.constructor` | frontend/src/components/pages/Reports/Charts/DoughnutChart.jsx:10 | The counts start as [0, 0, 0, 0, 0]. |
| `DoughnutChart.MarginChart.Refresh` | frontend/src/components/pages/Reports/Charts/DoughnutChart.jsx:15-58 | When not loading and given reports, the counts are replaced by the five band counts. Otherwise they keep their previous values. |
| `DashboardScenario.TwoJanuaries` | frontend/src/components/pages/Reports/Charts/BarChart.jsx:28-66 | Two January reports from different years give revenue {Jan: 150} with growth [0] (`BarChart.jsx:28-66`), burn {Jan: 120} (`LineChart.jsx:39-68`) and margin counts [1, 0, 0, 1, 0] (`DoughnutChart.jsx:27-51`). The gauge reads the later report, which is the first newest, and shows 100 because that report's net burn is positive (`GaugeChart.jsx:16-44`). |

## Left out

- Fetching the reports (`ReportsContent.jsx`), the upload dialog (`UploadModal.jsx`), login (`Login.jsx`) and the invitation controller are not part of this model. They are HTTP, storage and UI plumbing, and the reports are a parameter here.
- Drawing the charts is left out. That covers the Chart.js registration, the `data`/`options` objects, colours and the JSX.
- Date handling is left out. dayjs formatting is the `monthOf` parameter, and `new Date(createdAt)` is an integer instant. Invalid dates and NaN comparator results are not modelled.
- Amounts are exact `real` numbers. IEEE-754 rounding, NaN and Infinity propagation (for instance `undefined + number`), and `Number.isFinite` beyond the unbounded-runway branch are not modelled. The permutation results hold for exact sums; floating-point sums can differ in their last bits with the order of addition.
- React's effect scheduling, the `try`/`catch` logging and when `loading` changes are not modelled. Each effect is a `Refresh` call that gets the reports and the loading flag.
- GaugeChart.SortNewestFirst: states stability only at the front of the array, where the first-listed of the newest reports ends up first. That is enough to fix the report the gauge reads. The relative order of other reports that share an instant after the sort is not stated, although JavaScript's sort keeps it.
- LineChart.BurnRateChart.Refresh: `LineChart.jsx:35` also tests that `reportsData` is defined. The model's list is always defined.
- BarChart.RevenueGrowthSeries: `BarChart.jsx:54` keeps a month when its value is not `undefined`, while `LineChart.jsx:64` keeps a month when it is a key. Both are modelled as key membership, which agrees because every bucket holds a number.
