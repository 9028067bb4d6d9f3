# Box-plot summaries of social-media Likes

This project models the one computation in `templete.js` that is more than drawing: the
data behind the first chart, a box plot of Likes per Platform. After the table is loaded,

1. every row's `Likes` field is overwritten in place by `+d.Likes`, and by 0 when that is NaN;
2. the distinct platforms, in the order they first appear, become the x-domain, and the largest
   Likes value the upper end of the y-domain;
3. `d3.rollup` groups the rows by `Platform` and reduces each group with `rollupFunction`:
   sort the group's Likes ascending, then take `d3.min`, the 0.25, 0.5 and 0.75 `d3.quantile`s
   and `d3.max`, giving the five numbers `{min, q1, median, q3, max}` the box is drawn from.

Modules, one per stage:

- `Wrappers` (wrappers.dfy): `Option`, for values JavaScript leaves undefined or NaN.
- `Records` (records.dfy): a row as its two fields `(platform, likes)`.
- `Coercion` (coercion.dfy): the in-place coercion loop over an `array<Row>`. A JavaScript
  number is `Option<real>`, with `None` for NaN. The loader's text is abstracted to what unary
  plus makes of it.
- `Stats` (stats.dfy): the d3-array helpers as functions over `seq<real>`: sorting with
  `d3.ascending`, `d3.min`, `d3.max`, and `d3.quantile` (method R-7: rank h = (n - 1)·p,
  interpolating between sorted[floor h] and sorted[floor h + 1]).
- `BoxSummary` (summary.dfy): `rollupFunction` and the properties of the five-number summary.
- `Grouping` (grouping.dfy): the first-seen list of distinct platforms, `d3.group`/`d3.rollup`
  by Platform, lookup in the resulting ordered map, and the y-domain maximum.
- `BoxPlot` (boxplot.dfy): the whole non-drawing part of the chart's callback, end to end.

Arithmetic is exact (`real`), not IEEE floating point.

d3's behaviour that the model keeps:

- The interpolation's upper neighbour is sorted[floor h + 1], as d3 computes it.
  sorted[ceil h] gives the same value, because the weight is 0 when h is whole
  (`Stats.QuantileCeilNeighbour`).
- `d3.quantile` has edge cases of its own, and the model keeps them. With no values it
  returns undefined. With p <= 0 or a single value it returns the minimum, and with p >= 1
  the maximum.
- `d3.quantile` does not rely on its input being sorted: it selects the order statistics
  it needs itself. It is therefore modelled as the d3 quantile of the sorted copy
  (`Stats.Quantile`).
- `rollupFunction` on an empty group would give an object whose five fields are all
  undefined. That object is `None` here. `d3.rollup` never forms an empty group.

## Model

| member | source | states |
|---|---|---|
| `Coercion.CoerceLikes` | templete.js:10-14 | the `forEach` loop overwrites each row in place front to back; afterwards the array equals `CoercedRows` of its old contents |
| `Coercion.Coerce` | templete.js:11-13 | `isNaN(x) ? 0 : x` on the outcome of unary plus; `Coercion.CoercedRowsCorrect` proves a parsed value is kept and a NaN becomes exactly 0 |
| `Coercion.CoerceRow` | templete.js:11-13 | what the `forEach` callback leaves in one row; `Coercion.CoercedRowsCorrect` proves it keeps the platform and leaves a non-NaN number |
| `Coercion.CoercedRows` | templete.js:10-14 | the whole table after the loop, position by position; `Coercion.CoercionIdempotent` proves a second pass changes nothing |
| `Coercion.CoercedRowsCorrect` | templete.js:10-14 | coercion adds, drops and reorders no row and keeps each platform; a value that parsed is unchanged, a NaN becomes exactly 0, and every field is then a number |
| `Coercion.CoercionIdempotent` | templete.js:11-13 | running the coercion loop a second time changes nothing |
| `Coercion.CoercionKeepsNumeric` | templete.js:11 | unary plus on a field that already holds a non-NaN number leaves the table unchanged |
| `Coercion.RecordsAfterCoercion` | templete.js:10-14 | the records the later stages read are, position by position, the row's platform with its parsed value, or 0 where it was NaN |
| `Records.LikesOfPermutation` | templete.js:63 | reordering a group's records reorders its mapped Likes: the same multiset of values |
| `Records.Likes` | templete.js:63 | `groupData.map(d => d.Likes)`, position by position; `Records.LikesOfPermutation` proves reordering the records only reorders it |
| `Stats.Insert` | templete.js:63 | inserting into a sorted sequence keeps it sorted and adds exactly one copy of the value |
| `Stats.Sort` | templete.js:63 | sorting with `d3.ascending` yields an ascending arrangement of exactly the input values |
| `Stats.SortedUnique` | templete.js:63 | two ascending sequences with the same values are equal, so any correct sort gives the same result |
| `Stats.SortOfSorted` | templete.js:63 | sorting an already sorted sequence leaves it unchanged |
| `Stats.SortOfPermutation` | templete.js:63 | the sorted values depend only on which values there are, not on their input order |
| `Stats.SortEnds` | templete.js:63-68 | the first and last of the sorted values are values of the input, the least and the greatest of them |
| `Stats.Min` | templete.js:64 | `d3.min` is undefined exactly for no values, and otherwise is one of the values and at most every value |
| `Stats.Max` | templete.js:68 | `d3.max` is undefined exactly for no values, and otherwise is one of the values and at least every value |
| `Stats.MinMaxOfSorted` | templete.js:64-68 | on sorted values `d3.min` is the first element and `d3.max` the last |
| `Stats.RankInRange` | templete.js:65-67 | for 0 < p < 1 and n >= 2 the rank (n - 1)·p lies strictly inside, so both neighbours floor h and floor h + 1 are valid positions |
| `Stats.QuantileSorted` | templete.js:65-67 | the quantile is undefined exactly when there are no values |
| `Stats.Quantile` | templete.js:65-67 | `d3.quantile` is undefined exactly when there are no values |
| `Stats.QuantileOfSorted` | templete.js:65-67 | on values that are already sorted, `d3.quantile` equals the interpolated quantile read directly off them |
| `Stats.QuantileInterior` | templete.js:65-67 | for 0 < p < 1 and n >= 2 the quantile is sorted[lo] + (sorted[lo + 1] - sorted[lo])·(h - lo), with h = (n - 1)·p and lo = floor h |
| `Stats.QuantileBetween` | templete.js:65-67 | an interpolated quantile lies between the two neighbouring order statistics it mixes |
| `Stats.QuantileBounds` | templete.js:65-67 | every quantile of sorted values lies between the first and the last value |
| `Stats.QuantileMonotone` | templete.js:65-67 | a larger p never gives a smaller quantile |
| `Stats.QuantileAtWholeRank` | templete.js:65-67 | when (n - 1)·p is a whole number k, the quantile is exactly the k-th smallest value |
| `Stats.QuantileCeilNeighbour` | templete.js:65-67 | for every 0 <= p <= 1 the quantile equals the textbook interpolation sorted[floor h] + (h - floor h)·(sorted[ceil h] - sorted[floor h]) |
| `Stats.MedianIsMiddle` | templete.js:66 | the 0.5 quantile is the middle value of an odd count and the mean of the two middle values of an even count |
| `BoxSummary.RollupFunction` | templete.js:62-70 | the summary is defined exactly for a non-empty group |
| `BoxSummary.FiveNumbers` | templete.js:64-69 | the object `{min, q1, median, q3, max}` is defined exactly when there is at least one value |
| `BoxSummary.FiveNumbersOfSorted` | templete.js:64-69 | on sorted values min is the first and max the last value, and the quartiles are the quantiles read directly off them |
| `BoxSummary.FiveNumbersOrdered` | templete.js:64-69 | the five numbers of sorted values satisfy min <= q1 <= median <= q3 <= max |
| `BoxSummary.SummaryOfSorted` | templete.js:63-69 | min is the first and max the last of the group's sorted Likes; q1, median and q3 are the d3 quantiles at 0.25, 0.5 and 0.75 of those sorted values |
| `BoxSummary.SummaryOrdered` | templete.js:63-69 | for a non-empty group min <= q1 <= median <= q3 <= max; min and max are Likes of the group, and every Like of the group lies between them |
| `BoxSummary.SummaryOfSingleValue` | templete.js:64-68 | a group with one value x is summarised as {x, x, x, x, x} |
| `BoxSummary.SummaryIgnoresOrder` | templete.js:63 | any rearrangement of a group's records gives the same summary |
| `BoxSummary.QuartilesOfOneToFour` | templete.js:65-67 | the sorted values [1, 2, 3, 4] have quartiles 1.75, 2.5 and 3.25 |
| `BoxSummary.SummaryOfOneToFour` | templete.js:62-70 | a group whose Likes are 1, 2, 3 and 4, in any order, is summarised as {1, 1.75, 2.5, 3.25, 4} |
| `Grouping.FirstIndex` | templete.js:30 | the first occurrence of a value: it holds the value and no earlier position does |
| `Grouping.Distinct` | templete.js:30 | `[...new Set(xs)]` holds no value twice and holds exactly the values of xs |
| `Grouping.PlatformList` | templete.js:30 | the x-domain holds no platform twice and holds exactly the platforms of the table |
| `Grouping.DistinctFirstSeen` | templete.js:30 | the distinct values come in first-seen order: an earlier entry first occurs earlier in the input |
| `Grouping.FirstSeenExample` | templete.js:30 | platforms b, a, b give the x-domain [b, a], in appearance order and not alphabetical order |
| `Grouping.Filter` | templete.js:73 | a platform's group holds only records of the table that have that platform |
| `Grouping.FilterMembers` | templete.js:73 | a record is in a platform's group exactly when it is in the table and has that platform |
| `Grouping.FilterNonEmpty` | templete.js:73 | a platform's group is non-empty exactly when the platform occurs in the table |
| `Grouping.Find` | templete.js:73 | the get step of grouping finds the group with the key, or reports that no group has it |
| `Grouping.Add` | templete.js:73 | one get-or-push step of grouping; `Grouping.AddOpensGroup` and `Grouping.AddJoinsGroup` prove it keeps the grouping correct |
| `Grouping.PlatformListSnoc` | templete.js:30 | appending a record adds its platform at the end of the x-domain when it is new, and changes nothing otherwise |
| `Grouping.FilterSnoc` | templete.js:73 | appending a record appends it to its own platform's group and leaves every other platform's group as it was |
| `Grouping.AddOpensGroup` | templete.js:73 | a record of an unseen platform opens a new last group holding just that record, keeping the grouping correct |
| `Grouping.AddJoinsGroup` | templete.js:73 | a record of a platform already seen is appended to that group only, keeping the grouping correct |
| `Grouping.GroupBy` | templete.js:73 | grouping never produces an empty group |
| `Grouping.GroupByCorrect` | templete.js:73 | the group keys are the distinct platforms in first-seen order, and each group holds exactly its platform's records in input order |
| `Grouping.RollupKeys` | templete.js:73 | the rollup's keys equal the x-domain list: each platform of the table exactly once, in first-seen order |
| `Grouping.RollupEntries` | templete.js:73 | each entry's summary is `rollupFunction` of exactly the records of its platform |
| `Grouping.Rollup` | templete.js:73 | `d3.rollup(data, rollupFunction, d => d.Platform)`; `Grouping.RollupKeys` and `Grouping.RollupEntries` prove its keys are the x-domain and each summary is that of its platform's records |
| `Grouping.Lookup` | templete.js:73 | `quantilesByGroups.get(k)`; `Grouping.LookupAt` and `Grouping.LookupMissing` prove it finds an entry's summary and gives undefined for an absent key |
| `Grouping.LookupAt` | templete.js:73 | in a map with distinct keys, looking up an entry's key gives that entry's summary |
| `Grouping.LookupMissing` | templete.js:73 | looking up a key that is absent gives undefined |
| `Grouping.RollupLookup` | templete.js:73 | `quantilesByGroups.get(k)` is the summary of exactly k's records, and undefined for a k that is not in the data |
| `Grouping.RollupLookupPresent` | templete.js:73 | the platform of each rollup entry is looked up to the summary of exactly its records |
| `Grouping.RollupLookupAbsent` | templete.js:73 | a platform that does not occur has no entry, and its (empty) group has no summary |
| `Grouping.RollupIsolated` | templete.js:73 | a platform's summary depends only on its own records: two tables with the same values for k give k the same summary |
| `Grouping.RollupOrdered` | templete.js:73 | every box in the rollup satisfies min <= q1 <= median <= q3 <= max |
| `Grouping.BelowMaxLikes` | templete.js:35 | no record's Likes exceeds `d3.max(data, d => d.Likes)` |
| `Grouping.MaxLikes` | templete.js:35 | `d3.max(data, d => d.Likes)` is undefined exactly for an empty table |
| `Grouping.RollupWithinDomain` | templete.js:35 | every group's max is at most the y-domain's upper end, `d3.max(data, d => d.Likes)` |
| `BoxPlot.PrepareBoxPlot` | templete.js:10-73 | after the callback's non-drawing steps the rows are coerced in place, and the x-domain, y-domain maximum and rollup are those of the coerced records; the rollup's keys equal the x-domain |
| `BoxPlot.NaNCountsAsZero` | templete.js:13 | a Likes value that is NaN enters its platform's sorted values as exactly 0, so that group's min is at most 0 |

## Left out

- Loading the CSV files and chaining on the promises (`d3.csv(...).then`) is asynchronous I/O. The model starts from the loaded rows.
- All SVG and DOM construction is rendering through an external library: the container, the axes, labels, legend, whiskers, boxes and median lines.
- The pixel mapping is library internals and floating-point geometry: `scaleBand`, `scaleLinear().nice()`, `scaleOrdinal`, and `d3.line` with `curveNatural`. Only the domains the box plot gives its scales are modelled.
- The second chart (grouped bars) and the third chart (time series) are left out. Their only logic is an unguarded `+d.AvgLikes` conversion that feeds rendering.
- JavaScript's string-to-number rules (for example, `+""` is 0) are abstracted to the parse outcome each text field yields.
- IEEE floating-point behaviour is not modelled: there is no rounding in the interpolation and no overflow. The arithmetic is exact `real`, so a JavaScript number here is a real or NaN and never ±Infinity. A text such as `"Infinity"` or `"1e400"` becomes Infinity under unary plus, which is not NaN and so passes the check at templete.js:13 unchanged; such a value is not representable in this model.
- `Stats.QuantileSorted`: p is always a number constant here, so d3's `isNaN(p)` check is not modelled.
- `Stats.Min`, `Stats.Max`, `Stats.Quantile`: d3 skips null and NaN inputs. That case is not modelled, because the values reaching them are always numbers after coercion.
- The JavaScript engine's sorting algorithm is modelled by its result, an insertion sort. `Stats.SortedUnique` shows that every correct sort gives this result.
- The `console.log` calls are debugging output.
