# Chart data transforms

A Dafny model of the pure data preparation inside five chart components of a
React/Highcharts front end:

- **ChartLegend**: `getLegendItems` groups rendered series or points by
  name into legend items in first-seen order. It skips entities hidden from
  the legend, reads a comparison pattern back to its background colour, and
  inserts each new colour of an item with `Array.prototype.splice` at the
  entity's `options.index`. Around it sit the redraw handler (which entities
  are listed, and the optional reversal), the effect that resyncs on a
  change of active series, the `maxItems` slice and the "Show More"
  condition.
- **ChartMetrics**: the scenario comparison table. It covers:
  - per-scenario totals, from the array entries of `data` only;
  - the header total-variance fold `v' = -v - t`;
  - per-metric rows, where each cell resolves its value through
    `getValue` (per-scenario object, shared function or `point[key]`) and
    shows `'--'` when the value is empty;
  - the row variance fold `acc' = value - acc`, displayed negated;
  - metrics dropped by `exclude`.
- **FunnelChart**: `dataByScenario`, which groups points by
  `scenario.scenarioId` into an insertion-ordered map. Points without a
  scenario are dropped. Negative values are drawn at 0, with the original
  kept in `rawY`. The non-negative points of every scenario after the
  first get the comparison pattern fill; negative points keep their
  colour. `hasComparison` holds when there is more than one group.
- **PieChart**: `getComparisonPattern`, the `seriesData` comparison map,
  the series name and the margin choice of `handleResize`.
- **PercentBarChart**: `StackedBarSeries`, which covers per-item series
  ids, colour overrides, banded colours, pattern fill and label offset for
  comparison scenarios, and the stack key. It also models the y-axis map,
  which skips empty scenario arrays.

Modules:

| module | contents |
|---|---|
| `Wrappers` | `Option`, standing for JS `undefined`/`null` |
| `Sequences` | `Distinct`, `FirstIndex`, `Dedup` (first-seen de-duplication, the reference for grouping order), `Reverse` |
| `JsArray` | the relative-index normalisation of `splice`/`slice`, and insertion at a position |
| `ChartData` | paints (plain colours and patterns), points, and the `rawY ?? y` label value |
| `Legend`, `Metrics`, `Funnel`, `Pie`, `PercentBar` | one module per component |
| `Comparison` | how the pie's comparison pattern and the legend's colour resolution fit together |

Helpers of the colour and formatting modules are not part of this model.
Each becomes a parameter of the functions that call it:

| helper | parameter |
|---|---|
| `getComparisonPatternFill` | `fill: Option<Paint> -> Paint` |
| `getBandedGradient` | `band: (string, nat) -> seq<Paint>` |
| `COMPARE_PATTERN_COLOR` | `dotColor: string` |
| `metricFormatters.monetary` and the formatters | `Option<real> -> string` |
| `isEmptyOrNull` | "the value is `None`" |

Numbers are Dafny `real`.

Notes on behaviour, where the code differs from the natural reading of the
components' descriptions (the model follows the code):

- With two scenarios, both the header variance and the row variance equal
  first minus second. For values 100 and 50 the cell shows 50, not -50.
- The displayed row variance is always the negated accumulator. The
  `acc === 0 ? acc : -acc` guard only matters for the sign of zero.
- The effect that resyncs the legend when the active series changes
  (`ChartLegend.js:117-120`) never reverses the items, whatever `reverse`
  says. `Legend.SyncItems` models this as written.
- A colour new to an item is inserted with `splice(options.index, 0, c)`.
  Points carry no `options.index`, and `splice` reads an undefined start as
  0, so in pie and funnel legends each new colour goes to the front. Two
  points named A coloured `#f00` then `#00f` give the swatches
  `[#00f, #f00]`, newest first (`Legend.LemmaPointColorsNewestFirst`).

## Model

| member | source | states |
|---|---|---|
| Legend.FindByName | ChartLegend.js:27 | the position returned holds the name and no earlier item does; none is returned only when no item has the name |
| Legend.LemmaSkipsHidden | ChartLegend.js:22 | entities with `showInLegend === false` contribute nothing: the legend equals the legend of the shown entities alone |
| Legend.LemmaNamesFirstSeen | ChartLegend.js:27-35 | the item names are exactly the shown entities' names, de-duplicated in first-seen order |
| Legend.LemmaItemOrder | ChartLegend.js:20-41 | item names are pairwise distinct, every shown name has an item and every item a shown name, items are ordered by first occurrence of their name, and there are never more items than entities |
| Legend.LemmaHeaderFromFirstEntity | ChartLegend.js:29-35 | each item's `index` and value (`rawY ?? y`) come from the first shown entity with its name; later entities never change them |
| Legend.LemmaWellFormed | ChartLegend.js:27-38 | names stay unique and no item's colour list ever holds a duplicate |
| Legend.LemmaColorsCovered | ChartLegend.js:25-38 | every shown entity's resolved colour is among the colours of the item for its name |
| Legend.LemmaColorProvenance | ChartLegend.js:25-38 | every colour of an item is the resolved colour of some shown entity with that item's name |
| Legend.LemmaColorInsertion | ChartLegend.js:36-37 | a new colour lands at the normalised `splice` start of `options.index`; removing it gives back the old list, and no other item or field changes |
| Legend.RedrawEntities | ChartLegend.js:102-107 | funnel and pie charts list the points of the active series (else the first series); other charts list the series |
| Legend.RedrawItems | ChartLegend.js:99-111 | a redraw with no series changes nothing; otherwise the items are the legend of the redraw entities, exactly reversed when `reverse` is set |
| Legend.SyncItems | ChartLegend.js:117-120 | the items become the legend of the active series' points, else of the first series' points, and are left alone when there is neither |
| Legend.ShownItems | ChartLegend.js:125 | the displayed items are a prefix of the items, all of them without `maxItems`, otherwise as many as the slice end `maxItems` selects: that many when it is between 0 and the length, all of them past the end, and all but the last `-maxItems` for a negative limit |
| Legend.LemmaPointColorsNewestFirst | ChartLegend.js:36-37 | two entities named A without `options.index`, coloured red then blue, give one item with the swatches blue, red |
| Legend.LemmaShowMoreIffTruncated | ChartLegend.js:149 | for a non-negative limit, the link shows exactly when a URL is set and the displayed list is shorter than the full list |
| JsArray.RelativeIndex | ChartLegend.js:37 | a relative index is clamped into `0..len`, with a negative index counting back from the end |
| JsArray.SpliceInsert | ChartLegend.js:37 | `splice(start, 0, x)` puts `x` at the normalised start, keeps every other element in order, puts it first for an undefined start and appends it for a start past the end |
| JsArray.SliceEnd | ChartLegend.js:125 | the end of `slice(0, end)` is the whole length for an undefined end and the clamped relative index otherwise |
| JsArray.InsertAtDistinct | ChartLegend.js:36-37 | inserting a colour that is not yet in a duplicate-free list keeps it duplicate-free |
| ChartData.LabelValue | FunnelChart.js:99-101 | the label value is `rawY` when present, else `y`, so a clamped point still reports its original value |
| Metrics.SeriesSumAppend | ChartMetrics.js:89 | a series total is additive over concatenation, so each item adds its first data value and the empty series totals 0 |
| Metrics.LemmaTotalsAppend | ChartMetrics.js:85-91 | each array entry adds exactly its series' total at the end of the totals; a non-array entry adds nothing, so later totals shift position |
| Metrics.DisplayVariance | ChartMetrics.js:202-204 | the displayed row variance is the negated accumulator |
| Metrics.LemmaRowFoldIsAltSum | ChartMetrics.js:175-177 | the row accumulator over any number of scenarios is the alternating sum of the values, last value positive, empty values as 0 |
| Metrics.LemmaHeaderIsNegatedRowFold | ChartMetrics.js:129-131 | the header fold over the totals is the negation of the row fold over the same numbers |
| Metrics.LemmaHeaderMatchesRow | ChartMetrics.js:129-204 | for the same non-empty values the header variance equals the displayed row variance, and both are the negated alternating sum |
| Metrics.LemmaTwoScenarioVariance | ChartMetrics.js:129-204 | with two scenarios both variances show first minus second, an empty second value counts as 0, and one scenario gives the negated value |
| Metrics.ResolveValue | ChartMetrics.js:164-173 | a falsy point is empty; otherwise the per-scenario getter, else the shared getter, else the point's `key` field gives the value |
| Metrics.LemmaKeyOnlyAsFallback | ChartMetrics.js:168-172 | when a getter applies to the scenario, the metric's `key` has no influence on the value |
| Metrics.CellText | ChartMetrics.js:186-190 | a non-empty value is shown formatted, an empty one as `'--'` |
| Metrics.BuildRow | ChartMetrics.js:146-209 | a row has one cell per data entry, formatted with the metric's formatter or the table's, and with more than one scenario a variance cell showing the negated alternating sum of its values |
| Metrics.LemmaRowsAppend | ChartMetrics.js:138-150 | the body keeps metric order: each further metric adds its row at the end, or nothing when `exclude(data)` holds |
| Metrics.ChartMetrics | ChartMetrics.js:78-215 | the header has a total per scenario, taken from the same position among the array entries and handed on empty past their end, plus a total-variance cell, equal to the negated alternating sum of the totals, exactly when there is more than one scenario; the body is the rows of the non-excluded metrics, each formatted with the metric's formatter, else `valueFormatter`, else the monetary formatter |
| Metrics.LemmaStoryTotals | ChartMetrics.stories.js:35-82 | the story fixture totals 375 and 605 with a total variance of -230 |
| Funnel.Adjust | FunnelChart.js:67-84 | every adjusted point is drawn at a non-negative value; a negative point is drawn at 0 with its value kept in `rawY`, keeps its colour and reports its original value as label; a non-negative point keeps its value and gets the pattern fill exactly when it is a comparison |
| Funnel.FindGroup | FunnelChart.js:86 | the group found has the scenario id, and none is found only when no group has it |
| Funnel.DataByScenario | FunnelChart.js:60-90 | missing data gives no groups; otherwise one point list per distinct scenario id, in first-seen order, each holding exactly that id's points in input order, adjusted, with the fill in every group after the first |
| Funnel.LemmaGrouping | FunnelChart.js:62-89 | the groups are the distinct scenario ids in first-seen order, each holding exactly its id's points in input order, adjusted, with the fill in every group after the first |
| Funnel.LemmaNonNegative | FunnelChart.js:72-84 | every point handed to a funnel series has `y >= 0` |
| Funnel.LemmaDropsUnassigned | FunnelChart.js:64 | the grouping is the same as for the data with unassigned points removed |
| Funnel.LemmaNoScenarioNoGroups | FunnelChart.js:61-64 | missing data, or data with no assigned point, gives no groups |
| Funnel.LemmaHasComparison | FunnelChart.js:127 | `hasComparison` holds exactly when two points carry different scenario ids |
| Pie.ComparisonPattern | PieChart.js:13-29 | the pattern is a 6x6 tile of the two fixed dots, filled with the pattern colour without stroke, over the given background |
| Pie.SeriesData | PieChart.js:56-63 | outside comparison mode the data is unchanged; in comparison mode length, order, label value and every field except the colour are kept, and each colour becomes a pattern over the original colour |
| Pie.ResizeMargins | PieChart.js:77-80 | the margins are `[0,2,0,2]` with data labels and `-5` on every side without |
| Pie.LemmaSeriesNameStable | PieChart.js:93 | comparison mode does not change the series name |
| Comparison.LemmaPatternRoundTrip | ChartLegend.js:25 | the legend resolves the pie's comparison pattern back to the colour it was drawn over |
| Comparison.AsComparison | PieChart.js:59-62 | each entity keeps every field but its colour, which the legend resolves back to the original |
| Comparison.LemmaComparisonLegendUnchanged | ChartLegend.js:20-41 | for plain-coloured entities the legend of the comparison-coloured chart equals the legend of the base chart |
| Comparison.PointEntity | ChartLegend.js:34 | a pie point seen by the legend keeps its name, position and colour, is shown, has no `options.index`, and its item value is the point's label value |
| Comparison.LemmaSeriesDataIsAsComparison | PieChart.js:56-63 | the entities of the pie's comparison data are exactly the comparison-coloured entities of its base data |
| Comparison.LemmaPieLegendUnchanged | PieChart.js:56-63 | a pie with plain slice colours shows the same legend in comparison mode as in base mode |
| PercentBar.StackedBarSeries | PercentBarChart.js:64-102 | one series per item, in order. Each keeps its name and data, shares the first item's stack, scenario and label colour, and has a label offset of -30 for the first scenario and +30 otherwise. Its colour is the override for `id ?? name`, else the item's band, pattern-filled exactly for a positive index |
| PercentBar.LemmaComparisonIsPatternedBase | PercentBarChart.js:74-86 | a comparison stack differs from the base stack of the same items only in index, mirrored label offset and colour, each colour being the pattern fill of the base colour |
| PercentBar.YAxisSeries | PercentBarChart.js:163-172 | the y axis never holds more stacks than there are scenario arrays |
| PercentBar.LemmaYAxisKeepsPositions | PercentBarChart.js:163-172 | there is one stack per non-empty scenario array, in order. Each is built with its array's own position as index and keyed `base` or `compare` by that position, so an empty base does not promote the comparison |

## Left out

- React rendering, JSX markup, hooks, memoisation and effect lifecycles are not modelled, and neither is the wiring of Highcharts events (`addEvent`/`removeEvent`, `mouseOver`, `afterAnimate`). They are framework plumbing. The two legend effects appear only as the pure functions `Legend.RedrawItems` and `Legend.SyncItems`.
- The legend's reset to no items when the chart is missing (ChartLegend.js:92-97) is not modelled. It is a state update with no computation.
- The legend's bullets, labels and `valueFormatter` display, and the metrics table's scenario icons, bullets and `colors` map (ChartMetrics.js:182), are markup only.
- The funnel's SVG clip paths (FunnelChart.js:14-38) are not modelled. They are DOM side effects.
- The funnel's hover states, data-label choice, series keys and names, and `MARGINS` constant are not modelled. They are rendering options.
- Plot options, axis configuration, percent stacking and sizing are not modelled. They are Highcharts configuration.
- The label formatter strings of the funnel and pie charts are left out: they are string templates around the external value formatter. Only the `rawY ?? y` value they read is modelled, as `ChartData.LabelValue`.
- The colour helpers (`getBandedGradient`, `getComparisonPatternFill`, `COMPARE_PATTERN_COLOR`) and the metric formatters are not part of this model. They are parameters, as described above.
- Floating point is not modelled. Numbers are exact reals. The NaN branch of the variance cell (ChartMetrics.js:200-206) and the sign of zero are out of scope.
- An item of a metrics series is modelled by the first element of its `data` array. An empty array would give `undefined` and a NaN total, which is out of scope.
- `point[key]` with no `key` reads a property named `"undefined"`. The model treats that as an empty value.
- JS compares colour objects by reference in `colors.includes`, and the model compares paints by value. Two equal-looking pattern objects without a background colour are one colour here.
- `maxItems` is modelled as an integer. Fractional limits are out of scope.
- Metrics.BuildRow: requires a scenario for every data entry, because the code reads `scenario.name` of a missing scenario and throws. Metrics.RowValues and Metrics.Rows state the same requirement.
- PercentBar.StackedBarSeries: requires that the banded gradient yields one colour per item of a non-empty scenario array. The gradient helper is a parameter, and an empty array is never rendered.
- Comparison.PointEntities: requires every point to have a colour; Highcharts assigns one from its palette before the legend reads it, and that palette is not modelled.
- Pie.LemmaSeriesNameStable: requires non-empty data, because the code reads `seriesData[0]` and throws on an empty array.
