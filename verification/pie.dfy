/**
 The pie chart's data preparation (PieChart.js): in comparison mode every
 slice colour is replaced by a dotted pattern drawn over the original colour;
 the chart margins follow whether data labels are shown.
 */
module Pie {
  import opened Wrappers
  import opened ChartData

  /** Chart margins while data labels are shown. */
  const LabelMargins: seq<int> := [0, 2, 0, 2]

  /** Chart margins once the renderer has hidden the data labels. */
  const NoLabelMargins: seq<int> := [-5, -5, -5, -5]

  /** The two dots of the comparison tile, as SVG path commands. */
  const PatternDots: seq<string> := ["M3,2a1,1 0 1,0 2,0a1,1 0 1,0 -2,0", "M0,5a1,1 0 1,0 2,0a1,1 0 1,0 -2,0"]

  /** Width and height of the comparison tile. */
  const TileSize := 6

  /**
   `getComparisonPattern`: a 6x6 tile with the two dots filled with the
   pattern colour (`dotColor`, the colour module's `COMPARE_PATTERN_COLOR`),
   no stroke, over the given background colour.
   */
  function ComparisonPattern(backgroundColor: Option<Paint>, dotColor: string): (c: Paint)
    ensures c.Patterned?
    ensures c.pattern.width == TileSize && c.pattern.height == TileSize
    ensures c.pattern.path.d == PatternDots && |c.pattern.path.d| == 2
    ensures c.pattern.path.fill == dotColor && c.pattern.path.strokeWidth == 0
    ensures c.pattern.backgroundColor == backgroundColor
  {
    Patterned(Pattern(PatternPath(PatternDots, dotColor, 0), TileSize, TileSize, backgroundColor))
  }

  /**
   `seriesData`: the data unchanged outside comparison mode; in comparison mode
   the same slices in the same order, each with only its colour replaced by
   the comparison pattern over the original colour.
   */
  function SeriesData(data: seq<Point>, isComparison: bool, dotColor: string): (r: seq<Point>)
    ensures !isComparison ==> r == data
    ensures |r| == |data|
    ensures forall i :: 0 <= i < |data| ==> r[i].(color := data[i].color) == data[i]
    ensures forall i :: 0 <= i < |data| ==> LabelValue(r[i]) == LabelValue(data[i])
    ensures isComparison ==> forall i :: 0 <= i < |data| ==>
              r[i].color.Some? && r[i].color.value.Patterned? &&
              r[i].color.value.pattern.backgroundColor == data[i].color
  {
    if !isComparison then data
    else seq(|data|, i requires 0 <= i < |data| => data[i].(color := Some(ComparisonPattern(data[i].color, dotColor))))
  }

  /** The margins `handleResize` selects. */
  function ResizeMargins(labelsEnabled: bool): (m: seq<int>)
    ensures |m| == 4
    ensures labelsEnabled ==> m[0] == m[2] == 0 && m[1] == m[3] == 2
    ensures !labelsEnabled ==> forall i :: 0 <= i < 4 ==> m[i] == -5
  {
    if labelsEnabled then LabelMargins else NoLabelMargins
  }

  /** The series name: the scenario name of the first slice, if it has a scenario. */
  function SeriesName(data: seq<Point>): Option<string>
    requires |data| > 0
  {
    if data[0].scenario.Some? then Some(data[0].scenario.value.name) else None
  }

  /** Comparison mode does not change the series name. */
  lemma LemmaSeriesNameStable(data: seq<Point>, isComparison: bool, dotColor: string)
    requires |data| > 0
    ensures SeriesName(SeriesData(data, isComparison, dotColor)) == SeriesName(data)
  {
    assert SeriesData(data, isComparison, dotColor)[0].scenario == data[0].scenario;
  }
}
