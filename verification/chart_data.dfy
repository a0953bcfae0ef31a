/**
 Records shared by the chart components: colours (a CSS colour string or a
 pattern fill object), scenario references and chart points.
 */
module ChartData {
  import opened Wrappers

  /** The path of a pattern tile: its SVG path commands, fill colour and stroke width. */
  datatype PatternPath = PatternPath(d: seq<string>, fill: string, strokeWidth: int)

  /** A repeating pattern tile drawn over an optional background colour. */
  datatype Pattern = Pattern(path: PatternPath, width: int, height: int, backgroundColor: Option<Paint>)

  /** A colour as the charting library accepts it: a CSS colour or `{ pattern: ... }`. */
  datatype Paint = Solid(css: string) | Patterned(pattern: Pattern)

  /**
   The uninterpreted comparison fill helper of the colour module
   (`getComparisonPatternFill`): any function from an optional colour to a paint.
   */
  type PatternFill = Option<Paint> -> Paint

  /** The scenario a point belongs to. */
  datatype ScenarioRef = ScenarioRef(scenarioId: int, name: string)

  /**
   A data point of a funnel or pie chart. `rawY` holds the original value when
   `y` had to be altered for display.
   */
  datatype Point = Point(
    name: string,
    y: real,
    rawY: Option<real>,
    color: Option<Paint>,
    scenario: Option<ScenarioRef>)

  /** The value a data label reports: the original value when one was kept, else the drawn value. */
  function LabelValue(p: Point): (v: real)
    ensures p.rawY.Some? ==> v == p.rawY.value
    ensures p.rawY.None? ==> v == p.y
  {
    p.rawY.GetOr(p.y)
  }
}
