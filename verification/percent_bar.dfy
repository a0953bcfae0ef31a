/**
 The percent bar chart's series assembly (PercentBarChart.js): each scenario's
 array of items becomes one stack of bar series, coloured from a banded
 gradient of the scenario colour (or a colour override), with the comparison
 pattern fill and a lower data-label offset for every scenario after the
 first.
 */
module PercentBar {
  import opened Wrappers
  import opened ChartData

  /** Vertical distance of the data labels from the bar. */
  const DataLabelOffset := 30

  datatype BarScenario = BarScenario(color: string, name: string)

  /** One item of a scenario's array: optional id, name, values and scenario. */
  datatype BarItem = BarItem(id: Option<string>, name: string, data: seq<real>, scenario: BarScenario)

  /** The configuration of one rendered bar series. */
  datatype BarSeries = BarSeries(
    index: nat,
    name: string,
    color: Paint,
    data: seq<real>,
    labelColor: string,
    labelOffset: int,
    stack: string,
    scenario: BarScenario)

  /** The series rendered for one non-empty scenario array, under its React key. */
  datatype ScenarioBars = ScenarioBars(key: string, series: seq<BarSeries>)

  /**
   The uninterpreted banded-gradient helper of the colour module
   (`getBandedGradient`): `count` shades of a base colour.
   */
  type Banding = (string, nat) -> seq<Paint>

  /** The series id: the item's `id` when it has one, else its name. */
  function SeriesId(item: BarItem): string {
    item.id.GetOr(item.name)
  }

  /** The item's colour: the override the colour map holds for its id, else its shade of the gradient. */
  function MappedColor(colors: Option<map<string, Paint>>, item: BarItem, stepped: seq<Paint>, idx: nat): Paint
    requires idx < |stepped|
  {
    var id := SeriesId(item);
    if colors.Some? && id in colors.value then colors.value[id] else stepped[idx]
  }

  /** The gradient yields one shade per item of the scenario array. */
  predicate BandingFits(band: Banding, data: seq<BarItem>) {
    |data| > 0 && |band(data[0].scenario.color, |data|)| == |data|
  }

  /**
   `StackedBarSeries`: one bar series per item, in order, all in the stack and
   scenario of the first item. The colour is the override for the item's id or
   the item's shade, pattern-filled exactly when the scenario index is
   positive; the data labels sit 30 above the bar for the first scenario and
   30 below for the others.
   */
  function StackedBarSeries(data: seq<BarItem>, index: nat, colors: Option<map<string, Paint>>, band: Banding, fill: PatternFill): (r: seq<BarSeries>)
    requires BandingFits(band, data)
    ensures |r| == |data|
    ensures forall i :: 0 <= i < |data| ==>
              && r[i].index == index && r[i].name == data[i].name && r[i].data == data[i].data
              && r[i].stack == data[0].scenario.name && r[i].scenario == data[0].scenario
              && r[i].labelColor == data[0].scenario.color
              && r[i].labelOffset == (if index == 0 then -DataLabelOffset else DataLabelOffset)
    ensures forall i :: 0 <= i < |data| ==>
              var base := MappedColor(colors, data[i], band(data[0].scenario.color, |data|), i);
              r[i].color == (if index > 0 then fill(Some(base)) else base)
  {
    var scenario := data[0].scenario;
    var stepped := band(scenario.color, |data|);
    var offset := if index != 0 then DataLabelOffset else -DataLabelOffset;
    seq(|data|, i requires 0 <= i < |data| =>
      var mapped := MappedColor(colors, data[i], stepped, i);
      BarSeries(index, data[i].name, if index > 0 then fill(Some(mapped)) else mapped,
                data[i].data, scenario.color, offset, scenario.name, scenario))
  }

  /**
   The same items drawn as a comparison scenario instead of the base: only
   the index, the label offset and the colour differ, and each colour is the
   pattern fill of the base colour.
   */
  lemma LemmaComparisonIsPatternedBase(data: seq<BarItem>, index: nat, colors: Option<map<string, Paint>>, band: Banding, fill: PatternFill)
    requires BandingFits(band, data) && index > 0
    ensures var base := StackedBarSeries(data, 0, colors, band, fill);
      var cmp := StackedBarSeries(data, index, colors, band, fill);
      forall i :: 0 <= i < |data| ==>
        && cmp[i].color == fill(Some(base[i].color))
        && cmp[i].labelOffset == -base[i].labelOffset
        && cmp[i].(index := 0, color := base[i].color, labelOffset := base[i].labelOffset) == base[i]
  {
  }

  /** Every non-empty scenario array has a gradient of the right length. */
  predicate AllBandingsFit(band: Banding, data: seq<seq<BarItem>>) {
    forall i :: 0 <= i < |data| && |data[i]| > 0 ==> BandingFits(band, data[i])
  }

  /** The React key of scenario `idx`. */
  function ScenarioKey(idx: nat): string {
    if idx == 0 then "base" else "compare"
  }

  /**
   The children of the y axis: for each non-empty scenario array, in order,
   its stacked series at its own position in `data`; empty arrays render
   nothing.
   */
  function YAxisSeries(data: seq<seq<BarItem>>, colors: Option<map<string, Paint>>, band: Banding, fill: PatternFill): (r: seq<ScenarioBars>)
    requires AllBandingsFit(band, data)
    ensures |r| <= |data|
  {
    if |data| == 0 then []
    else
      var p := data[..|data| - 1];
      var last := data[|data| - 1];
      assert AllBandingsFit(band, p) by {
        assert forall i :: 0 <= i < |p| ==> p[i] == data[i];
      }
      YAxisSeries(p, colors, band, fill)
      + (if |last| > 0 then [ScenarioBars(ScenarioKey(|p|), StackedBarSeries(last, |p|, colors, band, fill))] else [])
  }

  /** The positions of the non-empty scenario arrays, ascending. */
  function NonEmptyPositions(data: seq<seq<BarItem>>): (ps: seq<nat>)
    ensures forall k :: 0 <= k < |ps| ==> ps[k] < |data| && |data[ps[k]]| > 0
  {
    if |data| == 0 then []
    else NonEmptyPositions(data[..|data| - 1]) + (if |data[|data| - 1]| > 0 then [|data| - 1] else [])
  }

  /**
   The y axis holds exactly one entry per non-empty scenario array, and the
   entry for the array at position `i` is built with index `i`: an empty base
   scenario does not promote the comparison scenario to the base styling.
   */
  lemma {:induction false} LemmaYAxisKeepsPositions(data: seq<seq<BarItem>>, colors: Option<map<string, Paint>>, band: Banding, fill: PatternFill)
    requires AllBandingsFit(band, data)
    ensures var r := YAxisSeries(data, colors, band, fill);
      var ps := NonEmptyPositions(data);
      && |r| == |ps|
      && forall k :: 0 <= k < |ps| ==>
           r[k] == ScenarioBars(ScenarioKey(ps[k]), StackedBarSeries(data[ps[k]], ps[k], colors, band, fill))
  {
    if |data| > 0 {
      var p := data[..|data| - 1];
      assert forall i :: 0 <= i < |p| ==> p[i] == data[i];
      LemmaYAxisKeepsPositions(p, colors, band, fill);
    }
  }
}
