/**
 How the comparison colouring of the pie chart meets the legend: the legend
 resolves a comparison pattern back to the colour it was drawn over, so the
 legend of a comparison chart matches the legend of its base chart.
 */
module Comparison {
  import opened ChartData
  import opened Wrappers
  import Legend
  import Pie

  /** The legend's colour resolution inverts the pie's comparison pattern. */
  lemma LemmaPatternRoundTrip(c: Paint, dotColor: string)
    ensures Legend.ResolveColor(Pie.ComparisonPattern(Some(c), dotColor)) == c
  {
  }

  /** The entities with every colour replaced by its comparison pattern. */
  function AsComparison(es: seq<Legend.Entity>, dotColor: string): (r: seq<Legend.Entity>)
    ensures |r| == |es|
    ensures forall i :: 0 <= i < |es| ==>
              r[i].(color := es[i].color) == es[i] && Legend.ResolveColor(r[i].color) == es[i].color
  {
    seq(|es|, i requires 0 <= i < |es| => es[i].(color := Pie.ComparisonPattern(Some(es[i].color), dotColor)))
  }

  /**
   For entities with plain colours, drawing them in comparison style leaves
   the legend unchanged: same items, order, values and swatches.
   */
  lemma {:induction false} LemmaComparisonLegendUnchanged(es: seq<Legend.Entity>, dotColor: string)
    requires forall i :: 0 <= i < |es| ==> es[i].color.Solid?
    ensures Legend.LegendItems(AsComparison(es, dotColor)) == Legend.LegendItems(es)
  {
    if |es| > 0 {
      var p := es[..|es| - 1];
      var e := es[|es| - 1];
      var cs := AsComparison(es, dotColor);
      assert cs[..|cs| - 1] == AsComparison(p, dotColor);
      LemmaComparisonLegendUnchanged(p, dotColor);
      var x := cs[|cs| - 1];
      assert Legend.ResolveColor(x.color) == Legend.ResolveColor(e.color);
      assert x.(color := e.color) == e;
    }
  }

  /**
   The legend entity Highcharts renders for the `i`-th point of a pie series:
   the point's name, position, colour and values, with no legend options set.
   */
  function PointEntity(p: Point, i: int): (e: Legend.Entity)
    requires p.color.Some?
    ensures e.name == Some(p.name) && e.index == i && e.color == p.color.value
    ensures Legend.InLegend(e) && e.optionsIndex.None?
    ensures Legend.ItemValue(e) == Some(LabelValue(p))
  {
    Legend.Entity(Some(p.name), i, p.color.value, Some(p.y), p.rawY, None, None)
  }

  /** Every point has a colour, as Highcharts assigns one before the legend reads it. */
  predicate Coloured(data: seq<Point>) {
    forall i :: 0 <= i < |data| ==> data[i].color.Some?
  }

  function PointEntities(data: seq<Point>): (es: seq<Legend.Entity>)
    requires Coloured(data)
    ensures |es| == |data|
  {
    seq(|data|, i requires 0 <= i < |data| => PointEntity(data[i], i))
  }

  /**
   The pie's comparison map, seen through the legend, is `AsComparison`: the
   entities of the comparison data are the comparison-coloured entities of
   the base data.
   */
  lemma LemmaSeriesDataIsAsComparison(data: seq<Point>, dotColor: string)
    requires Coloured(data)
    ensures Coloured(Pie.SeriesData(data, true, dotColor))
    ensures PointEntities(Pie.SeriesData(data, true, dotColor)) == AsComparison(PointEntities(data), dotColor)
  {
    var cs := Pie.SeriesData(data, true, dotColor);
    assert Coloured(cs);
    forall i | 0 <= i < |data|
      ensures PointEntities(cs)[i] == AsComparison(PointEntities(data), dotColor)[i]
    {
      assert cs[i] == data[i].(color := Some(Pie.ComparisonPattern(data[i].color, dotColor)));
    }
  }

  /**
   A pie chart with plain slice colours has the same legend in comparison
   mode as in base mode: same items, order, values and swatches.
   */
  lemma LemmaPieLegendUnchanged(data: seq<Point>, dotColor: string)
    requires Coloured(data)
    requires forall i :: 0 <= i < |data| ==> data[i].color.value.Solid?
    ensures Coloured(Pie.SeriesData(data, true, dotColor))
    ensures Legend.LegendItems(PointEntities(Pie.SeriesData(data, true, dotColor)))
            == Legend.LegendItems(PointEntities(data))
  {
    LemmaSeriesDataIsAsComparison(data, dotColor);
    LemmaComparisonLegendUnchanged(PointEntities(data), dotColor);
  }
}
