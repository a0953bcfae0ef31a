/**
 The funnel chart's data preparation (FunnelChart.js): points are grouped by
 scenario id into an insertion-ordered map, negative values are clamped to 0
 for drawing, and the non-negative points of every scenario after the first
 get the comparison pattern fill.
 */
module Funnel {
  import opened Wrappers
  import opened Sequences
  import opened ChartData

  /** One entry of the scenario map: a scenario id and the points collected for it. */
  datatype Group = Group(id: int, points: seq<Point>)

  /**
   The per-point update. A negative point is drawn at 0 and keeps its value in
   `rawY` and its colour; a non-negative point of a comparison scenario gets
   the pattern fill of its colour.
   */
  function Adjust(p: Point, isComparison: bool, fill: PatternFill): (q: Point)
    ensures q.y >= 0.0
    ensures q.name == p.name && q.scenario == p.scenario
    ensures p.y < 0.0 ==> q.y == 0.0 && q.rawY == Some(p.y)
    ensures p.y < 0.0 ==> q.color == p.color && LabelValue(q) == p.y
    ensures p.y >= 0.0 ==> q.y == p.y && LabelValue(q) == LabelValue(p)
    ensures p.y >= 0.0 ==> q.color == (if isComparison then Some(fill(p.color)) else p.color)
  {
    if p.y < 0.0 then p.(y := 0.0, rawY := Some(p.y))
    else p.(color := if isComparison then Some(fill(p.color)) else p.color)
  }

  /** The position of the group with scenario id `id`, if any. */
  function FindGroup(groups: seq<Group>, id: int): (r: Option<nat>)
    ensures r.Some? ==> r.value < |groups| && groups[r.value].id == id
    ensures r.None? ==> forall j :: 0 <= j < |groups| ==> groups[j].id != id
  {
    if |groups| == 0 then None
    else if groups[0].id == id then Some(0)
    else
      match FindGroup(groups[1..], id)
      case None => None
      case Some(k) => Some(k + 1)
  }

  /** One step of the `dataByScenario` reduce over a `Map`. */
  function Step(groups: seq<Group>, p: Point, fill: PatternFill): seq<Group> {
    if p.scenario.None? then groups
    else
      var id := p.scenario.value.scenarioId;
      var isComparison := |groups| > 0 && groups[0].id != id;
      var q := Adjust(p, isComparison, fill);
      match FindGroup(groups, id)
      case Some(k) => groups[k := Group(id, groups[k].points + [q])]
      case None => groups + [Group(id, [q])]
  }

  /** The scenario map built over the points, as its entries in insertion order. */
  function ScenarioMap(data: seq<Point>, fill: PatternFill): seq<Group> {
    if |data| == 0 then [] else Step(ScenarioMap(data[..|data| - 1], fill), data[|data| - 1], fill)
  }

  /** `dataByScenario`: the map's values; no data gives no groups. */
  function DataByScenario(data: Option<seq<Point>>, fill: PatternFill): (r: seq<seq<Point>>)
    ensures data.None? ==> r == []
    ensures data.Some? ==> |r| == |ScenarioMap(data.value, fill)|
    ensures data.Some? ==> forall j :: 0 <= j < |r| ==> r[j] == ScenarioMap(data.value, fill)[j].points
    ensures data.Some? ==> |r| == |Dedup(KeptIds(data.value))|
    ensures data.Some? ==> forall j :: 0 <= j < |r| ==>
              r[j] == AdjustAll(WithId(data.value, Dedup(KeptIds(data.value))[j]), j > 0, fill)
  {
    match data
    case None => []
    case Some(d) =>
      var gs := ScenarioMap(d, fill);
      LemmaGrouping(d, fill);
      assert forall j :: 0 <= j < |gs| ==> Dedup(KeptIds(d))[j] == GroupIds(gs)[j] == gs[j].id;
      seq(|gs|, j requires 0 <= j < |gs| => gs[j].points)
  }

  /** `hasComparison`: more than one scenario group. */
  predicate HasComparison(data: Option<seq<Point>>, fill: PatternFill) {
    |DataByScenario(data, fill)| > 1
  }

  function GroupIds(groups: seq<Group>): seq<int> {
    seq(|groups|, j requires 0 <= j < |groups| => groups[j].id)
  }

  /** The scenario ids of the points that have a scenario, in input order. */
  function KeptIds(data: seq<Point>): seq<int> {
    if |data| == 0 then []
    else
      var last := data[|data| - 1];
      KeptIds(data[..|data| - 1]) + (if last.scenario.Some? then [last.scenario.value.scenarioId] else [])
  }

  /** The points of scenario `id`, in input order. */
  function WithId(data: seq<Point>, id: int): seq<Point> {
    if |data| == 0 then []
    else
      var last := data[|data| - 1];
      WithId(data[..|data| - 1], id) + (if last.scenario.Some? && last.scenario.value.scenarioId == id then [last] else [])
  }

  function AdjustAll(ps: seq<Point>, isComparison: bool, fill: PatternFill): seq<Point> {
    seq(|ps|, i requires 0 <= i < |ps| => Adjust(ps[i], isComparison, fill))
  }

  /** A scenario id no point carries has no points. */
  lemma {:induction false} WithIdAbsent(data: seq<Point>, id: int)
    requires id !in KeptIds(data)
    ensures WithId(data, id) == []
  {
    if |data| > 0 {
      var p := data[..|data| - 1];
      assert KeptIds(data) == KeptIds(p) + KeptIds(data)[|KeptIds(p)|..];
      WithIdAbsent(p, id);
    }
  }

  /** The grouping invariant: ids in first-seen order, each group the adjusted points of its id. */
  predicate Grouped(groups: seq<Group>, data: seq<Point>, fill: PatternFill) {
    && GroupIds(groups) == Dedup(KeptIds(data))
    && forall j :: 0 <= j < |groups| ==> groups[j].points == AdjustAll(WithId(data, groups[j].id), j > 0, fill)
  }

  /** Appending a point extends only the point list of its own scenario id. */
  lemma WithIdAppend(data: seq<Point>, x: Point, y: int)
    requires x.scenario.Some?
    ensures WithId(data + [x], y) == WithId(data, y) + (if x.scenario.value.scenarioId == y then [x] else [])
  {
    assert (data + [x])[..|data|] == data;
  }

  lemma AdjustAllAppend(ps: seq<Point>, x: Point, isComparison: bool, fill: PatternFill)
    ensures AdjustAll(ps + [x], isComparison, fill) == AdjustAll(ps, isComparison, fill) + [Adjust(x, isComparison, fill)]
  {
  }

  /** The induction step of `LemmaGrouping` for a point whose scenario already has a group. */
  lemma StepGroupedExisting(groups: seq<Group>, data: seq<Point>, x: Point, fill: PatternFill, k: nat)
    requires x.scenario.Some? && FindGroup(groups, x.scenario.value.scenarioId) == Some(k)
    requires Grouped(groups, data, fill)
    ensures forall j :: 0 <= j < |groups| ==>
              Step(groups, x, fill)[j].points == AdjustAll(WithId(data + [x], groups[j].id), j > 0, fill)
    ensures GroupIds(Step(groups, x, fill)) == GroupIds(groups)
  {
    var id := x.scenario.value.scenarioId;
    var gs := Step(groups, x, fill);
    assert Distinct(GroupIds(groups));
    assert GroupIds(groups)[k] == id;
    assert GroupIds(groups)[0] == groups[0].id;
    assert (|groups| > 0 && groups[0].id != id) == (k > 0);
    assert gs == groups[k := Group(id, groups[k].points + [Adjust(x, k > 0, fill)])];
    forall j | 0 <= j < |groups|
      ensures gs[j].points == AdjustAll(WithId(data + [x], groups[j].id), j > 0, fill)
    {
      WithIdAppend(data, x, groups[j].id);
      if j == k {
        AdjustAllAppend(WithId(data, id), x, k > 0, fill);
      } else {
        assert GroupIds(groups)[j] != id;
      }
    }
    assert GroupIds(gs) == GroupIds(groups);
  }

  /** The induction step of `LemmaGrouping` for a point whose scenario is new. */
  lemma StepGroupedNew(groups: seq<Group>, data: seq<Point>, x: Point, fill: PatternFill)
    requires x.scenario.Some? && FindGroup(groups, x.scenario.value.scenarioId).None?
    requires Grouped(groups, data, fill)
    ensures var gs := Step(groups, x, fill);
      && |gs| == |groups| + 1
      && forall j :: 0 <= j < |gs| ==> gs[j].points == AdjustAll(WithId(data + [x], gs[j].id), j > 0, fill)
    ensures GroupIds(Step(groups, x, fill)) == GroupIds(groups) + [x.scenario.value.scenarioId]
  {
    var id := x.scenario.value.scenarioId;
    var gs := Step(groups, x, fill);
    assert id !in GroupIds(groups);
    assert id !in KeptIds(data);
    WithIdAbsent(data, id);
    assert gs == groups + [Group(id, [Adjust(x, |groups| > 0, fill)])];
    forall j | 0 <= j < |gs|
      ensures gs[j].points == AdjustAll(WithId(data + [x], gs[j].id), j > 0, fill)
    {
      WithIdAppend(data, x, gs[j].id);
      if j < |groups| {
        assert GroupIds(groups)[j] != id;
      }
    }
    assert GroupIds(gs) == GroupIds(groups) + [id];
  }

  /** The induction step of `LemmaGrouping` for a point with a scenario. */
  lemma StepGrouped(groups: seq<Group>, data: seq<Point>, x: Point, fill: PatternFill)
    requires x.scenario.Some?
    requires Grouped(groups, data, fill)
    ensures Grouped(Step(groups, x, fill), data + [x], fill)
  {
    var id := x.scenario.value.scenarioId;
    var data' := data + [x];
    assert data'[..|data'| - 1] == data;
    var ids := KeptIds(data);
    assert KeptIds(data') == ids + [id];
    assert (ids + [id])[..|ids|] == ids;
    match FindGroup(groups, id)
    case Some(k) =>
      StepGroupedExisting(groups, data, x, fill, k);
      assert GroupIds(groups)[k] == id;
      assert id in Dedup(ids);
    case None =>
      StepGroupedNew(groups, data, x, fill);
  }

  /**
   Grouping: one group per distinct scenario id, ordered by first appearance;
   each group holds exactly the points of its id, in input order, adjusted,
   with the comparison fill applied in every group but the first.
   */
  lemma {:induction false} LemmaGrouping(data: seq<Point>, fill: PatternFill)
    ensures GroupIds(ScenarioMap(data, fill)) == Dedup(KeptIds(data))
    ensures var gs := ScenarioMap(data, fill);
      forall j :: 0 <= j < |gs| ==> gs[j].points == AdjustAll(WithId(data, gs[j].id), j > 0, fill)
  {
    if |data| > 0 {
      var p := data[..|data| - 1];
      var x := data[|data| - 1];
      LemmaGrouping(p, fill);
      assert data == p + [x];
      if x.scenario.Some? {
        StepGrouped(ScenarioMap(p, fill), p, x, fill);
      } else {
        assert KeptIds(data) == KeptIds(p);
        forall y: int ensures WithId(data, y) == WithId(p, y) { }
      }
    }
  }

  /** Every point handed to the funnel series is drawn at a non-negative value. */
  lemma LemmaNonNegative(data: Option<seq<Point>>, fill: PatternFill)
    ensures var groups := DataByScenario(data, fill);
      forall j, i :: 0 <= j < |groups| && 0 <= i < |groups[j]| ==> groups[j][i].y >= 0.0
  {
    if data.Some? {
      LemmaGrouping(data.value, fill);
    }
  }

  /** The points that carry a scenario, in input order. */
  function Assigned(data: seq<Point>): (r: seq<Point>)
    ensures |r| <= |data|
    ensures forall i :: 0 <= i < |r| ==> r[i].scenario.Some?
  {
    if |data| == 0 then []
    else
      var last := data[|data| - 1];
      Assigned(data[..|data| - 1]) + (if last.scenario.Some? then [last] else [])
  }

  /** Points without a scenario are dropped: the groups are those of the assigned points alone. */
  lemma {:induction false} LemmaDropsUnassigned(data: seq<Point>, fill: PatternFill)
    ensures ScenarioMap(data, fill) == ScenarioMap(Assigned(data), fill)
  {
    if |data| > 0 {
      var p := data[..|data| - 1];
      var x := data[|data| - 1];
      LemmaDropsUnassigned(p, fill);
      assert ScenarioMap(data, fill) == Step(ScenarioMap(p, fill), x, fill);
      if x.scenario.Some? {
        var a := Assigned(p) + [x];
        assert Assigned(data) == a;
        assert a[..|a| - 1] == Assigned(p);
        assert ScenarioMap(a, fill) == Step(ScenarioMap(Assigned(p), fill), x, fill);
      } else {
        assert Assigned(data) == Assigned(p);
      }
    }
  }

  /** Missing data, or data in which no point has a scenario, yields no groups. */
  lemma LemmaNoScenarioNoGroups(data: seq<Point>, fill: PatternFill)
    ensures DataByScenario(None, fill) == []
    ensures KeptIds(data) == [] ==> DataByScenario(Some(data), fill) == []
  {
    LemmaGrouping(data, fill);
  }

  /** `hasComparison` holds exactly when two points carry different scenario ids. */
  lemma LemmaHasComparison(data: seq<Point>, fill: PatternFill)
    ensures HasComparison(Some(data), fill) <==>
              exists i, j :: 0 <= i < |KeptIds(data)| && 0 <= j < |KeptIds(data)| && KeptIds(data)[i] != KeptIds(data)[j]
  {
    LemmaGrouping(data, fill);
    DedupHasTwo(KeptIds(data));
  }
}
