/**
 The chart legend (ChartLegend.js): chart entities (series or points) are
 grouped by name into legend items, each carrying the distinct colours of the
 entities that share that name, then optionally reversed and truncated for
 display.
 */
module Legend {
  import opened Wrappers
  import opened Sequences
  import opened JsArray
  import opened ChartData

  /**
   The fields of a rendered chart series or point that the legend reads:
   `name`, `index`, `color`, `y`, `rawY`, `options.showInLegend` and
   `options.index`.
   */
  datatype Entity = Entity(
    name: Option<string>,
    index: int,
    color: Paint,
    y: Option<real>,
    rawY: Option<real>,
    showInLegend: Option<bool>,
    optionsIndex: Option<int>)

  /** One legend row: a name, the index of its first entity, its swatches and its value. */
  datatype LegendItem = LegendItem(name: Option<string>, index: int, colors: seq<Paint>, value: Option<real>)

  /** Only an explicit `showInLegend === false` hides an entity. */
  predicate InLegend(e: Entity) {
    e.showInLegend != Some(false)
  }

  /** The swatch colour: a pattern's `backgroundColor` when it has one, else the colour itself. */
  function ResolveColor(c: Paint): Paint {
    match c
    case Patterned(p) => p.backgroundColor.GetOr(c)
    case Solid(_) => c
  }

  /** The item value: the entity's original value when it has one, else its drawn value. */
  function ItemValue(e: Entity): (v: Option<real>)
    ensures e.rawY.Some? ==> v == e.rawY
    ensures e.rawY.None? ==> v == e.y
  {
    if e.rawY.Some? then e.rawY else e.y
  }

  /** `Array.prototype.find` by name, returning the position of the first match. */
  function FindByName(items: seq<LegendItem>, name: Option<string>): (r: Option<nat>)
    ensures r.Some? ==> r.value < |items| && items[r.value].name == name
    ensures r.Some? ==> forall j :: 0 <= j < r.value ==> items[j].name != name
    ensures r.None? ==> forall j :: 0 <= j < |items| ==> items[j].name != name
  {
    if |items| == 0 then None
    else if items[0].name == name then Some(0)
    else
      match FindByName(items[1..], name)
      case None => None
      case Some(k) => Some(k + 1)
  }

  /** The first item carrying `name` is the one `FindByName` returns. */
  lemma FindByNameIs(items: seq<LegendItem>, name: Option<string>, k: nat)
    requires k < |items| && items[k].name == name
    requires forall j :: 0 <= j < k ==> items[j].name != name
    ensures FindByName(items, name) == Some(k)
  {
  }

  function Names(items: seq<LegendItem>): seq<Option<string>> {
    seq(|items|, i requires 0 <= i < |items| => items[i].name)
  }

  function EntityNames(es: seq<Entity>): seq<Option<string>> {
    seq(|es|, i requires 0 <= i < |es| => es[i].name)
  }

  /** The entities the legend shows, in input order. */
  function Included(es: seq<Entity>): (r: seq<Entity>)
    ensures |r| <= |es|
    ensures forall i :: 0 <= i < |r| ==> InLegend(r[i])
  {
    if |es| == 0 then []
    else
      var p := Included(es[..|es| - 1]);
      if InLegend(es[|es| - 1]) then p + [es[|es| - 1]] else p
  }

  /** One step of the `getLegendItems` reduce. */
  function Step(acc: seq<LegendItem>, e: Entity): seq<LegendItem> {
    if !InLegend(e) then acc
    else
      var c := ResolveColor(e.color);
      match FindByName(acc, e.name)
      case None => acc + [LegendItem(e.name, e.index, [c], ItemValue(e))]
      case Some(k) =>
        if c in acc[k].colors then acc
        else acc[k := acc[k].(colors := SpliceInsert(acc[k].colors, e.optionsIndex, c))]
  }

  /** `getLegendItems`: the left fold of `Step` over the entities, from no items. */
  function LegendItems(es: seq<Entity>): seq<LegendItem> {
    if |es| == 0 then [] else Step(LegendItems(es[..|es| - 1]), es[|es| - 1])
  }

  /** Item names are unique and every item's swatches are duplicate-free. */
  predicate WellFormed(items: seq<LegendItem>) {
    && Distinct(Names(items))
    && forall k :: 0 <= k < |items| ==> Distinct(items[k].colors)
  }

  /** `name` has an item and `c` is among its swatches. */
  predicate HasSwatch(items: seq<LegendItem>, name: Option<string>, c: Paint) {
    var k := FindByName(items, name);
    k.Some? && c in items[k.value].colors
  }

  /**
   The shape of one step: items are only ever appended, never renamed,
   re-indexed or revalued, and a new item is appended only for a shown entity
   whose name has no item yet, carrying that entity's name, index, colour and
   value.
   */
  lemma StepShape(acc: seq<LegendItem>, e: Entity)
    ensures var r := Step(acc, e);
      && |acc| <= |r| <= |acc| + 1
      && (forall k :: 0 <= k < |acc| ==>
            r[k].name == acc[k].name && r[k].index == acc[k].index && r[k].value == acc[k].value)
      && (|r| == |acc| + 1 ==>
            InLegend(e) && e.name !in Names(acc) && r[|acc|] == LegendItem(e.name, e.index, [ResolveColor(e.color)], ItemValue(e)))
      && (|r| == |acc| ==> Names(r) == Names(acc))
      && (|r| == |acc| + 1 ==> Names(r) == Names(acc) + [e.name])
      && (InLegend(e) ==> e.name in Names(r))
  {
    var r := Step(acc, e);
    if InLegend(e) {
      var c := ResolveColor(e.color);
      match FindByName(acc, e.name)
      case None =>
        assert e.name !in Names(acc);
        assert r == acc + [LegendItem(e.name, e.index, [c], ItemValue(e))];
        assert Names(r) == Names(acc) + [e.name];
        assert Names(r)[|acc|] == e.name;
      case Some(k) =>
        assert Names(r)[k] == e.name;
        if c !in acc[k].colors {
          assert |r| == |acc|;
          assert Names(r) == Names(acc);
        }
    }
  }

  /**
   The colours after one step: no swatch is lost, and the only swatch that can
   appear is the shown entity's resolved colour, on the item of its name.
   */
  lemma StepColors(acc: seq<LegendItem>, e: Entity)
    ensures var r := Step(acc, e);
      && |acc| <= |r|
      && (forall k, c :: 0 <= k < |acc| && c in acc[k].colors ==> c in r[k].colors)
      && (forall k, c :: 0 <= k < |r| && c in r[k].colors ==>
            (k < |acc| && c in acc[k].colors) || (InLegend(e) && r[k].name == e.name && c == ResolveColor(e.color)))
  {
    if InLegend(e) {
      var c := ResolveColor(e.color);
      match FindByName(acc, e.name)
      case None =>
      case Some(k) =>
        if c !in acc[k].colors {
          var cs := SpliceInsert(acc[k].colors, e.optionsIndex, c);
          var r := acc[k := acc[k].(colors := cs)];
          assert Step(acc, e) == r;
          forall j, x | 0 <= j < |acc| && x in acc[j].colors
            ensures x in r[j].colors
          {
            if j == k {
              assert multiset(acc[k].colors)[x] > 0;
            }
          }
          forall j, x | 0 <= j < |r| && x in r[j].colors
            ensures (j < |acc| && x in acc[j].colors) || (r[j].name == e.name && x == c)
          {
            if j == k {
              assert multiset(cs)[x] > 0;
            }
          }
        }
    }
  }

  /** After one step, a shown entity's resolved colour is a swatch of the item of its name. */
  lemma StepSwatch(acc: seq<LegendItem>, e: Entity)
    requires InLegend(e)
    ensures HasSwatch(Step(acc, e), e.name, ResolveColor(e.color))
  {
    var r := Step(acc, e);
    var c := ResolveColor(e.color);
    match FindByName(acc, e.name)
    case None =>
      FindByNameIs(r, e.name, |acc|);
    case Some(k) =>
      FindByNameIs(r, e.name, k);
      if c !in acc[k].colors {
        assert r[k].colors[SpliceStart(e.optionsIndex, |acc[k].colors|)] == c;
      }
  }

  /** A step keeps every swatch an earlier entity contributed. */
  lemma StepKeepsSwatch(acc: seq<LegendItem>, e: Entity, name: Option<string>, c: Paint)
    requires HasSwatch(acc, name, c)
    ensures HasSwatch(Step(acc, e), name, c)
  {
    StepShape(acc, e);
    StepColors(acc, e);
    var k := FindByName(acc, name).value;
    FindByNameIs(Step(acc, e), name, k);
  }

  /** A step keeps names unique and swatches duplicate-free. */
  lemma StepWellFormed(acc: seq<LegendItem>, e: Entity)
    requires WellFormed(acc)
    ensures WellFormed(Step(acc, e))
  {
    StepShape(acc, e);
    if InLegend(e) {
      var c := ResolveColor(e.color);
      match FindByName(acc, e.name)
      case None =>
      case Some(k) =>
        if c !in acc[k].colors {
          InsertAtDistinct(acc[k].colors, SpliceStart(e.optionsIndex, |acc[k].colors|), c);
        }
    }
  }

  /** Hidden entities contribute nothing: the legend of all entities is the legend of the shown ones. */
  lemma {:induction false} LemmaSkipsHidden(es: seq<Entity>)
    ensures LegendItems(es) == LegendItems(Included(es))
  {
    if |es| > 0 {
      var p := es[..|es| - 1];
      var e := es[|es| - 1];
      LemmaSkipsHidden(p);
      if InLegend(e) {
        var inc := Included(p) + [e];
        assert inc[..|inc| - 1] == Included(p);
      }
    }
  }

  /** The names of the legend items are the names of the shown entities, de-duplicated in first-seen order. */
  lemma {:induction false} LemmaNamesFirstSeen(es: seq<Entity>)
    ensures Names(LegendItems(es)) == Dedup(EntityNames(Included(es)))
  {
    if |es| > 0 {
      var p := es[..|es| - 1];
      var e := es[|es| - 1];
      LemmaNamesFirstSeen(p);
      StepShape(LegendItems(p), e);
      if InLegend(e) {
        var ns := EntityNames(Included(p));
        assert EntityNames(Included(es)) == ns + [e.name];
        assert (ns + [e.name])[..|ns|] == ns;
      }
    }
  }

  /** The legend keeps unique names and duplicate-free swatches. */
  lemma {:induction false} LemmaWellFormed(es: seq<Entity>)
    ensures WellFormed(LegendItems(es))
  {
    if |es| > 0 {
      LemmaWellFormed(es[..|es| - 1]);
      StepWellFormed(LegendItems(es[..|es| - 1]), es[|es| - 1]);
    }
  }

  /**
   Legend order and size: one item per distinct name among the shown
   entities, names pairwise distinct, items ordered by the first appearance of
   their name, and never more items than entities.
   */
  lemma LemmaItemOrder(es: seq<Entity>)
    ensures var items := LegendItems(es);
      var ns := EntityNames(Included(es));
      && Distinct(Names(items))
      && |items| <= |es|
      && (forall k :: 0 <= k < |items| ==> items[k].name in ns)
      && (forall i :: 0 <= i < |ns| ==> ns[i] in Names(items))
      && (forall i, j :: 0 <= i < j < |items| ==>
            FirstIndex(ns, items[i].name) < FirstIndex(ns, items[j].name))
  {
    var items := LegendItems(es);
    var ns := EntityNames(Included(es));
    LemmaNamesFirstSeen(es);
    DedupFirstSeenOrder(ns);
    assert forall k :: 0 <= k < |items| ==> items[k].name == Dedup(ns)[k];
  }

  /** The item's `index` and `value` are those of the first entity of `inc` with the item's name. */
  predicate HeaderFromFirst(item: LegendItem, inc: seq<Entity>) {
    var ns := EntityNames(inc);
    && item.name in ns
    && var f := inc[FirstIndex(ns, item.name)];
       item.index == f.index && item.value == ItemValue(f)
  }

  /** The induction step of `LemmaHeaderFromFirstEntity` for a shown entity. */
  lemma HeaderStep(acc: seq<LegendItem>, inc: seq<Entity>, e: Entity)
    requires InLegend(e)
    requires Names(acc) == Dedup(EntityNames(inc))
    requires forall k :: 0 <= k < |acc| ==> HeaderFromFirst(acc[k], inc)
    ensures forall k :: 0 <= k < |Step(acc, e)| ==> HeaderFromFirst(Step(acc, e)[k], inc + [e])
  {
    StepShape(acc, e);
    var items := Step(acc, e);
    var ns := EntityNames(inc);
    var inc' := inc + [e];
    assert EntityNames(inc') == ns + [e.name];
    forall k | 0 <= k < |items|
      ensures HeaderFromFirst(items[k], inc')
    {
      if k < |acc| {
        assert HeaderFromFirst(acc[k], inc);
        FirstIndexAppend(ns, e.name, items[k].name);
        assert inc'[FirstIndex(ns, acc[k].name)] == inc[FirstIndex(ns, acc[k].name)];
      } else {
        assert e.name !in ns;
        FirstIndexAppendNew(ns, e.name);
        assert inc'[|inc|] == e;
      }
    }
  }

  /**
   Each item takes its `index` and `value` from the first shown entity with
   its name; later entities with that name never change them.
   */
  lemma {:induction false} LemmaHeaderFromFirstEntity(es: seq<Entity>)
    ensures forall k :: 0 <= k < |LegendItems(es)| ==> HeaderFromFirst(LegendItems(es)[k], Included(es))
  {
    if |es| > 0 {
      var p := es[..|es| - 1];
      var e := es[|es| - 1];
      LemmaHeaderFromFirstEntity(p);
      if InLegend(e) {
        LemmaNamesFirstSeen(p);
        HeaderStep(LegendItems(p), Included(p), e);
      }
    }
  }

  /** Every shown entity's resolved colour is a swatch of the item for its name. */
  lemma {:induction false} LemmaColorsCovered(es: seq<Entity>)
    ensures forall i :: 0 <= i < |es| && InLegend(es[i]) ==>
              HasSwatch(LegendItems(es), es[i].name, ResolveColor(es[i].color))
  {
    if |es| > 0 {
      var p := es[..|es| - 1];
      var e := es[|es| - 1];
      LemmaColorsCovered(p);
      if InLegend(e) {
        StepSwatch(LegendItems(p), e);
      }
      forall i | 0 <= i < |p| && InLegend(p[i])
        ensures HasSwatch(LegendItems(es), p[i].name, ResolveColor(p[i].color))
      {
        StepKeepsSwatch(LegendItems(p), e, p[i].name, ResolveColor(p[i].color));
      }
      assert forall i :: 0 <= i < |p| ==> es[i] == p[i];
    }
  }

  /** Conversely, every swatch is the resolved colour of some shown entity with the item's name. */
  lemma {:induction false} LemmaColorProvenance(es: seq<Entity>)
    ensures forall k, c :: 0 <= k < |LegendItems(es)| && c in LegendItems(es)[k].colors ==>
              exists i :: 0 <= i < |es| && InLegend(es[i]) && es[i].name == LegendItems(es)[k].name && ResolveColor(es[i].color) == c
  {
    if |es| > 0 {
      var p := es[..|es| - 1];
      var e := es[|es| - 1];
      LemmaColorProvenance(p);
      var acc := LegendItems(p);
      var items := LegendItems(es);
      StepColors(acc, e);
      forall k, c | 0 <= k < |items| && c in items[k].colors
        ensures exists i :: 0 <= i < |es| && InLegend(es[i]) && es[i].name == items[k].name && ResolveColor(es[i].color) == c
      {
        if k < |acc| && c in acc[k].colors {
          StepShape(acc, e);
          assert items[k].name == acc[k].name;
          assert exists i :: 0 <= i < |p| && InLegend(p[i]) && p[i].name == LegendItems(p)[k].name && ResolveColor(p[i].color) == c;
          var i :| 0 <= i < |p| && InLegend(p[i]) && p[i].name == acc[k].name && ResolveColor(p[i].color) == c;
          assert es[i] == p[i];
        } else {
          assert es[|es| - 1] == e;
        }
      }
    }
  }

  /**
   A shown entity whose colour is new to its existing item inserts that colour
   with `splice(options.index, 0, colour)`; nothing else in the legend changes.
   */
  lemma LemmaColorInsertion(acc: seq<LegendItem>, e: Entity, k: nat)
    requires InLegend(e) && FindByName(acc, e.name) == Some(k)
    requires ResolveColor(e.color) !in acc[k].colors
    ensures var r := Step(acc, e);
      && |r| == |acc|
      && (forall j :: 0 <= j < |acc| && j != k ==> r[j] == acc[j])
      && r[k].name == acc[k].name && r[k].index == acc[k].index && r[k].value == acc[k].value
      && r[k].colors[SpliceStart(e.optionsIndex, |acc[k].colors|)] == ResolveColor(e.color)
      && Without(r[k].colors, SpliceStart(e.optionsIndex, |acc[k].colors|)) == acc[k].colors
  {
  }

  /**
   Entities without `options.index` get each new colour of an existing item
   in front: two points named A coloured red then blue give blue, red.
   */
  lemma LemmaPointColorsNewestFirst(red: Paint, blue: Paint)
    requires red.Solid? && blue.Solid? && red != blue
    ensures var a := Entity(Some("A"), 0, red, Some(1.0), None, None, None);
      var b := Entity(Some("A"), 1, blue, Some(2.0), None, None, None);
      LegendItems([a, b]) == [LegendItem(Some("A"), 0, [blue, red], Some(1.0))]
  {
    var a := Entity(Some("A"), 0, red, Some(1.0), None, None, None);
    var b := Entity(Some("A"), 1, blue, Some(2.0), None, None, None);
    assert [a, b][..1] == [a];
    assert [a][..0] == [];
    assert LegendItems([a]) == [LegendItem(Some("A"), 0, [red], Some(1.0))];
    assert SpliceInsert([red], None, blue) == [blue, red];
  }

  /** The kind of the series the legend is attached to. */
  datatype ChartKind = FunnelKind | PieKind | OtherKind

  /** A rendered series: its own legend entity, its kind and its points. */
  datatype SeriesInfo = SeriesInfo(kind: ChartKind, entity: Entity, points: seq<Entity>)

  /**
   The entities a redraw lists: the points of the active (or first) series for
   funnel and pie charts, otherwise the series themselves.
   */
  function RedrawEntities(series: seq<SeriesInfo>, active: Option<SeriesInfo>): (es: seq<Entity>)
    requires |series| > 0
    ensures active.Some? && active.value.kind != OtherKind ==> es == active.value.points
    ensures active.None? && series[0].kind != OtherKind ==> es == series[0].points
    ensures active.GetOr(series[0]).kind == OtherKind ==>
              |es| == |series| && forall i :: 0 <= i < |series| ==> es[i] == series[i].entity
  {
    var selected := if active.Some? then active.value else series[0];
    match selected.kind
    case OtherKind => seq(|series|, i requires 0 <= i < |series| => series[i].entity)
    case _ => selected.points
  }

  /**
   The items a chart redraw sets: nothing changes when the chart has no
   series; otherwise the legend of the redraw entities, reversed exactly when
   `reverse` is set.
   */
  function RedrawItems(series: seq<SeriesInfo>, active: Option<SeriesInfo>, reverse: bool): (r: Option<seq<LegendItem>>)
    ensures |series| == 0 <==> r.None?
    ensures r.Some? ==> |r.value| == |LegendItems(RedrawEntities(series, active))|
    ensures r.Some? && reverse ==> Reverse(r.value) == LegendItems(RedrawEntities(series, active))
    ensures r.Some? && !reverse ==> r.value == LegendItems(RedrawEntities(series, active))
  {
    if |series| == 0 then None
    else
      var items := LegendItems(RedrawEntities(series, active));
      ReverseInvolution(items);
      Some(if reverse then Reverse(items) else items)
  }

  /**
   The items set when the active series or the chart changes: the legend of
   the points of the active series, else of the chart's first series, never
   reversed.
   */
  function SyncItems(active: Option<SeriesInfo>, firstSeries: Option<SeriesInfo>): (r: Option<seq<LegendItem>>)
    ensures active.None? && firstSeries.None? <==> r.None?
    ensures active.Some? ==> r == Some(LegendItems(active.value.points))
    ensures active.None? && firstSeries.Some? ==> r == Some(LegendItems(firstSeries.value.points))
  {
    match active
    case Some(s) => Some(LegendItems(s.points))
    case None =>
      match firstSeries
      case Some(s) => Some(LegendItems(s.points))
      case None => None
  }

  /** The items rendered: the prefix of the items up to the display limit, read as a slice end. */
  function ShownItems(items: seq<LegendItem>, maxItems: Option<int>): (r: seq<LegendItem>)
    ensures |r| <= |items| && r == items[..|r|]
    ensures maxItems.None? ==> r == items
    ensures maxItems.Some? ==> |r| == RelativeIndex(maxItems.value, |items|)
    ensures maxItems.Some? && maxItems.value >= 0 ==> |r| <= maxItems.value
    ensures maxItems.Some? && 0 <= maxItems.value <= |items| ==> |r| == maxItems.value
  {
    items[..SliceEnd(maxItems, |items|)]
  }

  /** The show-more link condition: a non-empty URL and more items than the limit. */
  predicate ShowMore(items: seq<LegendItem>, maxItems: Option<int>, showMoreUrl: Option<string>) {
    && maxItems.Some? && |items| > maxItems.value
    && showMoreUrl.Some? && showMoreUrl.value != ""
  }

  /**
   With a non-negative limit, the show-more link appears exactly when a URL is
   set and the displayed list is cut short.
   */
  lemma LemmaShowMoreIffTruncated(items: seq<LegendItem>, maxItems: int, showMoreUrl: Option<string>)
    requires maxItems >= 0
    ensures ShowMore(items, Some(maxItems), showMoreUrl) <==>
              (showMoreUrl.Some? && showMoreUrl.value != "" && |ShownItems(items, Some(maxItems))| < |items|)
  {
  }
}
