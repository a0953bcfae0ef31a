/**
 The scenario comparison table (ChartMetrics.js): per-scenario totals in the
 header with a total-variance cell, and one row per metric with a value cell
 per scenario and a variance cell.
 */
module Metrics {
  import opened Wrappers

  /** The text shown for an empty value. */
  const EmptyValue := "--"

  /** A cell value; `None` is a value `isEmptyOrNull` reports as empty (`undefined`, `null`). */
  type Value = Option<real>

  /** A display formatter. It is handed `None` where the component passes it `undefined`. */
  type Formatter = Value -> string

  /** An item of a scenario series, reduced to the first element of its `data` array. */
  datatype SeriesItem = SeriesItem(name: string, value: real)

  /**
   One entry of the `data` prop: a scenario's series (an array), a plain point
   object with numeric fields, or a falsy placeholder for a missing scenario.
   */
  datatype Entry = SeriesEntry(items: seq<SeriesItem>) | RecordEntry(fields: map<string, real>) | NoEntry

  datatype Scenario = Scenario(name: string, color: string)

  /** The `getValue` of a metric: absent, one function, or an object of functions keyed by scenario name. */
  datatype Getter = ByKey | Shared(f: Entry -> Value) | PerScenario(fs: map<string, Entry -> Value>)

  datatype Metric = Metric(
    name: string,
    key: Option<string>,
    getValue: Getter,
    formatter: Option<Formatter>,
    exclude: Option<seq<Entry> -> bool>,
    isMainMetric: bool)

  /** A rendered metric row: label, value cells in data order, variance cell when shown. */
  datatype Row = Row(name: string, isMain: bool, cells: seq<string>, variance: Option<string>)

  /** The rendered table: header totals (one per scenario), header variance, rows. */
  datatype Table = Table(totals: seq<string>, totalVariance: Option<string>, rows: seq<Row>)

  // ---------------------------------------------------------------- totals

  /** A scenario total: the sum of the items' first data values, starting from 0. */
  function SeriesSum(items: seq<SeriesItem>): real {
    if |items| == 0 then 0.0 else SeriesSum(items[..|items| - 1]) + items[|items| - 1].value
  }

  /** A series total is additive over concatenation; the empty series totals 0. */
  lemma {:induction false} SeriesSumAppend(a: seq<SeriesItem>, b: seq<SeriesItem>)
    ensures SeriesSum(a + b) == SeriesSum(a) + SeriesSum(b)
  {
    if |b| > 0 {
      SeriesSumAppend(a, b[..|b| - 1]);
      assert (a + b)[..|a + b| - 1] == a + b[..|b| - 1];
    } else {
      assert a + b == a;
    }
  }

  /** The scenario totals: one per array entry of the data, in order; other entries are dropped. */
  function Totals(data: seq<Entry>): (r: seq<real>)
    ensures |r| <= |data|
  {
    if |data| == 0 then []
    else (if data[0].SeriesEntry? then [SeriesSum(data[0].items)] else []) + Totals(data[1..])
  }

  /**
   Totals grow by exactly one entry, the series' sum, per array entry; a
   non-array entry adds nothing, so later totals shift to lower positions.
   */
  lemma {:induction false} LemmaTotalsAppend(data: seq<Entry>, x: Entry)
    ensures Totals(data + [x]) == Totals(data) + (if x.SeriesEntry? then [SeriesSum(x.items)] else [])
  {
    if |data| > 0 {
      LemmaTotalsAppend(data[1..], x);
      assert (data + [x])[1..] == data[1..] + [x];
    }
  }

  // ---------------------------------------------------------------- variance

  /** An empty value counts as zero in the variance. */
  function Num(v: Value): real {
    v.GetOr(0.0)
  }

  /** The header fold: from 0, each total turns the variance `v` into `-v - t`. */
  function HeaderVariance(totals: seq<real>): real {
    if |totals| == 0 then 0.0 else -HeaderVariance(totals[..|totals| - 1]) - totals[|totals| - 1]
  }

  /** The row accumulator: `acc = value - acc` per value, empty values as 0, from 0. */
  function RowFold(values: seq<Value>): real {
    if |values| == 0 then 0.0 else Num(values[|values| - 1]) - RowFold(values[..|values| - 1])
  }

  /** The displayed row variance: zero as it is, anything else negated. */
  function DisplayVariance(acc: real): (r: real)
    ensures r == -acc
  {
    if acc == 0.0 then acc else acc * -1.0
  }

  /** `+1` at even distances from the end of the sequence, `-1` at odd ones. */
  function Sign(k: nat): real {
    if k % 2 == 0 then 1.0 else -1.0
  }

  /**
   The alternating sum read from the front: the last value counts positively
   and signs alternate towards the first.
   */
  function AltSum(values: seq<Value>): real {
    if |values| == 0 then 0.0 else Sign(|values| - 1) * Num(values[0]) + AltSum(values[1..])
  }

  lemma {:induction false} AltSumAppend(values: seq<Value>, x: Value)
    ensures AltSum(values + [x]) == Num(x) - AltSum(values)
  {
    if |values| > 0 {
      AltSumAppend(values[1..], x);
      assert (values + [x])[1..] == values[1..] + [x];
    }
  }

  /** The row accumulator equals the alternating sum, for any number of scenarios. */
  lemma {:induction false} LemmaRowFoldIsAltSum(values: seq<Value>)
    ensures RowFold(values) == AltSum(values)
  {
    if |values| > 0 {
      var p := values[..|values| - 1];
      LemmaRowFoldIsAltSum(p);
      AltSumAppend(p, values[|values| - 1]);
      assert values == p + [values[|values| - 1]];
    }
  }

  /** Numbers as non-empty values. */
  function Lift(ts: seq<real>): seq<Value> {
    seq(|ts|, i requires 0 <= i < |ts| => Some(ts[i]))
  }

  /** The header fold is the negation of the row fold over the same numbers. */
  lemma {:induction false} LemmaHeaderIsNegatedRowFold(ts: seq<real>)
    ensures HeaderVariance(ts) == -RowFold(Lift(ts))
  {
    if |ts| > 0 {
      LemmaHeaderIsNegatedRowFold(ts[..|ts| - 1]);
      assert Lift(ts)[..|ts| - 1] == Lift(ts[..|ts| - 1]);
    }
  }

  /**
   For the same non-empty numbers, the header variance equals the displayed
   row variance, and both are the alternating sum taken negatively.
   */
  lemma LemmaHeaderMatchesRow(ts: seq<real>)
    ensures HeaderVariance(ts) == DisplayVariance(RowFold(Lift(ts)))
    ensures HeaderVariance(ts) == -AltSum(Lift(ts))
  {
    LemmaHeaderIsNegatedRowFold(ts);
    LemmaRowFoldIsAltSum(Lift(ts));
  }

  /** With two scenarios both variances are first minus second; with one, the negated value. */
  lemma LemmaTwoScenarioVariance(a: real, b: real)
    ensures HeaderVariance([a, b]) == a - b
    ensures DisplayVariance(RowFold([Some(a), Some(b)])) == a - b
    ensures DisplayVariance(RowFold([Some(a), None])) == a
    ensures HeaderVariance([a]) == -a
  {
    assert [a, b][..1] == [a];
    assert [a][..0] == [];
    assert [Some(a), Some(b)][..1] == [Some(a)];
    assert [Some(a), None][..1] == [Some(a)];
    assert [Some(a)][..0] == [];
    assert RowFold([Some(a)]) == a;
    assert Num(None) == 0.0;
    assert RowFold([Some(a), None]) == -a;
    assert HeaderVariance([a]) == -a;
  }

  // ---------------------------------------------------------------- cells

  /** The metric's `key` field of a point object; any other entry, or a missing field, is empty. */
  function Lookup(point: Entry, key: Option<string>): Value {
    match point
    case RecordEntry(fields) => if key.Some? && key.value in fields then Some(fields[key.value]) else None
    case _ => None
  }

  /**
   The value of one cell. A falsy point is empty; otherwise an object
   `getValue` is indexed by the scenario name, a function `getValue` is used
   as is, and without a function the point's `key` field is read.
   */
  function ResolveValue(point: Entry, scenario: Scenario, m: Metric): (v: Value)
    ensures point.NoEntry? ==> v.None?
    ensures !point.NoEntry? && m.getValue.Shared? ==> v == m.getValue.f(point)
    ensures !point.NoEntry? && m.getValue.PerScenario? && scenario.name in m.getValue.fs ==>
              v == m.getValue.fs[scenario.name](point)
    ensures !point.NoEntry? && (m.getValue.ByKey? || (m.getValue.PerScenario? && scenario.name !in m.getValue.fs)) ==>
              v == Lookup(point, m.key)
  {
    if point.NoEntry? then None
    else
      match m.getValue
      case PerScenario(fs) => if scenario.name in fs then fs[scenario.name](point) else Lookup(point, m.key)
      case Shared(f) => f(point)
      case ByKey => Lookup(point, m.key)
  }

  /** The key is read only when no getter function applies to the scenario. */
  lemma LemmaKeyOnlyAsFallback(point: Entry, scenario: Scenario, m: Metric, otherKey: Option<string>)
    requires m.getValue.Shared? || (m.getValue.PerScenario? && scenario.name in m.getValue.fs)
    ensures ResolveValue(point, scenario, m) == ResolveValue(point, scenario, m.(key := otherKey))
  {
  }

  /** `formatter(value)` for a non-empty value, the placeholder otherwise. */
  function CellText(v: Value, fmt: Formatter): (s: string)
    ensures v.Some? ==> s == fmt(v)
    ensures v.None? ==> s == EmptyValue
  {
    if v.Some? then fmt(v) else EmptyValue
  }

  /** The values of a metric across the data entries, each read with its scenario. */
  function RowValues(data: seq<Entry>, scenarios: seq<Scenario>, m: Metric): (vs: seq<Value>)
    requires |data| <= |scenarios|
    ensures |vs| == |data|
  {
    seq(|data|, i requires 0 <= i < |data| => ResolveValue(data[i], scenarios[i], m))
  }

  /** A metric's own formatter, else the table's. */
  function MetricFormatter(m: Metric, tableFormatter: Formatter): Formatter {
    m.formatter.GetOr(tableFormatter)
  }

  /**
   One rendered metric row: a cell per data entry showing the formatted value
   or the placeholder, and, with more than one scenario, the variance cell
   showing the negated alternating sum of the values (empty ones as 0).
   */
  function BuildRow(data: seq<Entry>, scenarios: seq<Scenario>, m: Metric, tableFormatter: Formatter): (r: Row)
    requires |data| <= |scenarios|
    ensures r.name == m.name && r.isMain == m.isMainMetric
    ensures |r.cells| == |data|
    ensures forall i :: 0 <= i < |data| ==>
              r.cells[i] == CellText(ResolveValue(data[i], scenarios[i], m), MetricFormatter(m, tableFormatter))
    ensures r.variance.Some? <==> |scenarios| > 1
    ensures r.variance.Some? ==>
              r.variance.value == MetricFormatter(m, tableFormatter)(Some(-AltSum(RowValues(data, scenarios, m))))
  {
    var values := RowValues(data, scenarios, m);
    var fmt := MetricFormatter(m, tableFormatter);
    LemmaRowFoldIsAltSum(values);
    Row(
      m.name,
      m.isMainMetric,
      seq(|values|, i requires 0 <= i < |values| => CellText(values[i], fmt)),
      if |scenarios| > 1 then Some(fmt(Some(DisplayVariance(RowFold(values))))) else None)
  }

  /** The metric has an `exclude` predicate and it holds for the data. */
  predicate Excluded(m: Metric, data: seq<Entry>) {
    m.exclude.Some? && m.exclude.value(data)
  }

  /** Each rendered row needs a scenario for every data entry (the source reads `scenario.name`). */
  predicate RowsRenderable(data: seq<Entry>, scenarios: seq<Scenario>, metrics: seq<Metric>) {
    |data| <= |scenarios| || forall i :: 0 <= i < |metrics| ==> Excluded(metrics[i], data)
  }

  /** The table body: one row per metric not excluded, in metric order. */
  function Rows(data: seq<Entry>, scenarios: seq<Scenario>, metrics: seq<Metric>, tableFormatter: Formatter): (r: seq<Row>)
    requires RowsRenderable(data, scenarios, metrics)
    ensures |r| <= |metrics|
  {
    if |metrics| == 0 then []
    else
      (if Excluded(metrics[0], data) then [] else [BuildRow(data, scenarios, metrics[0], tableFormatter)])
      + Rows(data, scenarios, metrics[1..], tableFormatter)
  }

  /** Appending a metric appends its row, or nothing when it is excluded. */
  lemma {:induction false} LemmaRowsAppend(data: seq<Entry>, scenarios: seq<Scenario>, metrics: seq<Metric>, m: Metric, tableFormatter: Formatter)
    requires RowsRenderable(data, scenarios, metrics + [m])
    ensures RowsRenderable(data, scenarios, metrics)
    ensures !Excluded(m, data) ==> |data| <= |scenarios|
    ensures Rows(data, scenarios, metrics + [m], tableFormatter) ==
              Rows(data, scenarios, metrics, tableFormatter)
              + (if Excluded(m, data) then [] else [BuildRow(data, scenarios, m, tableFormatter)])
  {
    assert forall i :: 0 <= i < |metrics| ==> (metrics + [m])[i] == metrics[i];
    assert (metrics + [m])[|metrics|] == m;
    if |metrics| > 0 {
      assert (metrics + [m])[1..] == metrics[1..] + [m];
      assert forall i :: 0 <= i < |metrics[1..] + [m]| ==> (metrics[1..] + [m])[i] == (metrics + [m])[i + 1];
      LemmaRowsAppend(data, scenarios, metrics[1..], m, tableFormatter);
    }
  }

  /** The header total of scenario `i`: its total formatted, or the formatter applied to nothing past the end of the totals. */
  function TotalCell(totals: seq<real>, i: nat, fmt: Formatter): string {
    fmt(if i < |totals| then Some(totals[i]) else None)
  }

  /** The table formatter: `valueFormatter`, defaulting to the monetary formatter. */
  function TableFormatter(valueFormatter: Option<Formatter>, monetary: Formatter): Formatter {
    valueFormatter.GetOr(monetary)
  }

  /**
   The whole table. The header has a total per scenario (the total at the
   same position among the array entries) and, with more than one scenario,
   the formatted total variance; the body has the rows of the metrics that
   are not excluded.
   */
  function ChartMetrics(
    data: seq<Entry>, metrics: seq<Metric>, scenarios: seq<Scenario>,
    valueFormatter: Option<Formatter>, monetary: Formatter): (t: Table)
    requires RowsRenderable(data, scenarios, metrics)
    ensures |t.totals| == |scenarios|
    ensures forall i :: 0 <= i < |scenarios| ==>
              t.totals[i] == TotalCell(Totals(data), i, TableFormatter(valueFormatter, monetary))
    ensures t.totalVariance.Some? <==> |scenarios| > 1
    ensures t.totalVariance.Some? ==>
              t.totalVariance.value == TableFormatter(valueFormatter, monetary)(Some(-AltSum(Lift(Totals(data)))))
    ensures |t.rows| <= |metrics|
    ensures t.rows == Rows(data, scenarios, metrics, TableFormatter(valueFormatter, monetary))
  {
    var fmt := TableFormatter(valueFormatter, monetary);
    var totals := Totals(data);
    LemmaHeaderMatchesRow(totals);
    Table(
      seq(|scenarios|, i requires 0 <= i < |scenarios| => TotalCell(totals, i, fmt)),
      if |scenarios| > 1 then Some(fmt(Some(HeaderVariance(totals)))) else None,
      Rows(data, scenarios, metrics, fmt))
  }

  /**
   The fixture of the component's story: base items 100, 200, 75 and
   comparison items 50, 230, 325 total 375 and 605, with variance -230.
   */
  lemma LemmaStoryTotals()
    ensures var data := [
        SeriesEntry([SeriesItem("Item 1", 100.0), SeriesItem("Item 2", 200.0), SeriesItem("Item 3", 75.0)]),
        SeriesEntry([SeriesItem("Item 1", 50.0), SeriesItem("Item 2", 230.0), SeriesItem("Item 3", 325.0)])];
      Totals(data) == [375.0, 605.0] && HeaderVariance(Totals(data)) == -230.0
  {
    var base := [SeriesItem("Item 1", 100.0), SeriesItem("Item 2", 200.0), SeriesItem("Item 3", 75.0)];
    var cmp := [SeriesItem("Item 1", 50.0), SeriesItem("Item 2", 230.0), SeriesItem("Item 3", 325.0)];
    assert base[..2][..1] == base[..1] && cmp[..2][..1] == cmp[..1];
    assert base[..1][..0] == [] && cmp[..1][..0] == [];
    assert SeriesSum(base[..1]) == 100.0 && SeriesSum(cmp[..1]) == 50.0;
    assert SeriesSum(base[..2]) == 300.0 && SeriesSum(cmp[..2]) == 280.0;
    assert SeriesSum(base) == 375.0;
    assert SeriesSum(cmp) == 605.0;
    LemmaTwoScenarioVariance(375.0, 605.0);
  }
}
