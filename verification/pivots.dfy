/** Pivot reshaping (app/pivots.py): the pivot loader's columns become one
    grid row per (app, plan, metric), with one cell per distinct reporting
    date (newest first) and a trend list in ascending date order. */
module Pivots {
  import opened Common
  import opened Ordering
  import opened Config
  import opened QueryViews

  // ---------------------------------------------------------------------
  // Metric presentation
  // ---------------------------------------------------------------------

  /** The configured number format; "number" for an unconfigured metric. */
  function FormatOf(metric: string): string
  {
    if metric in METRICS_CONFIG then METRICS_CONFIG[metric].format else "number"
  }

  /** `format_metric_value`: null stays null, percentages are scaled to
      0..100, every other format is passed through. */
  function FormatMetricValue(v: Option<real>, metric: string): (r: Option<real>)
    ensures r.Some? <==> v.Some?
    ensures v.Some? && FormatOf(metric) == "percent" ==> r.value == 100.0 * v.value
    ensures v.Some? && FormatOf(metric) != "percent" ==> r.value == v.value
  {
    match v
    case None => None
    case Some(x) =>
      var format := FormatOf(metric);
      if format == "number" then Some(x)
      else if format == "percent" then Some(x * 100.0)
      else if format == "dollar" then Some(x)
      else Some(x)
  }

  /** Which configured metrics are scaled: exactly the four rates. */
  lemma PercentMetrics()
    ensures forall m :: m in METRICS_CONFIG && FormatOf(m) == "percent" <==>
              m in {"Churn_Rate", "Refund_Rate", "Gross_ARPU_Retention_Rate", "Net_ARPU_Retention_Rate"}
  {
  }

  /** `get_display_metric_name`: display name plus suffix, defaulting to the
      metric's own name and no suffix. */
  function DisplayMetricName(metric: string): (name: string)
    ensures metric !in METRICS_CONFIG ==> name == metric
    ensures metric in METRICS_CONFIG ==> name == METRICS_CONFIG[metric].display + METRICS_CONFIG[metric].suffix
  {
    var display := if metric in METRICS_CONFIG then METRICS_CONFIG[metric].display else metric;
    var suffix := if metric in METRICS_CONFIG then METRICS_CONFIG[metric].suffix else "";
    display + suffix
  }

  lemma DisplayNameExamples()
    ensures DisplayMetricName("Churn_Rate") == "Churn Rate (%)"
    ensures DisplayMetricName("Net_LTV_Discounted") == "Net LTV ($)"
    ensures DisplayMetricName("Subscriptions") == "Subscriptions"
    ensures DisplayMetricName("Other") == "Other"
  {
  }

  // ---------------------------------------------------------------------
  // Grid
  // ---------------------------------------------------------------------

  /** One grid row: the combo, the metric's label and key, one cell per date
      column, and the trend values. */
  datatype PivotRow = PivotRow(
    app: string,
    plan: string,
    metric: string,
    metricKey: string,
    cells: seq<Option<real>>,
    trend: seq<real>)

  /** `(None, [])`, or the grid with its date columns (as day numbers). */
  datatype PivotResult = NoData | Grid(rows: seq<PivotRow>, dateColumns: seq<int>)

  /** Row `i` of the input carries this (app, plan, date) key. */
  predicate KeyAt(c: Columns, i: int, app: string, plan: string, date: int)
    requires Rectangular(c)
  {
    0 <= i < |c.dates| && c.apps[i] == app && c.plans[i] == plan && c.dates[i] == date
  }

  /** The lookup entry for a key after the first `n` input rows: later rows
      overwrite earlier ones, and a metric without a column has no entry. */
  function LastValue(c: Columns, app: string, plan: string, date: int, metric: string, n: nat): (v: Option<real>)
    requires Rectangular(c) && n <= |c.dates|
    ensures metric !in c.metrics ==> v.None?
    ensures (forall i :: 0 <= i < n ==> !KeyAt(c, i, app, plan, date)) ==> v.None?
    ensures forall i :: 0 <= i < n && KeyAt(c, i, app, plan, date) && metric in c.metrics
                        && (forall j :: i < j < n ==> !KeyAt(c, j, app, plan, date))
                        ==> v == c.metrics[metric][i]
  {
    if n == 0 then None
    else if KeyAt(c, n - 1, app, plan, date) then
      if metric in c.metrics then c.metrics[metric][n - 1] else None
    else LastValue(c, app, plan, date, metric, n - 1)
  }

  /** The distinct (app, plan) pairs of the input, sorted by app then plan. */
  function PlanCombos(c: Columns): (combos: seq<(string, string)>)
    requires Rectangular(c)
    ensures StrictlySorted(combos, Lex(StrLt, StrLt))
    ensures forall p :: p in combos <==> exists i :: 0 <= i < |c.apps| && p == (c.apps[i], c.plans[i])
  {
    ViewOrdersAreStrictTotal();
    var pairs := seq(|c.apps|, i requires 0 <= i < |c.apps| => (c.apps[i], c.plans[i]));
    assert forall p :: p in pairs <==> exists i :: 0 <= i < |c.apps| && p == (c.apps[i], c.plans[i]) by {
      forall p | p in pairs
        ensures exists i :: 0 <= i < |c.apps| && p == (c.apps[i], c.plans[i])
      {
        var i :| 0 <= i < |pairs| && pairs[i] == p;
      }
      forall i | 0 <= i < |c.apps|
        ensures (c.apps[i], c.plans[i]) in pairs
      {
        assert pairs[i] == (c.apps[i], c.plans[i]);
      }
    }
    SortDistinct(pairs, Lex(StrLt, StrLt))
  }

  /** The distinct reporting dates, newest first. */
  function DateColumns(c: Columns): (ds: seq<int>)
    ensures StrictlySorted(ds, IntGt)
    ensures forall d :: d in ds <==> d in c.dates
  {
    ViewOrdersAreStrictTotal();
    SortDistinct(c.dates, IntGt)
  }

  /** The trend list: the non-null cells, walking the date columns from the
      last (oldest) to the first (newest). */
  function Trend(cells: seq<Option<real>>): (t: seq<real>)
    ensures |t| <= |cells|
    ensures forall x :: x in t <==> Some(x) in cells
  {
    if |cells| == 0 then []
    else
      var last := cells[|cells| - 1];
      assert forall o :: o in cells <==> o in cells[..|cells| - 1] || o == last;
      (if last.Some? then [last.value] else []) + Trend(cells[..|cells| - 1])
  }

  function MakeRow(c: Columns, combo: (string, string), metric: string, dates: seq<int>): (row: PivotRow)
    requires Rectangular(c)
    ensures |row.cells| == |dates|
  {
    var cells := seq(|dates|, k requires 0 <= k < |dates| =>
                   FormatMetricValue(LastValue(c, combo.0, combo.1, dates[k], metric, |c.dates|), metric));
    PivotRow(combo.0, combo.1, DisplayMetricName(metric), metric, cells, Trend(cells))
  }

  /** The rows of one combo, one per selected metric, in selection order. */
  function ComboRows(c: Columns, combo: (string, string), selected: seq<string>, dates: seq<int>): (rows: seq<PivotRow>)
    requires Rectangular(c)
    ensures |rows| == |selected|
    ensures forall j :: 0 <= j < |selected| ==> rows[j] == MakeRow(c, combo, selected[j], dates)
  {
    seq(|selected|, j requires 0 <= j < |selected| => MakeRow(c, combo, selected[j], dates))
  }

  /** Combo-major concatenation of every combo's rows. */
  function GridRows(c: Columns, combos: seq<(string, string)>, selected: seq<string>, dates: seq<int>): (rows: seq<PivotRow>)
    requires Rectangular(c)
    ensures |rows| == |combos| * |selected|
  {
    if |combos| == 0 then []
    else ComboRows(c, combos[0], selected, dates) + GridRows(c, combos[1..], selected, dates)
  }

  /** `process_pivot_data_for_aggrid`. */
  function ProcessPivot(data: Option<Columns>, selected: seq<string>): (r: PivotResult)
    requires data.Some? ==> Rectangular(data.value)
    ensures r.NoData? <==> data.None? || |data.value.dates| == 0
    ensures r.Grid? ==> StrictlySorted(r.dateColumns, IntGt)
    ensures r.Grid? ==> forall d :: d in r.dateColumns <==> d in data.value.dates
    ensures r.Grid? ==> |r.rows| == |PlanCombos(data.value)| * |selected|
    ensures r.Grid? ==> forall row :: row in r.rows ==> |row.cells| == |r.dateColumns|
  {
    if data.None? || |data.value.dates| == 0 then NoData
    else
      var c := data.value;
      var dates := DateColumns(c);
      var rows := GridRows(c, PlanCombos(c), selected, dates);
      assert forall row :: row in rows ==> |row.cells| == |dates| by {
        GridRowsCells(c, PlanCombos(c), selected, dates);
      }
      Grid(rows, dates)
  }

  lemma {:induction false} GridRowsCells(c: Columns, combos: seq<(string, string)>, selected: seq<string>, dates: seq<int>)
    requires Rectangular(c)
    ensures forall row :: row in GridRows(c, combos, selected, dates) ==> |row.cells| == |dates|
    decreases |combos|
  {
    if |combos| > 0 {
      GridRowsCells(c, combos[1..], selected, dates);
    }
  }

  // ---------------------------------------------------------------------
  // Properties of the grid
  // ---------------------------------------------------------------------

  /** Row `i * |selected| + j` is combo `i` with metric `j`. */
  lemma {:induction false} GridRowAt(c: Columns, combos: seq<(string, string)>, selected: seq<string>, dates: seq<int>,
                                     i: int, j: int)
    requires Rectangular(c)
    requires 0 <= i < |combos| && 0 <= j < |selected|
    ensures 0 <= i * |selected| + j < |GridRows(c, combos, selected, dates)|
    ensures GridRows(c, combos, selected, dates)[i * |selected| + j] == MakeRow(c, combos[i], selected[j], dates)
    decreases i
  {
    var n := |selected|;
    var head := ComboRows(c, combos[0], selected, dates);
    var tail := GridRows(c, combos[1..], selected, dates);
    assert GridRows(c, combos, selected, dates) == head + tail;
    if i > 0 {
      GridRowAt(c, combos[1..], selected, dates, i - 1, j);
      assert i * n + j == n + ((i - 1) * n + j);
    }
  }

  /** Each cell holds the formatted value of the last input row with that
      (app, plan, date) key; it is null when there is no such row or the
      metric has no column. */
  lemma PivotCell(c: Columns, selected: seq<string>, i: int, j: int, k: int)
    requires Rectangular(c) && |c.dates| > 0
    requires 0 <= i < |PlanCombos(c)| && 0 <= j < |selected| && 0 <= k < |DateColumns(c)|
    ensures var g := ProcessPivot(Some(c), selected);
            var combo := PlanCombos(c)[i];
            0 <= i * |selected| + j < |g.rows|
            && g.rows[i * |selected| + j].app == combo.0
            && g.rows[i * |selected| + j].plan == combo.1
            && g.rows[i * |selected| + j].metricKey == selected[j]
            && g.rows[i * |selected| + j].metric == DisplayMetricName(selected[j])
            && g.rows[i * |selected| + j].cells[k]
               == FormatMetricValue(LastValue(c, combo.0, combo.1, g.dateColumns[k], selected[j], |c.dates|), selected[j])
  {
    GridRowAt(c, PlanCombos(c), selected, DateColumns(c), i, j);
  }

  /** The trend reads the cells backwards: the cells of older dates (later
      columns) come first. */
  lemma {:induction false} TrendAppend(a: seq<Option<real>>, b: seq<Option<real>>)
    ensures Trend(a + b) == Trend(b) + Trend(a)
    decreases |b|
  {
    if |b| == 0 {
      assert a + b == a;
    } else {
      var b' := b[..|b| - 1];
      assert (a + b)[..|a + b| - 1] == a + b';
      TrendAppend(a, b');
    }
  }

  /** Counts the non-null cells. */
  function CountSome(cells: seq<Option<real>>): nat
  {
    if |cells| == 0 then 0 else (if cells[0].Some? then 1 else 0) + CountSome(cells[1..])
  }

  /** The trend has exactly one value per non-null cell. */
  lemma {:induction false} TrendLength(cells: seq<Option<real>>)
    ensures |Trend(cells)| == CountSome(cells)
    decreases |cells|
  {
    if |cells| > 0 {
      var init := cells[..|cells| - 1];
      var last := cells[|cells| - 1];
      TrendLength(init);
      CountSomeAppend(init, last);
      assert cells == init + [last];
    }
  }

  lemma {:induction false} CountSomeAppend(a: seq<Option<real>>, x: Option<real>)
    ensures CountSome(a + [x]) == CountSome(a) + (if x.Some? then 1 else 0)
    decreases |a|
  {
    if |a| > 0 {
      assert (a + [x])[1..] == a[1..] + [x];
      CountSomeAppend(a[1..], x);
    }
  }
}
