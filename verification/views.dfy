/** Read-only views over one master-table snapshot (app/bigquery_client.py):
    date bounds, distinct plan groups, the pivot loader's filtered columns,
    and the chart loaders' group-by (plan, date) with a null-skipping sum. */
module QueryViews {
  import opened Common
  import opened Ordering
  import opened MasterTable

  // ---------------------------------------------------------------------
  // Date bounds (load_date_bounds)
  // ---------------------------------------------------------------------

  function MinDate(rows: seq<Row>): (m: int)
    requires |rows| > 0
    ensures forall r :: r in rows ==> m <= r.date
    ensures exists r :: r in rows && r.date == m
  {
    if |rows| == 1 then rows[0].date
    else
      var rest := MinDate(rows[1..]);
      assert forall r :: r in rows ==> r == rows[0] || r in rows[1..];
      if rows[0].date <= rest then rows[0].date else rest
  }

  function MaxDate(rows: seq<Row>): (m: int)
    requires |rows| > 0
    ensures forall r :: r in rows ==> r.date <= m
    ensures exists r :: r in rows && r.date == m
  {
    if |rows| == 1 then rows[0].date
    else
      var rest := MaxDate(rows[1..]);
      assert forall r :: r in rows ==> r == rows[0] || r in rows[1..];
      if rows[0].date >= rest then rows[0].date else rest
  }

  /** The earliest and latest reporting date; none for an empty table (the
      column minimum of an empty column is null). */
  function DateBounds(t: Table): (b: Option<(int, int)>)
    ensures b.None? <==> |t.rows| == 0
    ensures b.Some? ==> forall r :: r in t.rows ==> b.value.0 <= r.date <= b.value.1
    ensures b.Some? ==> exists r :: r in t.rows && r.date == b.value.0
    ensures b.Some? ==> exists r :: r in t.rows && r.date == b.value.1
  {
    if |t.rows| == 0 then None else Some((MinDate(t.rows), MaxDate(t.rows)))
  }

  // ---------------------------------------------------------------------
  // Plan groups (load_plan_groups)
  // ---------------------------------------------------------------------

  /** Two parallel lists, `App_Name` and `Plan_Name`. */
  datatype PlanGroups = PlanGroups(apps: seq<string>, plans: seq<string>)

  /** Python's `zip`: pairs up to the shorter list. */
  function Zip(g: PlanGroups): (z: seq<(string, string)>)
    ensures |z| <= |g.apps| && |z| <= |g.plans|
    ensures |g.apps| == |g.plans| ==> |z| == |g.apps|
    ensures forall i :: 0 <= i < |z| ==> z[i] == (g.apps[i], g.plans[i])
  {
    var n := if |g.apps| <= |g.plans| then |g.apps| else |g.plans|;
    seq(n, i requires 0 <= i < n => (g.apps[i], g.plans[i]))
  }

  /** The (app, plan) pair of every row whose status equals `status`. */
  function StatusPairs(rows: seq<Row>, status: string): (ps: seq<(string, string)>)
    ensures forall p :: p in ps <==> exists r :: r in rows && r.status == status && p == (r.app, r.plan)
    decreases |rows|
  {
    if |rows| == 0 then []
    else
      var init := rows[..|rows| - 1];
      var last := rows[|rows| - 1];
      assert forall r :: r in rows <==> r in init || r == last by {
        assert rows == init + [last];
      }
      var ps := StatusPairs(init, status);
      if last.status == status then ps + [(last.app, last.plan)] else ps
  }

  /** The distinct (app, plan) pairs of rows with the given status, sorted
      by app and then plan. */
  function LoadPlanGroups(t: Table, status: string): (g: PlanGroups)
    ensures |g.apps| == |g.plans|
    ensures StrictlySorted(Zip(g), Lex(StrLt, StrLt))
    ensures forall a, p :: (a, p) in Zip(g) <==>
              exists r :: r in t.rows && r.status == status && r.app == a && r.plan == p
  {
    ViewOrdersAreStrictTotal();
    var pairs := SortDistinct(StatusPairs(t.rows, status), Lex(StrLt, StrLt));
    var g := PlanGroups(seq(|pairs|, i requires 0 <= i < |pairs| => pairs[i].0),
                        seq(|pairs|, i requires 0 <= i < |pairs| => pairs[i].1));
    assert Zip(g) == pairs;
    g
  }

  // ---------------------------------------------------------------------
  // Pivot columns (load_pivot_data)
  // ---------------------------------------------------------------------

  /** Column-oriented loader output: the three key columns and one column per
      requested metric that the table has. */
  datatype Columns = Columns(
    apps: seq<string>,
    plans: seq<string>,
    dates: seq<int>,
    metrics: map<string, seq<Option<real>>>)

  /** Every column has one entry per row. */
  ghost predicate Rectangular(c: Columns)
  {
    && |c.plans| == |c.apps|
    && |c.dates| == |c.apps|
    && forall m :: m in c.metrics ==> |c.metrics[m]| == |c.apps|
  }

  /** The filtered rows as columns; metrics the table lacks are skipped. */
  function LoadPivotData(t: Table, f: Filter, metrics: seq<string>): (c: Columns)
    ensures Rectangular(c)
    ensures |c.dates| == |FilterRows(f, t.rows)|
    ensures c.metrics.Keys == set m | m in metrics && m in t.columns
    ensures forall i :: 0 <= i < |c.dates| ==>
              var r := FilterRows(f, t.rows)[i];
              Matches(f, r) && c.apps[i] == r.app && c.plans[i] == r.plan && c.dates[i] == r.date
    ensures forall m, i :: m in c.metrics && 0 <= i < |c.dates| ==>
              c.metrics[m][i] == Cell(FilterRows(f, t.rows)[i], m)
  {
    var kept := FilterRows(f, t.rows);
    Columns(
      seq(|kept|, i requires 0 <= i < |kept| => kept[i].app),
      seq(|kept|, i requires 0 <= i < |kept| => kept[i].plan),
      seq(|kept|, i requires 0 <= i < |kept| => kept[i].date),
      map m | m in metrics && m in t.columns ::
        seq(|kept|, i requires 0 <= i < |kept| => Cell(kept[i], m)))
  }

  // ---------------------------------------------------------------------
  // Chart series (load_chart_data, load_all_chart_data)
  // ---------------------------------------------------------------------

  /** Three parallel lists: `Plan_Name`, `Reporting_Date`, `metric_value`. */
  datatype Series = Series(plans: seq<string>, dates: seq<int>, values: seq<real>)

  const EmptySeries: Series := Series([], [], [])

  /** The order of the chart keys: plan first, then date. */
  function KeyLt(): ((string, int), (string, int)) -> bool
  {
    Lex(StrLt, IntLt)
  }

  function Key(r: Row): (string, int)
  {
    (r.plan, r.date)
  }

  /** The contribution of one cell to a sum: a null contributes nothing. */
  function Contribution(r: Row, metric: string): real
  {
    match Cell(r, metric)
    case Some(v) => v
    case None => 0.0
  }

  /** The accumulated total for one (plan, date) key; it starts at 0, so a
      group whose cells are all null sums to 0. */
  function GroupSum(rows: seq<Row>, k: (string, int), metric: string): real
    decreases |rows|
  {
    if |rows| == 0 then 0.0
    else
      var last := rows[|rows| - 1];
      GroupSum(rows[..|rows| - 1], k, metric) + (if Key(last) == k then Contribution(last, metric) else 0.0)
  }

  /** The sum of every non-null cell of the metric. */
  function Total(rows: seq<Row>, metric: string): real
    decreases |rows|
  {
    if |rows| == 0 then 0.0
    else Total(rows[..|rows| - 1], metric) + Contribution(rows[|rows| - 1], metric)
  }

  function Keys(rows: seq<Row>): (ks: seq<(string, int)>)
    ensures |ks| == |rows|
    ensures forall i :: 0 <= i < |rows| ==> ks[i] == Key(rows[i])
  {
    seq(|rows|, i requires 0 <= i < |rows| => Key(rows[i]))
  }

  function GroupSums(keys: seq<(string, int)>, rows: seq<Row>, metric: string): (vs: seq<real>)
    ensures |vs| == |keys|
    ensures forall i :: 0 <= i < |keys| ==> vs[i] == GroupSum(rows, keys[i], metric)
  {
    if |keys| == 0 then [] else [GroupSum(rows, keys[0], metric)] + GroupSums(keys[1..], rows, metric)
  }

  function SeriesKeys(s: Series): (ks: seq<(string, int)>)
    requires |s.plans| == |s.dates|
  {
    seq(|s.plans|, i requires 0 <= i < |s.plans| => (s.plans[i], s.dates[i]))
  }

  /** The group-by over (plan, date): one entry per distinct key present in
      the rows, in increasing key order, each the null-skipping sum. */
  function Aggregate(rows: seq<Row>, metric: string): (s: Series)
    ensures |s.plans| == |s.dates| == |s.values|
    ensures StrictlySorted(SeriesKeys(s), KeyLt())
    ensures forall k :: k in SeriesKeys(s) <==> exists r :: r in rows && Key(r) == k
    ensures forall i :: 0 <= i < |s.values| ==>
              s.values[i] == GroupSum(rows, (s.plans[i], s.dates[i]), metric)
  {
    ViewOrdersAreStrictTotal();
    var keys := SortDistinct(Keys(rows), KeyLt());
    assert forall k :: k in Keys(rows) <==> exists r :: r in rows && Key(r) == k by {
      forall k | k in Keys(rows) ensures exists r :: r in rows && Key(r) == k {
        var i :| 0 <= i < |rows| && Keys(rows)[i] == k;
        assert rows[i] in rows;
      }
    }
    var s := Series(seq(|keys|, i requires 0 <= i < |keys| => keys[i].0),
                    seq(|keys|, i requires 0 <= i < |keys| => keys[i].1),
                    GroupSums(keys, rows, metric));
    assert SeriesKeys(s) == keys;
    s
  }

  /** `load_chart_data`. No matching rows gives the empty series even for an
      unknown metric; with matching rows, a metric column the table lacks is
      read unguarded and fails (a KeyError in the source). */
  function LoadChartData(t: Table, f: Filter, metric: string): (r: Result<Series>)
    ensures |FilterRows(f, t.rows)| == 0 ==> r == Ok(EmptySeries)
    ensures |FilterRows(f, t.rows)| > 0 ==> (r.Ok? <==> metric in t.columns)
    ensures r.Ok? ==> r.value == Aggregate(FilterRows(f, t.rows), metric)
  {
    var kept := FilterRows(f, t.rows);
    if |kept| == 0 then Ok(EmptySeries)
    else if metric !in t.columns then Err("KeyError: " + metric)
    else Ok(Aggregate(kept, metric))
  }

  /** `load_all_chart_data`: one filter pass, then one aggregation per
      requested metric; a metric the table lacks yields the empty series. */
  method LoadAllChartData(t: Table, f: Filter, metrics: seq<string>) returns (results: map<string, Series>)
    ensures results.Keys == set m | m in metrics
    ensures forall m :: m in results && (m in t.columns || |FilterRows(f, t.rows)| == 0) ==>
              LoadChartData(t, f, m) == Ok(results[m])
    ensures forall m :: m in results && m !in t.columns ==> results[m] == EmptySeries
  {
    var kept := FilterRows(f, t.rows);
    if |kept| == 0 {
      return map m | m in metrics :: EmptySeries;
    }
    results := map[];
    var i := 0;
    while i < |metrics|
      invariant 0 <= i <= |metrics|
      invariant results.Keys == set m | m in metrics[..i]
      invariant forall m :: m in results ==>
                  results[m] == if m in t.columns then Aggregate(kept, m) else EmptySeries
    {
      var metric := metrics[i];
      if metric !in t.columns {
        results := results[metric := EmptySeries];
      } else {
        results := results[metric := Aggregate(kept, metric)];
      }
      assert metrics[..i + 1] == metrics[..i] + [metric];
      i := i + 1;
    }
    assert metrics[..i] == metrics;
  }

  // ---------------------------------------------------------------------
  // Properties of the aggregation
  // ---------------------------------------------------------------------

  function Sum(vs: seq<real>): real
  {
    if |vs| == 0 then 0.0 else vs[0] + Sum(vs[1..])
  }

  ghost predicate Distinct<T>(s: seq<T>)
  {
    forall i, j :: 0 <= i < j < |s| ==> s[i] != s[j]
  }

  /** Adding one row adds its contribution to exactly the one group that
      holds its key, if any. */
  lemma {:induction false} GroupSumsAppend(keys: seq<(string, int)>, rows: seq<Row>, x: Row, metric: string)
    requires Distinct(keys)
    ensures Sum(GroupSums(keys, rows + [x], metric))
            == Sum(GroupSums(keys, rows, metric)) + (if Key(x) in keys then Contribution(x, metric) else 0.0)
    decreases |keys|
  {
    if |keys| > 0 {
      assert (rows + [x])[..|rows + [x]| - 1] == rows;
      assert Distinct(keys[1..]);
      GroupSumsAppend(keys[1..], rows, x, metric);
      assert Key(x) in keys <==> Key(x) == keys[0] || Key(x) in keys[1..] by {
        assert keys == [keys[0]] + keys[1..];
      }
      if Key(x) == keys[0] {
        assert Key(x) !in keys[1..];
      }
    }
  }

  /** Summing the groups over a duplicate-free list of keys that covers
      every row gives the total of all non-null cells. */
  lemma {:induction false} GroupSumsCoverTotal(keys: seq<(string, int)>, rows: seq<Row>, metric: string)
    requires Distinct(keys)
    requires forall r :: r in rows ==> Key(r) in keys
    ensures Sum(GroupSums(keys, rows, metric)) == Total(rows, metric)
    decreases |rows|
  {
    if |rows| == 0 {
      GroupSumsOfEmpty(keys, metric);
    } else {
      var init := rows[..|rows| - 1];
      var last := rows[|rows| - 1];
      assert rows == init + [last];
      GroupSumsCoverTotal(keys, init, metric);
      GroupSumsAppend(keys, init, last, metric);
    }
  }

  lemma {:induction false} GroupSumsOfEmpty(keys: seq<(string, int)>, metric: string)
    ensures Sum(GroupSums(keys, [], metric)) == 0.0
    decreases |keys|
  {
    if |keys| > 0 {
      GroupSumsOfEmpty(keys[1..], metric);
    }
  }

  /** The chart series loses nothing: its values add up to the sum of all
      non-null cells of the metric over the aggregated rows. */
  lemma AggregateConservesTotal(rows: seq<Row>, metric: string)
    ensures Sum(Aggregate(rows, metric).values) == Total(rows, metric)
  {
    ViewOrdersAreStrictTotal();
    var s := Aggregate(rows, metric);
    var keys := SeriesKeys(s);
    assert Distinct(keys) by {
      forall i, j | 0 <= i < j < |keys| ensures keys[i] != keys[j] {
        assert KeyLt()(keys[i], keys[j]);
      }
    }
    assert s.values == GroupSums(keys, rows, metric);
    forall r | r in rows ensures Key(r) in keys {
    }
    GroupSumsCoverTotal(keys, rows, metric);
  }

  /** A group whose cells are all null is present in the series with the
      value 0, not omitted and not null. */
  lemma {:induction false} AllNullGroupSumsToZero(rows: seq<Row>, k: (string, int), metric: string)
    requires forall r :: r in rows && Key(r) == k ==> Cell(r, metric).None?
    ensures GroupSum(rows, k, metric) == 0.0
    decreases |rows|
  {
    if |rows| > 0 {
      assert rows == rows[..|rows| - 1] + [rows[|rows| - 1]];
      AllNullGroupSumsToZero(rows[..|rows| - 1], k, metric);
    }
  }
}
