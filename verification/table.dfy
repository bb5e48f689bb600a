/** The master table: one snapshot of the warehouse query's result. Rows
    carry the reporting date, the categorical dimensions and the metric
    columns, any cell of which may be null. */
module MasterTable {
  import opened Common

  /** One result row. `variant` is the `Table` column; `status` is
      `Active_Inactive`. Dates are day numbers. */
  datatype Row = Row(
    date: int,
    app: string,
    plan: string,
    bc: int,
    cohort: string,
    status: string,
    variant: string,
    metrics: map<string, Option<real>>)

  /** A snapshot: the metric columns it has and its rows, in query order. */
  datatype Table = Table(columns: set<string>, rows: seq<Row>)

  /** The value of a metric cell; a row without the column reads as null. */
  function Cell(r: Row, metric: string): Option<real>
  {
    if metric in r.metrics then r.metrics[metric] else None
  }

  /** The arguments shared by the pivot and chart loaders. An empty plan
      list means "every plan". */
  datatype Filter = Filter(
    start: int,
    end: int,
    bc: int,
    cohort: string,
    plans: seq<string>,
    variant: string,
    status: string)

  /** The loaders' conjunctive mask: inclusive date range, exact matches on
      the categorical columns, plan membership when plans were given. */
  predicate Matches(f: Filter, r: Row)
  {
    && f.start <= r.date <= f.end
    && r.bc == f.bc
    && r.cohort == f.cohort
    && r.status == f.status
    && r.variant == f.variant
    && (|f.plans| == 0 || r.plan in f.plans)
  }

  /** `data.filter(mask)`: the matching rows, in table order. */
  function FilterRows(f: Filter, rows: seq<Row>): (kept: seq<Row>)
    ensures forall r :: r in kept <==> r in rows && Matches(f, r)
    ensures forall r :: multiset(kept)[r] == if Matches(f, r) then multiset(rows)[r] else 0
    decreases |rows|
  {
    if |rows| == 0 then []
    else
      var init := rows[..|rows| - 1];
      var last := rows[|rows| - 1];
      assert rows == init + [last];
      var k := FilterRows(f, init);
      if Matches(f, last) then k + [last] else k
  }

  /** Filtering keeps relative order: it distributes over concatenation. */
  lemma {:induction false} FilterRowsAppend(f: Filter, a: seq<Row>, b: seq<Row>)
    ensures FilterRows(f, a + b) == FilterRows(f, a) + FilterRows(f, b)
    decreases |b|
  {
    if |b| == 0 {
      assert a + b == a;
    } else {
      var b' := b[..|b| - 1];
      assert a + b == (a + b') + [b[|b| - 1]];
      assert (a + b)[..|a + b| - 1] == a + b';
      FilterRowsAppend(f, a, b');
    }
  }

  /** A row that matches survives the filter wherever it sits. */
  lemma FilterRowsSingle(f: Filter, r: Row)
    ensures FilterRows(f, [r]) == if Matches(f, r) then [r] else []
  {
    assert [r][..0] == [];
  }
}
