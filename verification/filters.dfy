/** Filter helpers (app/filters.py): grouping the plan list by app, and the
    two updates the filter panel makes to the session's checkbox states. The
    session's widget keys are a map from key to checkbox value. */
module Filters {
  import opened Common
  import opened Config
  import opened QueryViews

  // ---------------------------------------------------------------------
  // Plans by app
  // ---------------------------------------------------------------------

  /** An insertion-ordered dict from app to its plan list. */
  type Grouping = seq<(string, seq<string>)>

  /** The dict's keys, in insertion order. */
  function Apps(g: Grouping): seq<string>
  {
    if |g| == 0 then [] else [g[0].0] + Apps(g[1..])
  }

  /** `result.get(app, [])`: the first entry for `app`. */
  function PlansFor(g: Grouping, app: string): seq<string>
  {
    if |g| == 0 then [] else if g[0].0 == app then g[0].1 else PlansFor(g[1..], app)
  }

  /** Appends `x` unless it is already present. */
  function Extend(l: seq<string>, x: string): seq<string>
  {
    if x in l then l else l + [x]
  }

  /** One loop step of `get_plans_by_app`. */
  function AddPair(g: Grouping, app: string, plan: string): Grouping
  {
    if |g| == 0 then [(app, [plan])]
    else if g[0].0 == app then [(app, Extend(g[0].1, plan))] + g[1..]
    else [g[0]] + AddPair(g[1..], app, plan)
  }

  lemma {:induction false} AddPairApps(g: Grouping, app: string, plan: string)
    ensures Apps(AddPair(g, app, plan)) == Extend(Apps(g), app)
    decreases |g|
  {
    if |g| > 0 && g[0].0 != app {
      AddPairApps(g[1..], app, plan);
      assert ([g[0]] + AddPair(g[1..], app, plan))[1..] == AddPair(g[1..], app, plan);
      assert app in Apps(g) <==> app in Apps(g[1..]);
    } else if |g| > 0 {
      assert ([(app, Extend(g[0].1, plan))] + g[1..])[1..] == g[1..];
    }
  }

  lemma {:induction false} AddPairPlans(g: Grouping, app: string, plan: string, a: string)
    ensures PlansFor(AddPair(g, app, plan), a) == if a == app then Extend(PlansFor(g, app), plan) else PlansFor(g, a)
    decreases |g|
  {
    if |g| > 0 && g[0].0 != app {
      AddPairPlans(g[1..], app, plan, a);
      assert ([g[0]] + AddPair(g[1..], app, plan))[1..] == AddPair(g[1..], app, plan);
    } else if |g| > 0 {
      assert ([(app, Extend(g[0].1, plan))] + g[1..])[1..] == g[1..];
    }
  }

  /** The apps of the pairs, in order, repeats kept. */
  function FirstsOf(pairs: seq<(string, string)>): (s: seq<string>)
    ensures |s| == |pairs|
    ensures forall i :: 0 <= i < |pairs| ==> s[i] == pairs[i].0
  {
    if |pairs| == 0 then [] else FirstsOf(pairs[..|pairs| - 1]) + [pairs[|pairs| - 1].0]
  }

  /** The plans paired with `app`, in order, repeats kept. */
  function PlansOfApp(pairs: seq<(string, string)>, app: string): (s: seq<string>)
    ensures forall p :: p in s <==> (app, p) in pairs
  {
    if |pairs| == 0 then []
    else
      var init := pairs[..|pairs| - 1];
      var last := pairs[|pairs| - 1];
      assert forall q :: q in pairs <==> q in init || q == last;
      PlansOfApp(init, app) + (if last.0 == app then [last.1] else [])
  }

  /** The grouping loop over a list of (app, plan) pairs. */
  function Group(pairs: seq<(string, string)>): (g: Grouping)
    ensures Apps(g) == Dedup(FirstsOf(pairs))
  {
    if |pairs| == 0 then []
    else
      var init := pairs[..|pairs| - 1];
      var last := pairs[|pairs| - 1];
      AddPairApps(Group(init), last.0, last.1);
      assert FirstsOf(pairs)[..|pairs| - 1] == FirstsOf(init);
      AddPair(Group(init), last.0, last.1)
  }

  /** Each app's list is its distinct plans in first-occurrence order. */
  lemma {:induction false} GroupPlans(pairs: seq<(string, string)>, a: string)
    ensures PlansFor(Group(pairs), a) == Dedup(PlansOfApp(pairs, a))
    decreases |pairs|
  {
    if |pairs| > 0 {
      var init := pairs[..|pairs| - 1];
      var last := pairs[|pairs| - 1];
      GroupPlans(init, a);
      AddPairPlans(Group(init), last.0, last.1, a);
      var x := PlansOfApp(init, a);
      if last.0 == a {
        assert PlansOfApp(pairs, a) == x + [last.1];
        assert (x + [last.1])[..|x|] == x;
        assert Dedup(x + [last.1]) == Extend(Dedup(x), last.1);
      } else {
        assert PlansOfApp(pairs, a) == x;
      }
    }
  }

  /** Distinct keys make `PlansFor` the list stored in the entry. */
  lemma {:induction false} PlansForEntry(g: Grouping, i: int)
    requires 0 <= i < |g|
    requires forall j, k :: 0 <= j < k < |Apps(g)| ==> Apps(g)[j] != Apps(g)[k]
    ensures |Apps(g)| == |g| && Apps(g)[i] == g[i].0
    ensures PlansFor(g, g[i].0) == g[i].1
    decreases i
  {
    AppsLength(g);
    if i > 0 {
      assert Apps(g)[1..] == Apps(g[1..]);
      assert Apps(g)[0] != Apps(g)[i];
      PlansForEntry(g[1..], i - 1);
    }
  }

  lemma {:induction false} AppsLength(g: Grouping)
    ensures |Apps(g)| == |g|
    ensures forall i :: 0 <= i < |g| ==> Apps(g)[i] == g[i].0
    decreases |g|
  {
    if |g| > 0 {
      AppsLength(g[1..]);
    }
  }

  /** Each entry of the grouping lists exactly its app's plans, once each. */
  lemma GroupEntries(pairs: seq<(string, string)>, i: int)
    requires 0 <= i < |Group(pairs)|
    ensures var e := Group(pairs)[i];
            && (forall p :: p in e.1 <==> (e.0, p) in pairs)
            && (forall j, k :: 0 <= j < k < |e.1| ==> e.1[j] != e.1[k])
  {
    var g := Group(pairs);
    AppsLength(g);
    PlansForEntry(g, i);
    GroupPlans(pairs, g[i].0);
  }

  /** The grouping's keys are distinct. */
  lemma GroupKeysDistinct(pairs: seq<(string, string)>)
    ensures var g := Group(pairs);
            forall i, j :: 0 <= i < j < |g| ==> g[i].0 != g[j].0
  {
    var g := Group(pairs);
    AppsLength(g);
    forall i, j | 0 <= i < j < |g| ensures g[i].0 != g[j].0 {
      assert Apps(g)[i] == g[i].0 && Apps(g)[j] == g[j].0;
    }
  }

  /** Every key of the grouping is a paired app, so its list is non-empty. */
  lemma GroupListNonEmpty(pairs: seq<(string, string)>, i: int)
    requires 0 <= i < |Group(pairs)|
    ensures |Group(pairs)[i].1| > 0
  {
    var g := Group(pairs);
    AppsLength(g);
    assert Apps(g)[i] in Apps(g);
    var k :| 0 <= k < |pairs| && FirstsOf(pairs)[k] == g[i].0;
    assert pairs[k] == (g[i].0, pairs[k].1);
    GroupEntries(pairs, i);
    assert pairs[k].1 in g[i].1;
  }

  /** Every paired app is a key of the grouping. */
  lemma PairedIsGroupKey(pairs: seq<(string, string)>, pr: (string, string))
    requires pr in pairs
    ensures exists i :: 0 <= i < |Group(pairs)| && Group(pairs)[i].0 == pr.0
  {
    var g := Group(pairs);
    AppsLength(g);
    var k :| 0 <= k < |pairs| && pairs[k] == pr;
    assert FirstsOf(pairs)[k] == pr.0;
    assert pr.0 in Apps(g);
  }

  lemma GroupListsExact(pairs: seq<(string, string)>)
    ensures var g := Group(pairs);
            forall i :: 0 <= i < |g| ==> forall p :: p in g[i].1 <==> (g[i].0, p) in pairs
  {
    forall i | 0 <= i < |Group(pairs)| ensures forall p :: p in Group(pairs)[i].1 <==> (Group(pairs)[i].0, p) in pairs {
      GroupEntries(pairs, i);
    }
  }

  lemma GroupListsDistinct(pairs: seq<(string, string)>)
    ensures var g := Group(pairs);
            forall i :: 0 <= i < |g| ==> forall j, k :: 0 <= j < k < |g[i].1| ==> g[i].1[j] != g[i].1[k]
  {
    forall i | 0 <= i < |Group(pairs)|
      ensures forall j, k :: 0 <= j < k < |Group(pairs)[i].1| ==> Group(pairs)[i].1[j] != Group(pairs)[i].1[k]
    {
      GroupEntries(pairs, i);
    }
  }

  lemma GroupListsNonEmpty(pairs: seq<(string, string)>)
    ensures var g := Group(pairs);
            forall i :: 0 <= i < |g| ==> |g[i].1| > 0
  {
    forall i | 0 <= i < |Group(pairs)| ensures |Group(pairs)[i].1| > 0 {
      GroupListNonEmpty(pairs, i);
    }
  }

  lemma PairsAreGroupKeys(pairs: seq<(string, string)>)
    ensures var g := Group(pairs);
            forall pr :: pr in pairs ==> exists i :: 0 <= i < |g| && g[i].0 == pr.0
  {
    forall pr | pr in pairs ensures exists i :: 0 <= i < |Group(pairs)| && Group(pairs)[i].0 == pr.0 {
      PairedIsGroupKey(pairs, pr);
    }
  }

  /** `get_plans_by_app` over the plan-groups loader's output. */
  function PlansByApp(groups: PlanGroups): (g: Grouping)
    ensures forall i, j :: 0 <= i < j < |g| ==> g[i].0 != g[j].0
    ensures forall i :: 0 <= i < |g| ==> forall p :: p in g[i].1 <==> (g[i].0, p) in Zip(groups)
    ensures forall i :: 0 <= i < |g| ==> forall j, k :: 0 <= j < k < |g[i].1| ==> g[i].1[j] != g[i].1[k]
    ensures forall i :: 0 <= i < |g| ==> |g[i].1| > 0
    ensures forall pr :: pr in Zip(groups) ==> exists i :: 0 <= i < |g| && g[i].0 == pr.0
  {
    var pairs := Zip(groups);
    GroupKeysDistinct(pairs);
    GroupListsExact(pairs);
    GroupListsDistinct(pairs);
    GroupListsNonEmpty(pairs);
    PairsAreGroupKeys(pairs);
    Group(pairs)
  }

  /** The keys are the distinct apps in first-occurrence order, and each
      list is the app's distinct plans in first-occurrence order. */
  lemma PlansByAppIsFirstOccurrence(groups: PlanGroups, a: string)
    ensures Apps(PlansByApp(groups)) == Dedup(FirstsOf(Zip(groups)))
    ensures PlansFor(PlansByApp(groups), a) == Dedup(PlansOfApp(Zip(groups), a))
  {
    GroupPlans(Zip(groups), a);
  }

  // ---------------------------------------------------------------------
  // Select all
  // ---------------------------------------------------------------------

  /** Writes `v` under every key of `keys`, creating keys as needed. */
  function SetAll(m: map<string, bool>, keys: seq<string>, v: bool): (r: map<string, bool>)
    ensures forall k :: k in r <==> k in m || k in keys
    ensures forall k :: k in keys ==> r[k] == v
    ensures forall k :: k in m && k !in keys ==> r[k] == m[k]
    decreases |keys|
  {
    if |keys| == 0 then m
    else
      assert forall k :: k in keys <==> k == keys[0] || k in keys[1..];
      SetAll(m[keys[0] := v], keys[1..], v)
  }

  /** `handle_select_all`: when the "All" box exists, every item box takes
      its value; otherwise nothing changes. */
  function HandleSelectAll(state: map<string, bool>, allKey: string, items: seq<string>): (r: map<string, bool>)
    ensures allKey !in state ==> r == state
    ensures allKey in state ==> forall k :: k in items ==> k in r && r[k] == state[allKey]
    ensures allKey in state ==> forall k :: k in r <==> k in state || k in items
    ensures forall k :: k in state && k !in items ==> k in r && r[k] == state[k]
  {
    if allKey in state then SetAll(state, items, state[allKey]) else state
  }

  // ---------------------------------------------------------------------
  // Reset
  // ---------------------------------------------------------------------

  function PlanKey(prefix: string, app: string, plan: string): string
  {
    prefix + "plan_" + app + "_" + plan
  }

  function AllKey(prefix: string, app: string): string
  {
    prefix + "plan_all_" + app
  }

  function MetricKey(prefix: string, metric: string): string
  {
    prefix + "metric_" + metric
  }

  function MetricsAllKey(prefix: string): string
  {
    prefix + "metrics_all"
  }

  /** Applies the writes in order, skipping keys the session does not hold. */
  function ApplyPresent(m: map<string, bool>, writes: seq<(string, bool)>): (r: map<string, bool>)
    ensures r.Keys == m.Keys
    ensures forall k :: k in m && (forall i :: 0 <= i < |writes| ==> writes[i].0 != k) ==> r[k] == m[k]
  {
    if |writes| == 0 then m
    else
      var w := writes[|writes| - 1];
      var r := ApplyPresent(m, writes[..|writes| - 1]);
      if w.0 in r then r[w.0 := w.1] else r
  }

  /** A present key written at least once, always with `v`, ends as `v`. */
  lemma {:induction false} ApplyPresentAgreeing(m: map<string, bool>, writes: seq<(string, bool)>, k: string, v: bool)
    requires k in m
    requires exists i :: 0 <= i < |writes| && writes[i].0 == k
    requires forall i :: 0 <= i < |writes| && writes[i].0 == k ==> writes[i].1 == v
    ensures ApplyPresent(m, writes)[k] == v
    decreases |writes|
  {
    var init := writes[..|writes| - 1];
    if writes[|writes| - 1].0 != k {
      var i :| 0 <= i < |writes| && writes[i].0 == k;
      assert init[i] == writes[i];
      ApplyPresentAgreeing(m, init, k, v);
    }
  }

  lemma {:induction false} ApplyPresentAppend(m: map<string, bool>, a: seq<(string, bool)>, b: seq<(string, bool)>)
    ensures ApplyPresent(m, a + b) == ApplyPresent(ApplyPresent(m, a), b)
    decreases |b|
  {
    if |b| == 0 {
      assert a + b == a;
    } else {
      assert (a + b)[..|a + b| - 1] == a + b[..|b| - 1];
      ApplyPresentAppend(m, a, b[..|b| - 1]);
    }
  }

  /** The writes of one app: its "All" box, then each plan's box. */
  function AppWrites(prefix: string, app: string, plans: seq<string>): (ws: seq<(string, bool)>)
    ensures |ws| == |plans| + 1
    ensures ws[0] == (AllKey(prefix, app), false)
    ensures forall j :: 0 <= j < |plans| ==> ws[j + 1] == (PlanKey(prefix, app, plans[j]), plans[j] == DEFAULT_PLAN)
  {
    [(AllKey(prefix, app), false)]
      + seq(|plans|, j requires 0 <= j < |plans| => (PlanKey(prefix, app, plans[j]), plans[j] == DEFAULT_PLAN))
  }

  /** The first loop of `reset_filters`, app by app. */
  function GroupWrites(prefix: string, g: Grouping): seq<(string, bool)>
  {
    if |g| == 0 then [] else AppWrites(prefix, g[0].0, g[0].1) + GroupWrites(prefix, g[1..])
  }

  /** A write of the first loop: some app's "All" box or one of its plans. */
  predicate GroupWrite(prefix: string, g: Grouping, w: (string, bool))
  {
    exists i :: 0 <= i < |g| &&
      (w == (AllKey(prefix, g[i].0), false) || exists p :: p in g[i].1 && w == (PlanKey(prefix, g[i].0, p), p == DEFAULT_PLAN))
  }

  lemma {:induction false} GroupWritesShape(prefix: string, g: Grouping)
    ensures forall w :: w in GroupWrites(prefix, g) ==> GroupWrite(prefix, g, w)
    ensures forall i :: 0 <= i < |g| ==> (AllKey(prefix, g[i].0), false) in GroupWrites(prefix, g)
    ensures forall i, p :: 0 <= i < |g| && p in g[i].1 ==>
              (PlanKey(prefix, g[i].0, p), p == DEFAULT_PLAN) in GroupWrites(prefix, g)
    decreases |g|
  {
    if |g| > 0 {
      GroupWritesShape(prefix, g[1..]);
      var head := AppWrites(prefix, g[0].0, g[0].1);
      var ws := GroupWrites(prefix, g);
      assert ws == head + GroupWrites(prefix, g[1..]);
      forall w | w in ws ensures GroupWrite(prefix, g, w) {
        if w in head {
          var j :| 0 <= j < |head| && head[j] == w;
          if j > 0 {
            assert g[0].1[j - 1] in g[0].1;
          }
        } else {
          assert GroupWrite(prefix, g[1..], w);
          var i :| 0 <= i < |g[1..]| &&
            (w == (AllKey(prefix, g[1..][i].0), false)
             || exists p :: p in g[1..][i].1 && w == (PlanKey(prefix, g[1..][i].0, p), p == DEFAULT_PLAN));
          assert g[1..][i] == g[i + 1];
        }
      }
      forall i, p | 0 <= i < |g| && p in g[i].1
        ensures (PlanKey(prefix, g[i].0, p), p == DEFAULT_PLAN) in ws
      {
        if i == 0 {
          var j :| 0 <= j < |g[0].1| && g[0].1[j] == p;
          assert head[j + 1] in head;
        } else {
          assert g[1..][i - 1] == g[i];
        }
      }
      forall i | 0 <= i < |g| ensures (AllKey(prefix, g[i].0), false) in ws {
        if i == 0 {
          assert head[0] in head;
        } else {
          assert g[1..][i - 1] == g[i];
        }
      }
    }
  }

  /** The metric boxes, in configuration order, then "select all metrics". */
  function MetricWrites(prefix: string): (ws: seq<(string, bool)>)
    ensures |ws| == |METRIC_KEYS| + 1
    ensures forall i :: 0 <= i < |ws| ==> ws[i].1
    ensures forall i :: 0 <= i < |METRIC_KEYS| ==> ws[i] == (MetricKey(prefix, METRIC_KEYS[i]), true)
    ensures ws[|ws| - 1] == (MetricsAllKey(prefix), true)
  {
    seq(|METRIC_KEYS|, i requires 0 <= i < |METRIC_KEYS| => (MetricKey(prefix, METRIC_KEYS[i]), true))
      + [(MetricsAllKey(prefix), true)]
  }

  /** Every write `reset_filters` attempts, in order. */
  function ResetWrites(groups: PlanGroups, prefix: string): seq<(string, bool)>
  {
    GroupWrites(prefix, PlansByApp(groups)) + MetricWrites(prefix)
  }

  /** `reset_filters`: only boxes the session already holds are written;
      every metric box and "select all metrics" end ticked; a key no write
      names keeps its value. */
  function ResetFilters(state: map<string, bool>, groups: PlanGroups, prefix: string): (r: map<string, bool>)
    ensures r.Keys == state.Keys
    ensures forall m :: m in METRIC_KEYS && MetricKey(prefix, m) in state ==> r[MetricKey(prefix, m)]
    ensures MetricsAllKey(prefix) in state ==> r[MetricsAllKey(prefix)]
    ensures forall k :: k in state && (forall w :: w in ResetWrites(groups, prefix) ==> w.0 != k) ==> r[k] == state[k]
  {
    var all := ResetWrites(groups, prefix);
    MetricBoxesTicked(state, groups, prefix);
    assert forall i :: 0 <= i < |all| ==> all[i] in all;
    ApplyPresent(state, all)
  }

  /** The metric writes come last and are all `true`. */
  lemma MetricBoxesTicked(state: map<string, bool>, groups: PlanGroups, prefix: string)
    ensures var r := ApplyPresent(state, ResetWrites(groups, prefix));
            && (forall m :: m in METRIC_KEYS && MetricKey(prefix, m) in state ==> r[MetricKey(prefix, m)])
            && (MetricsAllKey(prefix) in state ==> r[MetricsAllKey(prefix)])
  {
    var ws := GroupWrites(prefix, PlansByApp(groups));
    var ms := MetricWrites(prefix);
    ApplyPresentAppend(state, ws, ms);
    var mid := ApplyPresent(state, ws);
    forall m | m in METRIC_KEYS && MetricKey(prefix, m) in state
      ensures ApplyPresent(mid, ms)[MetricKey(prefix, m)]
    {
      var i :| 0 <= i < |METRIC_KEYS| && METRIC_KEYS[i] == m;
      assert ms[i].0 == MetricKey(prefix, m);
      ApplyPresentAgreeing(mid, ms, MetricKey(prefix, m), true);
    }
    if MetricsAllKey(prefix) in state {
      ApplyPresentAgreeing(mid, ms, MetricsAllKey(prefix), true);
    }
  }

  // ---------------------------------------------------------------------
  // Reset of the plan boxes
  // ---------------------------------------------------------------------

  /** Names free of '_' split uniquely at the first '_'. */
  lemma SplitAtUnderscore(a: string, p: string, b: string, q: string)
    requires '_' !in a && '_' !in b
    requires a + "_" + p == b + "_" + q
    ensures a == b && p == q
  {
    var s := a + "_" + p;
    FirstUnderscore(a, p);
    FirstUnderscore(b, q);
    assert |a| == |b|;
    assert a == s[..|a|] && b == (b + "_" + q)[..|b|];
    assert p == s[|a| + 1..] && q == (b + "_" + q)[|b| + 1..];
  }

  /** In `a + "_" + p` with `a` free of '_', the first '_' sits at `|a|`. */
  lemma FirstUnderscore(a: string, p: string)
    requires '_' !in a
    ensures (a + "_" + p)[|a|] == '_'
    ensures forall i :: 0 <= i < |a| ==> (a + "_" + p)[i] != '_'
  {
    forall i | 0 <= i < |a| ensures (a + "_" + p)[i] != '_' {
      assert (a + "_" + p)[i] == a[i];
    }
  }

  /** Equal keys under a common prefix have equal tails. */
  lemma CancelPrefix(prefix: string, x: string, y: string)
    requires prefix + x == prefix + y
    ensures x == y
  {
    assert x == (prefix + x)[|prefix|..];
    assert y == (prefix + y)[|prefix|..];
  }

  /** Under the naming assumptions, plan keys name one (app, plan) and no
      "All" key. */
  lemma PlanKeysDistinct(prefix: string, a: string, p: string, b: string, q: string)
    requires '_' !in a && '_' !in b && a != "all"
    ensures PlanKey(prefix, a, p) == PlanKey(prefix, b, q) ==> a == b && p == q
    ensures PlanKey(prefix, a, p) != AllKey(prefix, b)
  {
    assert PlanKey(prefix, a, p) == (prefix + "plan_") + (a + "_" + p);
    assert PlanKey(prefix, b, q) == (prefix + "plan_") + (b + "_" + q);
    assert AllKey(prefix, b) == (prefix + "plan_") + ("all" + "_" + b);
    if PlanKey(prefix, a, p) == PlanKey(prefix, b, q) {
      CancelPrefix(prefix + "plan_", a + "_" + p, b + "_" + q);
      SplitAtUnderscore(a, p, b, q);
    }
    if PlanKey(prefix, a, p) == AllKey(prefix, b) {
      CancelPrefix(prefix + "plan_", a + "_" + p, "all" + "_" + b);
      SplitAtUnderscore(a, p, "all", b);
    }
  }

  /** Plan-box keys never meet the metric boxes. */
  lemma PlanFamilyIsNotMetric(prefix: string, k: string, w: (string, bool))
    requires StartsWith(k, prefix + "p")
    requires w in MetricWrites(prefix)
    ensures w.0 != k
  {
    var ms := MetricWrites(prefix);
    var i :| 0 <= i < |ms| && ms[i] == w;
    assert k[|prefix|] == 'p';
    if i < |METRIC_KEYS| {
      assert w.0 == prefix + "metric_" + METRIC_KEYS[i];
      assert w.0[|prefix|] == 'm';
    } else {
      assert w.0 == prefix + "metrics_all";
      assert w.0[|prefix|] == 'm';
    }
  }

  /** App names without '_' and other than "all" keep the box keys apart. */
  predicate PlainApps(groups: PlanGroups)
  {
    forall pr :: pr in Zip(groups) ==> '_' !in pr.0 && pr.0 != "all"
  }

  /** Keys free of '_' and other than "all". */
  predicate PlainKeys(g: Grouping)
  {
    forall i :: 0 <= i < |g| ==> '_' !in g[i].0 && g[i].0 != "all"
  }

  lemma PlainAppsGivePlainKeys(groups: PlanGroups)
    requires PlainApps(groups)
    ensures PlainKeys(PlansByApp(groups))
  {
    var g := PlansByApp(groups);
    forall i | 0 <= i < |g| ensures '_' !in g[i].0 && g[i].0 != "all" {
      assert g[i].1[0] in g[i].1;
    }
  }

  /** Every first-loop write to a plan box carries that box's reset value. */
  lemma PlanBoxWrite(prefix: string, g: Grouping, a: string, p: string, w: (string, bool))
    requires PlainKeys(g) && '_' !in a && a != "all"
    requires GroupWrite(prefix, g, w) && w.0 == PlanKey(prefix, a, p)
    ensures w.1 == (p == DEFAULT_PLAN)
  {
    var i :| 0 <= i < |g| &&
      (w == (AllKey(prefix, g[i].0), false)
       || exists q :: q in g[i].1 && w == (PlanKey(prefix, g[i].0, q), q == DEFAULT_PLAN));
    var b := g[i].0;
    PlanKeysDistinct(prefix, a, p, b, p);
    if w != (AllKey(prefix, b), false) {
      var q :| q in g[i].1 && w == (PlanKey(prefix, b, q), q == DEFAULT_PLAN);
      PlanKeysDistinct(prefix, a, p, b, q);
    }
  }

  /** Every first-loop write to an app's "All" box clears it. */
  lemma AllBoxWrite(prefix: string, g: Grouping, a: string, w: (string, bool))
    requires PlainKeys(g) && '_' !in a
    requires GroupWrite(prefix, g, w) && w.0 == AllKey(prefix, a)
    ensures !w.1
  {
    var i :| 0 <= i < |g| &&
      (w == (AllKey(prefix, g[i].0), false)
       || exists q :: q in g[i].1 && w == (PlanKey(prefix, g[i].0, q), q == DEFAULT_PLAN));
    var b := g[i].0;
    if w != (AllKey(prefix, b), false) {
      var q :| q in g[i].1 && w == (PlanKey(prefix, b, q), q == DEFAULT_PLAN);
      PlanKeysDistinct(prefix, b, q, a, q);
    }
  }

  /** No metric write names a plan-family key. */
  lemma MetricsSkipPlanFamily(prefix: string, k: string)
    requires StartsWith(k, prefix + "p")
    ensures forall i :: 0 <= i < |MetricWrites(prefix)| ==> MetricWrites(prefix)[i].0 != k
  {
    forall i | 0 <= i < |MetricWrites(prefix)| ensures MetricWrites(prefix)[i].0 != k {
      PlanFamilyIsNotMetric(prefix, k, MetricWrites(prefix)[i]);
    }
  }

  lemma PlanKeyFamily(prefix: string, a: string, p: string)
    ensures StartsWith(PlanKey(prefix, a, p), prefix + "p")
  {
    assert PlanKey(prefix, a, p) == (prefix + "p") + ("lan_" + a + "_" + p);
  }

  lemma AllKeyFamily(prefix: string, a: string)
    ensures StartsWith(AllKey(prefix, a), prefix + "p")
  {
    assert AllKey(prefix, a) == (prefix + "p") + ("lan_all_" + a);
  }

  /** The first loop over any grouping with plain keys leaves a present plan
      box ticked iff its plan is the default plan. */
  lemma PlanBoxAfterGroupWrites(state: map<string, bool>, g: Grouping, prefix: string, i: int, p: string)
    requires PlainKeys(g) && 0 <= i < |g| && p in g[i].1
    requires PlanKey(prefix, g[i].0, p) in state
    ensures ApplyPresent(state, GroupWrites(prefix, g))[PlanKey(prefix, g[i].0, p)] == (p == DEFAULT_PLAN)
  {
    var ws := GroupWrites(prefix, g);
    var a := g[i].0;
    var k := PlanKey(prefix, a, p);
    GroupWritesShape(prefix, g);
    assert (k, p == DEFAULT_PLAN) in ws;
    forall j | 0 <= j < |ws| && ws[j].0 == k ensures ws[j].1 == (p == DEFAULT_PLAN) {
      assert ws[j] in ws;
      PlanBoxWrite(prefix, g, a, p, ws[j]);
    }
    ApplyPresentAgreeing(state, ws, k, p == DEFAULT_PLAN);
  }

  /** The first loop over any grouping with plain keys clears a present
      "All" box. */
  lemma AllBoxAfterGroupWrites(state: map<string, bool>, g: Grouping, prefix: string, i: int)
    requires PlainKeys(g) && 0 <= i < |g|
    requires AllKey(prefix, g[i].0) in state
    ensures !ApplyPresent(state, GroupWrites(prefix, g))[AllKey(prefix, g[i].0)]
  {
    var ws := GroupWrites(prefix, g);
    var a := g[i].0;
    var k := AllKey(prefix, a);
    GroupWritesShape(prefix, g);
    assert (k, false) in ws;
    forall j | 0 <= j < |ws| && ws[j].0 == k ensures !ws[j].1 {
      assert ws[j] in ws;
      AllBoxWrite(prefix, g, a, ws[j]);
    }
    ApplyPresentAgreeing(state, ws, k, false);
  }

  /** The metric writes leave a present plan-family box as it was. */
  lemma MetricWritesKeepPlanFamily(m: map<string, bool>, prefix: string, k: string)
    requires StartsWith(k, prefix + "p") && k in m
    ensures ApplyPresent(m, MetricWrites(prefix))[k] == m[k]
  {
    MetricsSkipPlanFamily(prefix, k);
  }

  /** After a reset, a present plan box is ticked iff its plan is the
      default plan. */
  lemma ResetPlanBox(state: map<string, bool>, groups: PlanGroups, prefix: string, a: string, p: string)
    requires PlainApps(groups) && (a, p) in Zip(groups)
    requires PlanKey(prefix, a, p) in state
    ensures ResetFilters(state, groups, prefix)[PlanKey(prefix, a, p)] == (p == DEFAULT_PLAN)
  {
    var g := PlansByApp(groups);
    PlainAppsGivePlainKeys(groups);
    var i :| 0 <= i < |g| && g[i].0 == a;
    PlanBoxAfterGroupWrites(state, g, prefix, i, p);
    PlanKeyFamily(prefix, a, p);
    MetricWritesKeepPlanFamily(ApplyPresent(state, GroupWrites(prefix, g)), prefix, PlanKey(prefix, a, p));
    ApplyPresentAppend(state, GroupWrites(prefix, g), MetricWrites(prefix));
  }

  /** After a reset, a present "All" box of an app is cleared. */
  lemma ResetAllBox(state: map<string, bool>, groups: PlanGroups, prefix: string, a: string, p: string)
    requires PlainApps(groups) && (a, p) in Zip(groups)
    requires AllKey(prefix, a) in state
    ensures !ResetFilters(state, groups, prefix)[AllKey(prefix, a)]
  {
    var g := PlansByApp(groups);
    PlainAppsGivePlainKeys(groups);
    var i :| 0 <= i < |g| && g[i].0 == a;
    AllBoxAfterGroupWrites(state, g, prefix, i);
    AllKeyFamily(prefix, a);
    MetricWritesKeepPlanFamily(ApplyPresent(state, GroupWrites(prefix, g)), prefix, AllKey(prefix, a));
    ApplyPresentAppend(state, GroupWrites(prefix, g), MetricWrites(prefix));
  }
}
