# Variant Dashboard core, modelled in Dafny

This project models the non-UI logic of the Variant Analytics Dashboard. The
dashboard is a Streamlit application over one master table of subscription
metrics, keyed by app, plan and reporting date. The model covers six pieces:

- **Tiered master-data cache** (`cache.dfy`, module `TieredCache`).
  - `get_master_data` reads from four tiers in order: the in-process app cache
    with a 24-hour TTL, the session copy with the same TTL, the durable
    "active" snapshot in the storage bucket, and finally the warehouse.
  - A "refresh" writes a new warehouse snapshot to staging.
  - A "promotion" copies staging to active and clears both caches.
  - `is_staging_ready` compares the two refresh timestamps.
  - The bucket is a map of blobs plus a map of timestamps. The clock is an
    integer `now`. The warehouse answer is a parameter. Which uploads fail
    during a call is a parameter `failing`.
- **Query views over the master table** (`table.dfy` and `views.dfy`, modules
  `MasterTable` and `QueryViews`): date bounds, distinct sorted (app, plan)
  pairs, the conjunctive row filter, column extraction for the pivot, and the
  chart aggregation. The aggregation groups by (plan, date), sums with nulls
  skipped, and emits keys in sorted order. It comes in a single-metric form and
  a batch form.
- **Pivot reshaping** (`pivots.dfy`, module `Pivots`). Column lists become one
  grid row per (app, plan, metric), with one cell per distinct date (newest
  first) and a trend in ascending date order.
- **User database and dashboard access** (`auth.dfy`, module `Auth`):
  authentication, access predicates, and the add, update and delete
  operations with their refusal messages.
- **Colours** (`colors.dfy`, module `Colors`):
  - hex parsing and formatting with clamping;
  - lighten and darken over exact reals;
  - classifying a plan name into its app;
  - assigning a shade per plan within its app.
- **Filter helpers** (`filters.dfy`, module `Filters`): grouping plans by app,
  "select all", and the reset of the filter checkboxes. The session's widget
  state is modelled as a map from key to checkbox value.

`common.dfy` holds the shared vocabulary: `Option`, `Result`, `Reply`, and
Python's slicing, upper-casing and `in`. `ordering.dfy` holds strict total
orders and a generic sort used by the views. `config.dfy` holds the
constants of `app/config.py`.

Each state-changing operation is a pure function from the old state to a
`(reply, new state)` pair. Metric values are `Option<real>`, and dates and
timestamps are integers.

Where the code and its design description disagree, the model follows the
code:
- **Cache freshness.** A cached copy is fresh only while its age is strictly
  below `CACHE_TTL`.
- **All-null groups.** A chart group whose values are all null sums to 0,
  because the accumulator starts at 0.
- **Missing metric column.** The single-metric chart loader reads the metric
  column without a guard, so a missing column is an error (`Result.Err`)
  whenever some row passes the filter. The batch loader yields an empty
  series for it.
- **Failed upload at promotion.** Promotion ignores whether the upload of the
  active snapshot succeeded. It still reports success and clears the caches.
- **The seeded viewer.** The seeded user "viewer" has role "viewer", not
  "readonly". So it never appears among a dashboard's read-only users, and the
  admin panel treats it like any other non-read-only role.

## Model

| member | source | states |
|---|---|---|
| TieredCache.LoadSnapshot | app/bigquery_client.py:81-99 | a snapshot loads iff the blob exists and is readable, and the result is that blob's table |
| TieredCache.SaveSnapshot | app/bigquery_client.py:102-113 | an upload replaces exactly the named blob unless it fails, and a failed upload changes nothing |
| TieredCache.SetStamp | app/bigquery_client.py:69-78 | a timestamp write sets exactly the named stamp to `now` unless it fails |
| TieredCache.GetMasterData | app/bigquery_client.py:190-246 | the result is served from one of the four tiers and leaves a fresh app cache holding it; it fails only when every tier misses and the warehouse fails |
| TieredCache.MemoryTierHit | app/bigquery_client.py:182-203 | a fresh app cache (data and time set, age strictly below the TTL) is returned and nothing changes |
| TieredCache.SessionTierHit | app/bigquery_client.py:205-214 | a fresh session copy is returned and copied into the app cache with the session's own timestamp, not `now` |
| TieredCache.DurableTierHit | app/bigquery_client.py:216-226 | a readable active snapshot is returned; both caches take time `now` and the source becomes GCS |
| TieredCache.WarehouseTierLoad | app/bigquery_client.py:228-246 | on a full miss the warehouse table goes to active and staging, both stamps are set, and the source becomes BigQuery |
| TieredCache.RepeatReadWithinTtl | app/bigquery_client.py:182-246 | a read repeated within the TTL of a cold read returns the same data and state |
| TieredCache.RefreshToStaging | app/bigquery_client.py:463-477 | only the staging blob and the warehouse stamp change; success says "BQ refresh complete. Data saved to staging."; a warehouse error or a missing bucket each return their message and change nothing |
| TieredCache.RefreshDoesNotAffectReads | app/bigquery_client.py:463-477 | a refresh does not change what the next read returns |
| TieredCache.PromoteStaging | app/bigquery_client.py:480-513 | no bucket, no staging blob and an unreadable staging blob each fail with their own message and change nothing; success copies staging to active, stamps it, empties the app cache and drops the session copy |
| TieredCache.PromotionServesStaging | app/bigquery_client.py:480-513 | within one session: after a promotion whose upload succeeded, that session's next read serves the promoted staging data, unless another session first writes its copy back (see FreshSessionRestoresOldTable) |
| TieredCache.FreshSessionRestoresOldTable | app/bigquery_client.py:205-214 | after a promotion, another session whose copy is still fresh puts the old table and its old time back into the shared in-process cache, and the promoting session then reads the old table until that copy's TTL runs out |
| TieredCache.PromotionIgnoresFailedUpload | app/bigquery_client.py:497-511 | a promotion whose upload fails still reports success, and the next read serves the old active snapshot |
| TieredCache.NothingToPromote | app/bigquery_client.py:489-491 | without a staging blob, promotion refuses with "No staging data. Run Refresh BQ first." |
| TieredCache.NotReadyAfterPromotion | app/bigquery_client.py:528-534 | right after a promotion (which stamps the GCS refresh time, line 498) stamped at or after the last warehouse refresh, staging is not ready |
| TieredCache.ReadyAfterRefresh | app/bigquery_client.py:528-534 | after a refresh (which stamps the BigQuery refresh time, line 472) later than the last promotion, staging is ready |
| TieredCache.NoBucketNoRefresh | app/bigquery_client.py:528-534 | without a bucket, staging is never ready (lines 530-531) and neither refresh (line 474) nor promotion (lines 486-487) succeeds |
| MasterTable.FilterRows | app/bigquery_client.py:312-325 | keeps exactly the rows matching every filter condition (inclusive date range, BC, cohort, status, table, plan list when non-empty), each row as often as in the input |
| MasterTable.FilterRowsAppend | app/bigquery_client.py:312-325 | filtering distributes over concatenation, so the input order is kept |
| QueryViews.DateBounds | app/bigquery_client.py:254-266 | an empty table has no bounds; otherwise the bounds are attained dates that enclose every row's date |
| QueryViews.Zip | app/filters.py:17 | pairs up to the shorter list, position by position |
| QueryViews.LoadPlanGroups | app/bigquery_client.py:270-295 | the pairs are strictly increasing in lexicographic order and are exactly the (app, plan) pairs of rows with the given status |
| QueryViews.LoadPivotData | app/bigquery_client.py:305-337 | one position per kept row, in order, with its app, plan and date; the metric columns are exactly the requested ones the table has, holding each kept row's value |
| QueryViews.Aggregate | app/bigquery_client.py:369-382 | the keys are exactly the (plan, date) keys of the rows, strictly increasing, each paired with its group's null-skipping sum |
| QueryViews.AggregateConservesTotal | app/bigquery_client.py:369-382 | the group sums add up to the total of all non-null values |
| QueryViews.AllNullGroupSumsToZero | app/bigquery_client.py:373-376 | a group whose values are all null sums to 0 |
| QueryViews.LoadChartData | app/bigquery_client.py:341-388 | no kept rows gives empty lists; otherwise the result is the aggregation of the kept rows, and it fails iff the metric column is missing |
| QueryViews.LoadAllChartData | app/bigquery_client.py:396-456 | one series per requested metric; for a metric the table has, it equals the single-metric result; a missing metric gets an empty series |
| Pivots.FormatMetricValue | app/pivots.py:27-45 | null stays null; percent metrics are multiplied by 100; every other format is unchanged |
| Pivots.PercentMetrics | app/pivots.py:32-39 | the configured percent metrics are exactly the four rate metrics |
| Pivots.DisplayMetricName | app/pivots.py:48-53 | a configured metric shows display name plus suffix; any other shows its own name |
| Pivots.DisplayNameExamples | app/pivots.py:48-53 | "Churn Rate (%)", "Net LTV ($)", and unconfigured names unchanged |
| Pivots.LastValue | app/pivots.py:88-100 | the lookup holds the value from the last row with that (app, plan, date), and null when there is no such row or no such metric column |
| Pivots.PlanCombos | app/pivots.py:77-85 | the distinct (app, plan) pairs of the input, strictly sorted by app then plan |
| Pivots.DateColumns | app/pivots.py:63 | the distinct input dates in strictly descending order |
| Pivots.Trend | app/pivots.py:113-123 | the trend holds exactly the non-null cell values, never more values than cells |
| Pivots.TrendAppend | app/pivots.py:115-123 | the trend reverses the cell order, so newest-first cells give an oldest-first trend |
| Pivots.TrendLength | app/pivots.py:123 | the trend has one value per non-null cell |
| Pivots.ComboRows | app/pivots.py:105-124 | one row per selected metric, in selection order |
| Pivots.GridRows | app/pivots.py:103-124 | there are |combos| × |selected metrics| rows |
| Pivots.GridRowAt | app/pivots.py:103-124 | the rows are combo-major: row i·m+j is combo i with metric j |
| Pivots.ProcessPivot | app/pivots.py:56-134 | missing or empty dates give no grid; otherwise the date columns are the distinct dates newest first, with |combos| × |metrics| rows of one cell per date |
| Pivots.PivotCell | app/pivots.py:103-121 | each grid cell is the formatted last value for its app, plan, date and metric, under the display name of that metric |
| Auth.Lookup | app/auth.py:30-31 | a user is found iff the id is in the database, and the result is that user's record |
| Auth.Remove | app/auth.py:196 | removes exactly the entry with that id; the result is a subsequence of the database, so the remaining users keep their order |
| Auth.RemoveAppend | app/auth.py:196 | deleting from a concatenation deletes from each part, so the order of the remaining entries is the insertion order |
| Auth.Authenticate | app/auth.py:22-40 | succeeds iff the username exists and the password matches; success copies id, role, name and dashboards into the session, and failure changes nothing |
| Auth.FindDashboard | app/auth.py:76 | finds the registry entry with that id, or reports that none exists |
| Auth.CanAccessDashboard | app/auth.py:69-84 | true iff a user is signed in, the dashboard exists and is enabled, and the user is admin, holds "all", or holds the id |
| Auth.KeepIds | app/auth.py:96-101 | keeps exactly the registry entries whose ids the user holds, in registry order |
| Auth.AccessibleDashboards | app/auth.py:87-101 | admin or "all" gets the whole registry, disabled entries included; others get the held entries in registry order; nobody signed in gets nothing |
| Auth.ListedIffAccessible | app/auth.py:69-101 | an enabled dashboard is listed iff it may be opened |
| Auth.DashboardAccessForUser | app/auth.py:104-116 | an unknown user gets an empty list; admin or "all" gets all; otherwise the stored list |
| Auth.ReadonlyUsersForDashboard | app/auth.py:119-130 | a name is listed iff some user with role "readonly" holding "all" or the id has it; at most one entry per user |
| Auth.ReadonlyUsersAppend | app/auth.py:124-128 | the list for a concatenation is the list of each part, in order: one entry per holder, in database order, duplicates kept |
| Auth.ReadonlyUsersSingle | app/auth.py:125-128 | one user contributes its name exactly when it is a readonly holder of the dashboard |
| Auth.AddUser | app/auth.py:143-156 | an existing id is refused with the database unchanged; otherwise one entry is added, holding the given list iff the role is "readonly" and "all" otherwise |
| Auth.Updated | app/auth.py:166-176 | empty password, name or role keep the old field; the role "admin" forces "all"; the list is written only when the new role is "readonly" |
| Auth.UpdateUser | app/auth.py:159-178 | an unknown id is refused with the database unchanged; otherwise only that user's record changes, as `Updated` states |
| Auth.DeleteUser | app/auth.py:181-197 | unknown ids, "admin" and the signed-in user are each refused with their own message; otherwise exactly that user is removed |
| Auth.AddThenDeleteRestores | app/auth.py:143-197 | deleting a just-added user restores the original state |
| Auth.EmptyUpdateKeepsDatabase | app/auth.py:159-178 | an update with no fields given leaves the state unchanged |
| Auth.NonReadonlyRoleGetsAll | app/auth.py:150-155 | a new non-read-only user can sign in and open every enabled dashboard |
| Auth.SeededViewer | app/config.py:146-159 | with the seeded records as configured (no session has edited them yet), "viewer" signs in and opens icarus_historical, but is never listed as a read-only user |
| Colors.ParseHex | app/colors.py:11 | `int(s, 16)` succeeds iff `s` is non-empty and all hex digits; two digits give 0..255 |
| Colors.HexToRgb | app/colors.py:8-11 | leading '#' characters are stripped and three two-digit fields are parsed; each component lies in 0..255 (because the model's `int(s, 16)` rejects signs), and a well-formed colour always parses |
| Colors.Channel | app/colors.py:17-19 | each component is clamped to 0..255 and truncated to an integer |
| Colors.RgbToHex | app/colors.py:14-20 | always '#' plus six lowercase hex digits, parsing back to the clamped components |
| Colors.RgbRoundTrip | app/colors.py:8-20 | formatting then parsing returns every in-range colour |
| Colors.HexRoundTrip | app/colors.py:8-20 | parsing then formatting returns every lowercase colour string |
| Colors.Lighten | app/colors.py:23-27 | fails iff the input does not parse; otherwise always a well-formed lowercase colour |
| Colors.Darken | app/colors.py:30-34 | fails iff the input does not parse; otherwise always a well-formed lowercase colour |
| Colors.LightenNeverDarker | app/colors.py:23-27 | with a factor in [0, 1], no component decreases |
| Colors.DarkenNeverLighter | app/colors.py:30-34 | with a factor in [0, 1], no component increases |
| Colors.AppFromPlan | app/colors.py:37-59 | no plan gives "Unknown"; every result is "Unknown" or a configured app; CT with NON-JP or NONJP gives CT-Non-JP; CT with JP and no NON gives CT-JP |
| Colors.AppFromPlanPrefixRule | app/colors.py:45-59 | without "CT" the upper-cased first two characters decide (an app in the palette, else "Unknown"); with "CT" and neither Japanese test passing, a name starting with "CT" is CT-Non-JP and any other falls back to the two-letter rule |
| Colors.PrefixExamples | app/colors.py:53-59 | "JF2788ST" is a JF plan; "zz1" is "Unknown" |
| Colors.CtExamples | app/colors.py:45-51 | the lower-case "ctjp1" is CT-JP; "CT_base" is CT-Non-JP through the prefix fallback |
| Colors.CtPrefixIsCtApp | app/colors.py:45-51 | a plan name starting with "CT" is always one of the two CT apps |
| Colors.BaseColor | app/colors.py:65 | every app's base colour, including the "#6B7280" fallback, is well formed |
| Colors.PlanColor | app/colors.py:62-76 | always a well-formed colour; indices ≡ 0 mod 10 give the base colour unchanged; the others give a lowercase shade |
| Colors.PlanColorPeriodic | app/colors.py:67-69 | the colour depends on the index only modulo 10 |
| Colors.OddShadeIsLighter | app/colors.py:67-72 | an odd index lightens: no channel is below the base colour's |
| Colors.EvenShadeIsDarker | app/colors.py:67-74 | an even index not ≡ 0 mod 10 darkens: no channel is above the base colour's |
| Colors.SortedGroup | app/colors.py:81-89 | an app's plans in sorted order, as a permutation of that app's entries |
| Colors.ShadeIndices | app/colors.py:91-94 | every plan gets the position of its last occurrence in its app's sorted group |
| Colors.BuildPlanColorMap | app/colors.py:79-96 | the keys are exactly the input plans, each coloured by its app and shade index |
| Colors.ChartColors | app/colors.py:99-102 | one colour per input plan, in input order, taken from the colour map |
| Colors.FirstPlanGetsBaseColor | app/colors.py:79-96 | a plan listed once that sorts first in its app gets its app's base colour |
| Filters.Group | app/filters.py:16-22 | the keys are the distinct apps in first-occurrence order |
| Filters.GroupPlans | app/filters.py:16-22 | each app's list is its distinct plans in first-occurrence order |
| Filters.PlansByApp | app/filters.py:9-22 | distinct keys; each list non-empty, duplicate-free and holding exactly the app's paired plans; every paired app is a key |
| Filters.PlansByAppIsFirstOccurrence | app/filters.py:9-22 | keys and lists follow first occurrence in the zipped input |
| Filters.HandleSelectAll | app/filters.py:25-30 | when the "All" key is present, every item key (created if needed) takes its value; otherwise nothing changes, and other keys never change |
| Filters.ApplyPresent | app/filters.py:216-233 | guarded writes keep the key set and leave unwritten keys unchanged |
| Filters.ResetFilters | app/filters.py:210-233 | the key set never changes; present metric boxes and "select all metrics" end ticked; keys no write names keep their value |
| Filters.ResetPlanBox | app/filters.py:216-224 | a present plan box ends ticked iff its plan is the default plan |
| Filters.ResetAllBox | app/filters.py:216-219 | a present app "All" box ends cleared |

## Left out

- Cloud storage and warehouse I/O (bucket lookup, Parquet load and save, the warehouse query). The bucket is a pair of maps, the warehouse answer is a parameter, and a failing upload is named in `failing`.
- Streamlit memoisation (`@st.cache_data`, `st.cache_data.clear()`), `log_debug`, `get_cache_info`, `format_refresh_timestamp` and ISO timestamp parsing. Timestamps are integers.
- Exceptions raised inside the storage client. The modelled exceptions are the warehouse failure, the missing metric column in the single-metric chart loader (`Result.Err`) and `int(…, 16)` rejecting a field in `hex_to_rgb` (`None`).
- Auto-refresh scheduling. No scheduler exists in the modelled code.
- `_create_filter_hash`, which uses MD5.
- Floating-point detail. Values are exact reals, so NaN handling in `format_metric_value` and float rounding in lighten and darken are not modelled.
- Colors.ParseHex: does not accept the sign, whitespace, underscore or `0x` forms, nor non-ASCII Unicode decimal digits, that Python's `int(s, 16)` also accepts. So `hex_to_rgb("#-f0000")`, which Python evaluates to (-15, 0, 0), is `None` here. The 0..255 bound in Colors.HexToRgb relies on this.
- Upper-casing covers ASCII letters only.
- The date header formatting (`strftime`) and the JSON encoding of the trend. Dates stay integers and the trend stays a list.
- A null plan name in the list given to `build_plan_color_map`. Sorting a mix of null and strings raises in Python, so the model takes strings only.
- A selected metric named like a key column (`App_Name`, `Plan_Name`, `Reporting_Date`). Such a name would read the key column as a metric.
- UI rendering: themes, charts, AgGrid, the pages, the admin panel and the render_* widgets.
- Session helpers with no logic of their own: `ROLE_DISPLAY`, `get_role_display`, `logout`, `is_authenticated`, `get_current_user`, `is_admin` and `get_all_users`.
- Auth.SeededViewer: holds only while no session has edited a seeded record. `DEFAULT_USERS.copy()` (app/auth.py:19) is shallow, so `update_user` on "admin" or "viewer" changes the record shared by every session of the process. The model gives each session its own copy (`INITIAL_AUTH`) and does not model that sharing.
- TieredCache.PromotionServesStaging: the model has one session around the in-process cache. That cache is shared by every session of the process, and a promotion clears only the promoting session's keys. FreshSessionRestoresOldTable states the consequence for a second session; sessions beyond two and their interleavings are not modelled.
- Auth.AddUser: requires the user list to hold each id once. A Python dict guarantees this by construction, and every operation here preserves it.
- Filters.ResetPlanBox: proved only for app names without '_' and other than "all". With other names two plan keys can coincide (`plan_a_b_c` from app `a` plan `b_c` and app `a_b` plan `c`), and a later write wins.
- Filters.ResetAllBox: proved only for app names without '_' and other than "all", for the same reason as ResetPlanBox.
