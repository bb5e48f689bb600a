/** The tiered master-data cache and its two-stage refresh protocol
    (app/bigquery_client.py). The in-process cache, the session copy and the
    durable bucket are explicit state; the warehouse result, the clock and
    the success of each bucket write are parameters of the operation that
    uses them. */
module TieredCache {
  import opened Common
  import opened Config
  import opened MasterTable

  // Names of the durable objects (the documented store layout).
  const ACTIVE_BLOB: string := "cache/active_data"
  const STAGING_BLOB: string := "cache/staging_data"
  const WAREHOUSE_STAMP: string := "cache/bq_last_refresh.txt"
  const ACTIVE_STAMP: string := "cache/gcs_last_refresh.txt"

  /** A stored snapshot, or an object that exists but cannot be decoded. */
  datatype Blob = Snapshot(table: Table) | Unreadable

  /** The durable bucket: data objects and refresh-metadata timestamps. */
  datatype Bucket = Bucket(blobs: map<string, Blob>, stamps: map<string, int>)

  /** `_app_cache`: the in-process copy and when it was loaded. */
  datatype AppCache = AppCache(data: Option<Table>, loadedAt: Option<int>)

  const EmptyAppCache: AppCache := AppCache(None, None)

  /** Where the session copy came from (`master_data_source`). */
  datatype Source = Gcs | BigQuery

  /** The per-session keys `master_data`, `master_data_time` and
      `master_data_source`; an absent key is `None`. */
  datatype Session = Session(data: Option<Table>, time: Option<int>, source: Option<Source>)

  /** Everything the cache reads and writes. `bucket` is `None` when the
      durable tier is not configured or not reachable. */
  datatype CacheState = CacheState(app: AppCache, session: Session, bucket: Option<Bucket>)

  /** A successful read: the table and the state after it. */
  datatype Loaded = Loaded(data: Table, state: CacheState)

  // ---------------------------------------------------------------------
  // Store adapter
  // ---------------------------------------------------------------------

  /** `load_parquet_from_gcs`: absent or undecodable objects read as none. */
  function LoadSnapshot(b: Bucket, name: string): (t: Option<Table>)
    ensures t.Some? <==> name in b.blobs && b.blobs[name].Snapshot?
    ensures t.Some? ==> b.blobs[name] == Snapshot(t.value)
  {
    if name in b.blobs && b.blobs[name].Snapshot? then Some(b.blobs[name].table) else None
  }

  /** `save_parquet_to_gcs`: an upload listed in `failing` leaves the bucket
      as it was (the source reports it with `False`, which callers ignore). */
  function SaveSnapshot(b: Bucket, name: string, t: Table, failing: set<string>): (b': Bucket)
    ensures b'.stamps == b.stamps
    ensures name !in failing ==> b'.blobs == b.blobs[name := Snapshot(t)]
    ensures name in failing ==> b' == b
  {
    if name in failing then b else b.(blobs := b.blobs[name := Snapshot(t)])
  }

  /** `set_metadata_timestamp` with the current time. */
  function SetStamp(b: Bucket, name: string, now: int, failing: set<string>): (b': Bucket)
    ensures b'.blobs == b.blobs
    ensures name !in failing ==> b'.stamps == b.stamps[name := now]
    ensures name in failing ==> b' == b
  {
    if name in failing then b else b.(stamps := b.stamps[name := now])
  }

  /** `get_metadata_timestamp`. */
  function GetStamp(b: Bucket, name: string): Option<int>
  {
    if name in b.stamps then Some(b.stamps[name]) else None
  }

  // ---------------------------------------------------------------------
  // Read path
  // ---------------------------------------------------------------------

  /** `_is_cache_valid`: both fields set and younger than the TTL (strictly). */
  predicate AppCacheValid(c: AppCache, now: int)
  {
    c.data.Some? && c.loadedAt.Some? && now - c.loadedAt.value < CACHE_TTL
  }

  /** The session tier's test: a table, a time, and an age below the TTL. */
  predicate SessionValid(s: Session, now: int)
  {
    s.data.Some? && s.time.Some? && now - s.time.value < CACHE_TTL
  }

  /** The table the durable tier would serve: the active snapshot, if the
      bucket is configured and the object decodes. No age check applies. */
  function ActiveSnapshot(s: CacheState): Option<Table>
  {
    if s.bucket.Some? then LoadSnapshot(s.bucket.value, ACTIVE_BLOB) else None
  }

  /** The warehouse tier's writes: active and staging snapshots, then both
      refresh timestamps. */
  function PublishFromWarehouse(b: Bucket, t: Table, now: int, failing: set<string>): Bucket
  {
    var b1 := SaveSnapshot(b, ACTIVE_BLOB, t, failing);
    var b2 := SaveSnapshot(b1, STAGING_BLOB, t, failing);
    var b3 := SetStamp(b2, WAREHOUSE_STAMP, now, failing);
    SetStamp(b3, ACTIVE_STAMP, now, failing)
  }

  /** `get_master_data`: memory, then session, then the active snapshot, then
      the warehouse. Only a warehouse failure is an error. */
  function GetMasterData(s: CacheState, now: int, warehouse: Result<Table>, failing: set<string>): (r: Result<Loaded>)
    ensures r.Ok? ==> r.value.state.app.data == Some(r.value.data) && AppCacheValid(r.value.state.app, now)
    ensures r.Err? <==> !AppCacheValid(s.app, now) && !SessionValid(s.session, now)
                        && ActiveSnapshot(s).None? && warehouse.Err?
    ensures r.Ok? ==> (r.value.state.bucket.Some? <==> s.bucket.Some?)
    ensures r.Ok? ==> || s.app.data == Some(r.value.data)
                       || s.session.data == Some(r.value.data)
                       || ActiveSnapshot(s) == Some(r.value.data)
                       || warehouse == Ok(r.value.data)
  {
    if AppCacheValid(s.app, now) then
      Ok(Loaded(s.app.data.value, s))
    else if SessionValid(s.session, now) then
      Ok(Loaded(s.session.data.value, s.(app := AppCache(s.session.data, s.session.time))))
    else if ActiveSnapshot(s).Some? then
      var t := ActiveSnapshot(s).value;
      Ok(Loaded(t, CacheState(AppCache(Some(t), Some(now)), Session(Some(t), Some(now), Some(Gcs)), s.bucket)))
    else
      match warehouse
      case Err(e) => Err(e)
      case Ok(t) =>
        var bucket := if s.bucket.Some? then Some(PublishFromWarehouse(s.bucket.value, t, now, failing)) else None;
        Ok(Loaded(t, CacheState(AppCache(Some(t), Some(now)), Session(Some(t), Some(now), Some(BigQuery)), bucket)))
  }

  // ---------------------------------------------------------------------
  // Two-stage refresh
  // ---------------------------------------------------------------------

  /** Two maps agree everywhere except possibly at `k`. */
  ghost predicate AgreeExcept<V>(m1: map<string, V>, m2: map<string, V>, k: string)
  {
    forall x :: x != k ==> (x in m1 <==> x in m2) && (x in m1 ==> m1[x] == m2[x])
  }

  /** `refresh_bq_to_staging`: pull from the warehouse, then write only the
      staging snapshot and the warehouse timestamp. */
  function RefreshToStaging(s: CacheState, now: int, warehouse: Result<Table>, failing: set<string>): (r: (Reply, CacheState))
    ensures r.1.app == s.app && r.1.session == s.session
    ensures r.1.bucket.Some? <==> s.bucket.Some?
    ensures r.1.bucket.Some? ==>
              && AgreeExcept(s.bucket.value.blobs, r.1.bucket.value.blobs, STAGING_BLOB)
              && AgreeExcept(s.bucket.value.stamps, r.1.bucket.value.stamps, WAREHOUSE_STAMP)
    ensures r.0.ok <==> warehouse.Ok? && s.bucket.Some?
    ensures !r.0.ok ==> r.1 == s
    ensures warehouse.Err? ==> r.0.message == "BQ refresh failed: " + warehouse.msg
    ensures warehouse.Ok? && s.bucket.None? ==> r.0.message == "GCS bucket not configured"
    ensures r.0.ok ==> r.0.message == "BQ refresh complete. Data saved to staging."
    ensures r.0.ok && STAGING_BLOB !in failing ==>
              STAGING_BLOB in r.1.bucket.value.blobs && r.1.bucket.value.blobs[STAGING_BLOB] == Snapshot(warehouse.value)
    ensures r.0.ok && WAREHOUSE_STAMP !in failing ==>
              WAREHOUSE_STAMP in r.1.bucket.value.stamps && r.1.bucket.value.stamps[WAREHOUSE_STAMP] == now
  {
    match warehouse
    case Err(e) => (Reply(false, "BQ refresh failed: " + e), s)
    case Ok(t) =>
      if s.bucket.None? then (Reply(false, "GCS bucket not configured"), s)
      else
        var b := SetStamp(SaveSnapshot(s.bucket.value, STAGING_BLOB, t, failing), WAREHOUSE_STAMP, now, failing);
        (Reply(true, "BQ refresh complete. Data saved to staging."), s.(bucket := Some(b)))
  }

  /** `refresh_gcs_from_staging`: copy staging to active, stamp the active
      timestamp, and drop the in-process and session copies. The result of
      the active write is not checked, so a failed upload still reports
      success. */
  function PromoteStaging(s: CacheState, now: int, failing: set<string>): (r: (Reply, CacheState))
    ensures s.bucket.None? ==> r == (Reply(false, "GCS bucket not configured"), s)
    ensures s.bucket.Some? && STAGING_BLOB !in s.bucket.value.blobs ==>
              r == (Reply(false, "No staging data. Run Refresh BQ first."), s)
    ensures s.bucket.Some? && STAGING_BLOB in s.bucket.value.blobs && s.bucket.value.blobs[STAGING_BLOB].Unreadable? ==>
              r == (Reply(false, "Failed to load staging data"), s)
    ensures r.0.ok <==> s.bucket.Some? && LoadSnapshot(s.bucket.value, STAGING_BLOB).Some?
    ensures r.0.ok ==>
              && r.0.message == "GCS refresh complete."
              && r.1.app == EmptyAppCache
              && r.1.session == Session(None, None, s.session.source)
              && r.1.bucket.Some?
              && AgreeExcept(s.bucket.value.blobs, r.1.bucket.value.blobs, ACTIVE_BLOB)
              && AgreeExcept(s.bucket.value.stamps, r.1.bucket.value.stamps, ACTIVE_STAMP)
    ensures r.0.ok && ACTIVE_BLOB !in failing ==>
              ACTIVE_BLOB in r.1.bucket.value.blobs && r.1.bucket.value.blobs[ACTIVE_BLOB] == s.bucket.value.blobs[STAGING_BLOB]
    ensures r.0.ok && ACTIVE_STAMP !in failing ==>
              ACTIVE_STAMP in r.1.bucket.value.stamps && r.1.bucket.value.stamps[ACTIVE_STAMP] == now
  {
    if s.bucket.None? then (Reply(false, "GCS bucket not configured"), s)
    else
      var b := s.bucket.value;
      if STAGING_BLOB !in b.blobs then (Reply(false, "No staging data. Run Refresh BQ first."), s)
      else
        match LoadSnapshot(b, STAGING_BLOB)
        case None => (Reply(false, "Failed to load staging data"), s)
        case Some(t) =>
          var b' := SetStamp(SaveSnapshot(b, ACTIVE_BLOB, t, failing), ACTIVE_STAMP, now, failing);
          (Reply(true, "GCS refresh complete."),
           CacheState(EmptyAppCache, Session(None, None, s.session.source), Some(b')))
  }

  /** `is_staging_ready`: a warehouse refresh newer than the last promotion. */
  predicate IsStagingReady(s: CacheState)
  {
    if s.bucket.None? then false
    else
      var bq := GetStamp(s.bucket.value, WAREHOUSE_STAMP);
      var gcs := GetStamp(s.bucket.value, ACTIVE_STAMP);
      bq.Some? && (gcs.None? || bq.value > gcs.value)
  }

  // ---------------------------------------------------------------------
  // Properties of the read path
  // ---------------------------------------------------------------------

  /** A valid in-process copy is returned and nothing changes. */
  lemma MemoryTierHit(s: CacheState, now: int, warehouse: Result<Table>, failing: set<string>)
    requires AppCacheValid(s.app, now)
    ensures GetMasterData(s, now, warehouse, failing) == Ok(Loaded(s.app.data.value, s))
  {
  }

  /** A valid session copy is returned and mirrored into the in-process
      cache with the session's own timestamp, not the current time. */
  lemma SessionTierHit(s: CacheState, now: int, warehouse: Result<Table>, failing: set<string>)
    requires !AppCacheValid(s.app, now) && SessionValid(s.session, now)
    ensures GetMasterData(s, now, warehouse, failing)
            == Ok(Loaded(s.session.data.value, s.(app := AppCache(s.session.data, s.session.time))))
  {
  }

  /** A decodable active snapshot is served whatever its age; both copies
      are set with the current time and the source becomes "GCS". */
  lemma DurableTierHit(s: CacheState, now: int, warehouse: Result<Table>, failing: set<string>, t: Table)
    requires !AppCacheValid(s.app, now) && !SessionValid(s.session, now)
    requires s.bucket.Some? && ACTIVE_BLOB in s.bucket.value.blobs && s.bucket.value.blobs[ACTIVE_BLOB] == Snapshot(t)
    ensures GetMasterData(s, now, warehouse, failing)
            == Ok(Loaded(t, CacheState(AppCache(Some(t), Some(now)), Session(Some(t), Some(now), Some(Gcs)), s.bucket)))
  {
  }

  /** On a miss everywhere, the warehouse table is returned and written to
      both snapshots, both timestamps are set, and the source becomes
      "BigQuery". */
  lemma WarehouseTierLoad(s: CacheState, now: int, t: Table, failing: set<string>)
    requires !AppCacheValid(s.app, now) && !SessionValid(s.session, now) && ActiveSnapshot(s).None?
    requires failing == {}
    ensures var r := GetMasterData(s, now, Ok(t), failing);
            && r.Ok? && r.value.data == t
            && r.value.state.session == Session(Some(t), Some(now), Some(BigQuery))
            && (s.bucket.Some? ==>
                  && r.value.state.bucket.value.blobs == s.bucket.value.blobs[ACTIVE_BLOB := Snapshot(t)][STAGING_BLOB := Snapshot(t)]
                  && r.value.state.bucket.value.stamps == s.bucket.value.stamps[WAREHOUSE_STAMP := now][ACTIVE_STAMP := now])
  {
  }

  /** After a read that missed both in-process tiers, every read within the
      TTL is served from memory: the same table, no state change, and no
      dependence on the warehouse or the bucket. */
  lemma {:induction false} RepeatReadWithinTtl(s: CacheState, t1: int, w1: Result<Table>, f1: set<string>,
                                               t2: int, w2: Result<Table>, f2: set<string>)
    requires GetMasterData(s, t1, w1, f1).Ok?
    requires !AppCacheValid(s.app, t1) && !SessionValid(s.session, t1)
    requires t1 <= t2 < t1 + CACHE_TTL
    ensures var r1 := GetMasterData(s, t1, w1, f1).value;
            GetMasterData(r1.state, t2, w2, f2) == Ok(r1)
  {
    var r1 := GetMasterData(s, t1, w1, f1).value;
    assert r1.state.app.loadedAt == Some(t1);
    MemoryTierHit(r1.state, t2, w2, f2);
  }

  // ---------------------------------------------------------------------
  // Properties of the refresh protocol
  // ---------------------------------------------------------------------

  /** Staging isolation: a warehouse refresh does not change what any later
      read returns (it writes only staging, which reads never consult). */
  lemma {:induction false} RefreshDoesNotAffectReads(s: CacheState, t1: int, w1: Result<Table>, f1: set<string>,
                                                     t2: int, w2: Result<Table>, f2: set<string>)
    ensures var s' := RefreshToStaging(s, t1, w1, f1).1;
            var before := GetMasterData(s, t2, w2, f2);
            var after := GetMasterData(s', t2, w2, f2);
            && (after.Ok? <==> before.Ok?)
            && (after.Ok? ==> after.value.data == before.value.data)
  {
    var s' := RefreshToStaging(s, t1, w1, f1).1;
    assert ActiveSnapshot(s') == ActiveSnapshot(s) by {
      if s.bucket.Some? {
        assert ACTIVE_BLOB != STAGING_BLOB;
      }
    }
  }

  /** A successful promotion whose active upload succeeds makes the next
      read return the staged table, whatever the warehouse would return. */
  lemma {:induction false} PromotionServesStaging(s: CacheState, t1: int, f1: set<string>,
                                                  t2: int, w2: Result<Table>, f2: set<string>)
    requires PromoteStaging(s, t1, f1).0.ok
    requires ACTIVE_BLOB !in f1
    ensures var s' := PromoteStaging(s, t1, f1).1;
            GetMasterData(s', t2, w2, f2).Ok?
            && Snapshot(GetMasterData(s', t2, w2, f2).value.data) == s.bucket.value.blobs[STAGING_BLOB]
  {
    var s' := PromoteStaging(s, t1, f1).1;
    assert !AppCacheValid(s'.app, t2) && !SessionValid(s'.session, t2);
    assert ActiveSnapshot(s').Some?;
  }

  /** The in-process cache is shared by every session of the process, but a
      promotion clears only the promoting session's keys. A second session
      whose copy is still fresh writes the pre-promotion table back into the
      shared cache on its next read, and the promoting session then reads
      that table, not the promoted one, until the copy's TTL runs out. */
  lemma {:induction false} FreshSessionRestoresOldTable(s: CacheState, t1: int, f1: set<string>, other: Session,
                                                        t2: int, w2: Result<Table>, f2: set<string>,
                                                        t3: int, w3: Result<Table>, f3: set<string>)
    requires PromoteStaging(s, t1, f1).0.ok
    requires SessionValid(other, t2)
    requires t3 - other.time.value < CACHE_TTL
    ensures var promoted := PromoteStaging(s, t1, f1).1;
            var second := GetMasterData(promoted.(session := other), t2, w2, f2);
            && second == Ok(Loaded(other.data.value, promoted.(session := other, app := AppCache(other.data, other.time))))
            && GetMasterData(promoted.(app := second.value.state.app), t3, w3, f3).Ok?
            && GetMasterData(promoted.(app := second.value.state.app), t3, w3, f3).value.data == other.data.value
  {
    var promoted := PromoteStaging(s, t1, f1).1;
    assert promoted.app == EmptyAppCache;
    SessionTierHit(promoted.(session := other), t2, w2, f2);
    MemoryTierHit(promoted.(app := AppCache(other.data, other.time)), t3, w3, f3);
  }

  /** The return value of the active upload is ignored: when it fails, the
      promotion still reports success and clears the caches, and the next
      read serves the previous active snapshot. */
  lemma {:induction false} PromotionIgnoresFailedUpload(s: CacheState, t1: int, f1: set<string>,
                                                        t2: int, w2: Result<Table>, f2: set<string>)
    requires s.bucket.Some? && LoadSnapshot(s.bucket.value, STAGING_BLOB).Some?
    requires LoadSnapshot(s.bucket.value, ACTIVE_BLOB).Some?
    requires ACTIVE_BLOB in f1
    ensures var r := PromoteStaging(s, t1, f1);
            && r.0 == Reply(true, "GCS refresh complete.")
            && r.1.bucket.value.blobs == s.bucket.value.blobs
            && GetMasterData(r.1, t2, w2, f2) == Ok(Loaded(LoadSnapshot(s.bucket.value, ACTIVE_BLOB).value,
                 CacheState(AppCache(LoadSnapshot(s.bucket.value, ACTIVE_BLOB), Some(t2)),
                            Session(LoadSnapshot(s.bucket.value, ACTIVE_BLOB), Some(t2), Some(Gcs)),
                            r.1.bucket)))
  {
  }

  /** Promotion with nothing staged fails and changes nothing. */
  lemma NothingToPromote(s: CacheState, now: int, failing: set<string>)
    requires s.bucket.Some? && STAGING_BLOB !in s.bucket.value.blobs
    ensures PromoteStaging(s, now, failing) == (Reply(false, "No staging data. Run Refresh BQ first."), s)
  {
  }

  /** Staging is not ready right after a promotion stamped no earlier than
      the last warehouse refresh. */
  lemma NotReadyAfterPromotion(s: CacheState, now: int, failing: set<string>)
    requires PromoteStaging(s, now, failing).0.ok
    requires ACTIVE_STAMP !in failing
    requires WAREHOUSE_STAMP in s.bucket.value.stamps ==> s.bucket.value.stamps[WAREHOUSE_STAMP] <= now
    ensures !IsStagingReady(PromoteStaging(s, now, failing).1)
  {
    assert WAREHOUSE_STAMP != ACTIVE_STAMP;
  }

  /** Staging is ready right after a successful warehouse refresh stamped
      later than the last promotion. */
  lemma ReadyAfterRefresh(s: CacheState, now: int, t: Table, failing: set<string>)
    requires s.bucket.Some?
    requires WAREHOUSE_STAMP !in failing
    requires ACTIVE_STAMP in s.bucket.value.stamps ==> s.bucket.value.stamps[ACTIVE_STAMP] < now
    ensures IsStagingReady(RefreshToStaging(s, now, Ok(t), failing).1)
  {
    assert WAREHOUSE_STAMP != ACTIVE_STAMP;
  }

  /** Without a bucket nothing is ever ready and neither refresh succeeds. */
  lemma NoBucketNoRefresh(s: CacheState, now: int, warehouse: Result<Table>, failing: set<string>)
    requires s.bucket.None?
    ensures !IsStagingReady(s)
    ensures !RefreshToStaging(s, now, warehouse, failing).0.ok
    ensures PromoteStaging(s, now, failing) == (Reply(false, "GCS bucket not configured"), s)
  {
  }
}
