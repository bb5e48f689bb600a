/** The user database and dashboard access control (app/auth.py). The
    database keeps insertion order (a Python dict), so it is an association
    list whose keys are pairwise distinct. */
module Auth {
  import opened Common
  import opened Config

  /** A user's dashboards: the literal `"all"` or a list of dashboard ids. */
  datatype Access = All | Only(ids: seq<string>)

  datatype UserRecord = UserRecord(password: string, role: string, name: string, dashboards: Access)

  type UsersDb = seq<(string, UserRecord)>

  /** The signed-in user as copied into the session by `authenticate`. */
  datatype SessionUser = SessionUser(username: string, role: string, name: string, dashboards: Access)

  /** The session's authentication keys: the flag, the user, the database. */
  datatype AuthState = AuthState(authenticated: bool, user: Option<SessionUser>, db: UsersDb)

  /** The seeded accounts. The second has role "viewer", which no access
      check treats as "readonly". */
  const DEFAULT_USERS: UsersDb := [
    ("admin", UserRecord("admin123", "admin", "Administrator", All)),
    ("viewer", UserRecord("viewer123", "viewer", "Viewer User", Only(["icarus_historical"])))
  ]

  /** The state `init_auth` creates in a fresh session. */
  const INITIAL_AUTH: AuthState := AuthState(false, None, DEFAULT_USERS)

  // ---------------------------------------------------------------------
  // The database as a dictionary
  // ---------------------------------------------------------------------

  /** Dictionary keys are unique. */
  predicate Keyed(db: UsersDb)
  {
    forall i, j :: 0 <= i < j < |db| ==> db[i].0 != db[j].0
  }

  predicate HasId(db: UsersDb, id: string)
  {
    exists i :: 0 <= i < |db| && db[i].0 == id
  }

  /** The keys in insertion order. */
  function Keys(db: UsersDb): seq<string>
  {
    seq(|db|, i requires 0 <= i < |db| => db[i].0)
  }

  /** `users[id]`, or None when the key is absent. */
  function Lookup(db: UsersDb, id: string): (r: Option<UserRecord>)
    ensures r.Some? <==> HasId(db, id)
    ensures Keyed(db) ==> forall i :: 0 <= i < |db| && db[i].0 == id ==> r == Some(db[i].1)
  {
    if |db| == 0 then None
    else if db[0].0 == id then Some(db[0].1)
    else
      var r := Lookup(db[1..], id);
      assert HasId(db, id) ==> HasId(db[1..], id) by {
        if HasId(db, id) {
          var i :| 0 <= i < |db| && db[i].0 == id;
          assert db[1..][i - 1] == db[i];
        }
      }
      assert Keyed(db) ==> Keyed(db[1..]) by {
        if Keyed(db) {
          forall i, j | 0 <= i < j < |db| - 1 ensures db[1..][i].0 != db[1..][j].0 {
            assert db[1..][i] == db[i + 1] && db[1..][j] == db[j + 1];
          }
        }
      }
      assert forall i :: 1 <= i < |db| ==> db[1..][i - 1] == db[i];
      r
  }

  /** The database with the record under `id` replaced, in place. */
  function Replace(db: UsersDb, id: string, rec: UserRecord): (r: UsersDb)
    ensures |r| == |db| && Keys(r) == Keys(db)
    ensures forall i :: 0 <= i < |db| ==> r[i] == if db[i].0 == id then (id, rec) else db[i]
  {
    seq(|db|, i requires 0 <= i < |db| => if db[i].0 == id then (id, rec) else db[i])
  }

  /** Replacing a record keeps the ids distinct and changes only the lookup
      of that id. */
  lemma ReplaceLookup(db: UsersDb, id: string, rec: UserRecord, k: string)
    requires Keyed(db)
    ensures Keyed(Replace(db, id, rec))
    ensures Lookup(Replace(db, id, rec), k) == if k == id && HasId(db, id) then Some(rec) else Lookup(db, k)
  {
    var r := Replace(db, id, rec);
    assert forall i :: 0 <= i < |db| ==> r[i].0 == db[i].0;
    if HasId(db, k) {
      var i :| 0 <= i < |db| && db[i].0 == k;
      assert r[i].0 == k;
    } else {
      assert !HasId(r, k);
    }
  }

  /** `del users[id]`: every other entry kept, in order. */
  function Remove(db: UsersDb, id: string): (r: UsersDb)
    ensures forall e :: e in r <==> e in db && e.0 != id
    ensures !HasId(r, id)
    ensures Keyed(db) ==> Keyed(r)
    ensures IsSubseq(r, db)
  {
    WithoutMembers(db, id);
    WithoutSubseq(db, id);
    if Keyed(db) then WithoutKeyed(db, id); Without(db, id) else Without(db, id)
  }

  /** The entries whose id differs from `id`, in order. */
  function Without(db: UsersDb, id: string): UsersDb
  {
    if |db| == 0 then []
    else (if db[0].0 == id then [] else [db[0]]) + Without(db[1..], id)
  }

  lemma {:induction false} WithoutMembers(db: UsersDb, id: string)
    ensures forall e :: e in Without(db, id) <==> e in db && e.0 != id
    ensures !HasId(Without(db, id), id)
    decreases |db|
  {
    if |db| > 0 {
      WithoutMembers(db[1..], id);
      var r := Without(db, id);
      assert forall e :: e in db <==> e == db[0] || e in db[1..];
      assert !HasId(r, id) by {
        forall i | 0 <= i < |r| ensures r[i].0 != id {
          assert r[i] in r;
        }
      }
    }
  }

  lemma {:induction false} WithoutKeyed(db: UsersDb, id: string)
    requires Keyed(db)
    ensures Keyed(Without(db, id))
    decreases |db|
  {
    if |db| > 0 {
      assert Keyed(db[1..]) by {
        forall i, j | 0 <= i < j < |db| - 1 ensures db[1..][i].0 != db[1..][j].0 {
          assert db[1..][i] == db[i + 1] && db[1..][j] == db[j + 1];
        }
      }
      WithoutKeyed(db[1..], id);
      WithoutMembers(db[1..], id);
      var rest := Without(db[1..], id);
      forall e | e in rest ensures e.0 != db[0].0 {
        var k :| 0 <= k < |db[1..]| && db[1..][k] == e;
        assert db[k + 1] == e;
      }
    }
  }

  lemma {:induction false} WithoutSubseq(db: UsersDb, id: string)
    ensures IsSubseq(Without(db, id), db)
    decreases |db|
  {
    if |db| > 0 {
      WithoutSubseq(db[1..], id);
      var rest := Without(db[1..], id);
      var r := Without(db, id);
      if db[0].0 == id {
        assert r == rest;
      } else {
        assert r[0] == db[0] && r[1..] == rest;
      }
    }
  }

  // ---------------------------------------------------------------------
  // Sign-in
  // ---------------------------------------------------------------------

  /** `authenticate`: succeeds iff the user exists and the password matches;
      the session user is then a copy of the stored record. */
  function Authenticate(s: AuthState, username: string, password: string): (r: (bool, AuthState))
    ensures r.0 <==> HasId(s.db, username) && Lookup(s.db, username).value.password == password
    ensures r.0 ==> var rec := Lookup(s.db, username).value;
                    r.1 == AuthState(true, Some(SessionUser(username, rec.role, rec.name, rec.dashboards)), s.db)
    ensures !r.0 ==> r.1 == s
  {
    match Lookup(s.db, username)
    case None => (false, s)
    case Some(rec) =>
      if rec.password == password then
        (true, s.(authenticated := true, user := Some(SessionUser(username, rec.role, rec.name, rec.dashboards))))
      else (false, s)
  }

  // ---------------------------------------------------------------------
  // Access control
  // ---------------------------------------------------------------------

  /** The first registry entry with this id (`next(...)`). */
  function FindDashboard(ds: seq<Dashboard>, id: string): (r: Option<Dashboard>)
    ensures r.Some? ==> r.value in ds && r.value.id == id
    ensures r.None? ==> forall d :: d in ds ==> d.id != id
    ensures (forall i, j :: 0 <= i < j < |ds| ==> ds[i].id != ds[j].id) ==>
              forall d :: d in ds && d.id == id ==> r == Some(d)
  {
    if |ds| == 0 then None
    else if ds[0].id == id then Some(ds[0])
    else
      assert forall d :: d in ds ==> d == ds[0] || d in ds[1..];
      FindDashboard(ds[1..], id)
  }

  /** The registry ids are distinct. */
  lemma DashboardIdsDistinct()
    ensures forall i, j :: 0 <= i < j < |DASHBOARDS| ==> DASHBOARDS[i].id != DASHBOARDS[j].id
  {
  }

  /** Admins and `"all"` users see every dashboard. */
  predicate FullAccess(role: string, dashboards: Access)
  {
    role == "admin" || dashboards.All?
  }

  /** `can_access_dashboard` for the session's current user. */
  function CanAccessDashboard(user: Option<SessionUser>, id: string): (ok: bool)
    ensures ok <==> && user.Some?
                    && (exists d :: d in DASHBOARDS && d.id == id && d.enabled)
                    && (FullAccess(user.value.role, user.value.dashboards) || id in user.value.dashboards.ids)
  {
    DashboardIdsDistinct();
    if user.None? then false
    else
      var dashboard := FindDashboard(DASHBOARDS, id);
      if dashboard.None? || !dashboard.value.enabled then false
      else if FullAccess(user.value.role, user.value.dashboards) then true
      else id in user.value.dashboards.ids
  }

  /** The registry entries whose id is in `ids`, in registry order. */
  function KeepIds(ds: seq<Dashboard>, ids: seq<string>): (r: seq<Dashboard>)
    ensures forall d :: d in r <==> d in ds && d.id in ids
    ensures IsSubseq(r, ds)
  {
    if |ds| == 0 then []
    else
      var rest := KeepIds(ds[1..], ids);
      assert forall d :: d in ds <==> d == ds[0] || d in ds[1..];
      if ds[0].id in ids then
        var r := [ds[0]] + rest;
        assert r[1..] == rest;
        r
      else rest
  }

  /** `get_accessible_dashboards`: the whole registry (disabled entries
      included) for full access, else the held entries in registry order. */
  function AccessibleDashboards(user: Option<SessionUser>): (r: seq<Dashboard>)
    ensures user.None? ==> r == []
    ensures user.Some? && FullAccess(user.value.role, user.value.dashboards) ==> r == DASHBOARDS
    ensures user.Some? && !FullAccess(user.value.role, user.value.dashboards) ==>
              IsSubseq(r, DASHBOARDS) && forall d :: d in r <==> d in DASHBOARDS && d.id in user.value.dashboards.ids
  {
    if user.None? then []
    else if FullAccess(user.value.role, user.value.dashboards) then DASHBOARDS
    else KeepIds(DASHBOARDS, user.value.dashboards.ids)
  }

  /** The two access views agree on enabled dashboards: an enabled dashboard
      is listed iff the user can open it. */
  lemma ListedIffAccessible(user: Option<SessionUser>, d: Dashboard)
    requires d in DASHBOARDS && d.enabled
    ensures d in AccessibleDashboards(user) <==> CanAccessDashboard(user, d.id)
  {
  }

  /** `get_dashboard_access_for_user`: an unknown user has no dashboards. */
  function DashboardAccessForUser(db: UsersDb, username: string): (r: Access)
    ensures !HasId(db, username) ==> r == Only([])
    ensures HasId(db, username) ==>
              var rec := Lookup(db, username).value;
              (r.All? <==> FullAccess(rec.role, rec.dashboards)) && (r.Only? ==> r == rec.dashboards)
  {
    match Lookup(db, username)
    case None => Only([])
    case Some(rec) => if FullAccess(rec.role, rec.dashboards) then All else rec.dashboards
  }

  /** A readonly user holding this dashboard (or `"all"`). */
  predicate ReadonlyHolder(rec: UserRecord, id: string)
  {
    rec.role == "readonly" && (rec.dashboards.All? || id in rec.dashboards.ids)
  }

  /** `get_readonly_users_for_dashboard`: the names of the readonly holders,
      in database order. */
  function ReadonlyUsersForDashboard(db: UsersDb, id: string): (names: seq<string>)
    ensures |names| <= |db|
    ensures forall n :: n in names <==> exists i :: 0 <= i < |db| && ReadonlyHolder(db[i].1, id) && db[i].1.name == n
  {
    if |db| == 0 then []
    else
      var rest := ReadonlyUsersForDashboard(db[1..], id);
      assert forall i :: 1 <= i < |db| ==> db[1..][i - 1] == db[i];
      if ReadonlyHolder(db[0].1, id) then [db[0].1.name] + rest else rest
  }

  /** The readonly names of a concatenation are those of each part, in
      order: the list has one entry per holder, in database order. */
  lemma {:induction false} ReadonlyUsersAppend(a: UsersDb, b: UsersDb, id: string)
    ensures ReadonlyUsersForDashboard(a + b, id) == ReadonlyUsersForDashboard(a, id) + ReadonlyUsersForDashboard(b, id)
    decreases |a|
  {
    if |a| == 0 {
      assert a + b == b;
    } else {
      assert (a + b)[0] == a[0];
      assert (a + b)[1..] == a[1..] + b;
      ReadonlyUsersAppend(a[1..], b, id);
    }
  }

  /** A one-entry database lists its user exactly when it is a readonly
      holder of the dashboard. */
  lemma ReadonlyUsersSingle(e: (string, UserRecord), id: string)
    ensures ReadonlyUsersForDashboard([e], id) == if ReadonlyHolder(e.1, id) then [e.1.name] else []
  {
    assert [e][1..] == [];
  }

  // ---------------------------------------------------------------------
  // Administration
  // ---------------------------------------------------------------------

  /** Python truthiness of an optional string argument. */
  predicate Given(o: Option<string>)
  {
    o.Some? && |o.value| > 0
  }

  /** `add_user`: refuses an existing id; otherwise appends one entry whose
      dashboards are the given list only for role "readonly". */
  function AddUser(s: AuthState, id: string, password: string, role: string, name: string, dashboards: seq<string>): (r: (Reply, AuthState))
    requires Keyed(s.db)
    ensures HasId(s.db, id) ==> r == (Reply(false, "User ID already exists"), s)
    ensures !HasId(s.db, id) ==> r.0 == Reply(true, "User created successfully")
    ensures !HasId(s.db, id) ==>
              Lookup(r.1.db, id) == Some(UserRecord(password, role, name, if role == "readonly" then Only(dashboards) else All))
    ensures forall k :: k != id ==> Lookup(r.1.db, k) == Lookup(s.db, k)
    ensures Keyed(r.1.db) && r.1.user == s.user && r.1.authenticated == s.authenticated
  {
    if HasId(s.db, id) then (Reply(false, "User ID already exists"), s)
    else
      var rec := UserRecord(password, role, name, if role == "readonly" then Only(dashboards) else All);
      var db := s.db + [(id, rec)];
      assert forall i :: 0 <= i < |s.db| ==> db[i] == s.db[i];
      assert Keyed(db);
      assert db[|s.db|] == (id, rec);
      (Reply(true, "User created successfully"), s.(db := db))
  }

  /** The record `update_user` writes for an existing user. */
  function Updated(rec: UserRecord, password: Option<string>, role: Option<string>, name: Option<string>,
                   dashboards: Option<seq<string>>): (u: UserRecord)
    ensures u.password == if Given(password) then password.value else rec.password
    ensures u.role == if Given(role) then role.value else rec.role
    ensures u.name == if Given(name) then name.value else rec.name
    ensures dashboards.Some? && u.role == "readonly" ==> u.dashboards == Only(dashboards.value)
    ensures !(dashboards.Some? && u.role == "readonly") && Given(role) && role.value == "admin" ==> u.dashboards == All
    ensures !(dashboards.Some? && u.role == "readonly") && !(Given(role) && role.value == "admin") ==>
              u.dashboards == rec.dashboards
  {
    var r1 := if Given(password) then rec.(password := password.value) else rec;
    var r2 := if Given(role) then
                (if role.value == "admin" then r1.(role := role.value, dashboards := All) else r1.(role := role.value))
              else r1;
    var r3 := if Given(name) then r2.(name := name.value) else r2;
    if dashboards.Some? && r3.role == "readonly" then r3.(dashboards := Only(dashboards.value)) else r3
  }

  /** `update_user`: refuses an unknown id; otherwise rewrites that record in
      place and nothing else. */
  function UpdateUser(s: AuthState, id: string, password: Option<string>, role: Option<string>,
                      name: Option<string>, dashboards: Option<seq<string>>): (r: (Reply, AuthState))
    requires Keyed(s.db)
    ensures !HasId(s.db, id) ==> r == (Reply(false, "User not found"), s)
    ensures HasId(s.db, id) ==> r.0 == Reply(true, "User updated successfully")
    ensures HasId(s.db, id) ==>
              Lookup(r.1.db, id) == Some(Updated(Lookup(s.db, id).value, password, role, name, dashboards))
    ensures forall k :: k != id ==> Lookup(r.1.db, k) == Lookup(s.db, k)
    ensures Keyed(r.1.db) && Keys(r.1.db) == Keys(s.db)
    ensures r.1.user == s.user && r.1.authenticated == s.authenticated
  {
    match Lookup(s.db, id)
    case None => (Reply(false, "User not found"), s)
    case Some(rec) =>
      var u := Updated(rec, password, role, name, dashboards);
      var db := Replace(s.db, id, u);
      assert forall k :: Lookup(db, k) == if k == id then Some(u) else Lookup(s.db, k) by {
        forall k ensures Lookup(db, k) == if k == id then Some(u) else Lookup(s.db, k) {
          ReplaceLookup(s.db, id, u, k);
        }
      }
      ReplaceLookup(s.db, id, u, id);
      (Reply(true, "User updated successfully"), s.(db := db))
  }

  /** Removing one id leaves the lookup of every other id unchanged. */
  lemma RemoveLookup(db: UsersDb, id: string, k: string)
    requires Keyed(db) && k != id
    ensures Lookup(Remove(db, id), k) == Lookup(db, k)
  {
    var r := Remove(db, id);
    if HasId(db, k) {
      var i :| 0 <= i < |db| && db[i].0 == k;
      assert db[i] in r;
      var j :| 0 <= j < |r| && r[j] == db[i];
    } else {
      assert !HasId(r, k) by {
        forall j | 0 <= j < |r| ensures r[j].0 != k {
          assert r[j] in r;
        }
      }
    }
  }

  /** `delete_user`: refuses an unknown id, the "admin" account and the
      signed-in user, each with its own message; otherwise removes exactly
      that entry. */
  function DeleteUser(s: AuthState, id: string): (r: (Reply, AuthState))
    requires Keyed(s.db)
    ensures !HasId(s.db, id) ==> r == (Reply(false, "User not found"), s)
    ensures HasId(s.db, id) && id == "admin" ==> r == (Reply(false, "Cannot delete admin user"), s)
    ensures HasId(s.db, id) && id != "admin" && s.user.Some? && s.user.value.username == id ==>
              r == (Reply(false, "Cannot delete yourself"), s)
    ensures r.0.ok <==> HasId(s.db, id) && id != "admin" && !(s.user.Some? && s.user.value.username == id)
    ensures r.0.ok ==> r.0.message == "User deleted successfully" && !HasId(r.1.db, id)
    ensures forall k :: k != id ==> Lookup(r.1.db, k) == Lookup(s.db, k)
    ensures Keyed(r.1.db) && r.1.user == s.user && r.1.authenticated == s.authenticated
  {
    if !HasId(s.db, id) then (Reply(false, "User not found"), s)
    else if id == "admin" then (Reply(false, "Cannot delete admin user"), s)
    else if s.user.Some? && s.user.value.username == id then (Reply(false, "Cannot delete yourself"), s)
    else
      var db := Remove(s.db, id);
      assert forall k :: k != id ==> Lookup(db, k) == Lookup(s.db, k) by {
        forall k | k != id ensures Lookup(db, k) == Lookup(s.db, k) {
          RemoveLookup(s.db, id, k);
        }
      }
      (Reply(true, "User deleted successfully"), s.(db := db))
  }

  // ---------------------------------------------------------------------
  // Properties
  // ---------------------------------------------------------------------

  /** Removing the entry just appended gives back the original database. */
  lemma {:induction false} RemoveAppended(db: UsersDb, e: (string, UserRecord))
    requires !HasId(db, e.0)
    ensures Remove(db + [e], e.0) == db
    decreases |db|
  {
    if |db| == 0 {
      RemoveStep(db + [e], e.0);
    } else {
      RemoveStep(db + [e], e.0);
      assert (db + [e])[1..] == db[1..] + [e];
      NoIdInTail(db, e.0);
      RemoveAppended(db[1..], e);
      assert db == [db[0]] + db[1..];
    }
  }

  /** Deleting from a concatenation deletes from each part, keeping the
      order of the entries that stay. */
  lemma RemoveAppend(a: UsersDb, b: UsersDb, id: string)
    ensures Remove(a + b, id) == Remove(a, id) + Remove(b, id)
  {
    WithoutAppend(a, b, id);
  }

  lemma {:induction false} WithoutAppend(a: UsersDb, b: UsersDb, id: string)
    ensures Without(a + b, id) == Without(a, id) + Without(b, id)
    decreases |a|
  {
    if |a| == 0 {
      assert a + b == b;
    } else {
      assert (a + b)[0] == a[0] && (a + b)[1..] == a[1..] + b;
      WithoutAppend(a[1..], b, id);
      var head := if a[0].0 == id then [] else [a[0]];
      assert head + (Without(a[1..], id) + Without(b, id)) == (head + Without(a[1..], id)) + Without(b, id);
    }
  }

  /** One unfolding of `Remove`. */
  lemma RemoveStep(db: UsersDb, id: string)
    requires |db| > 0
    ensures Remove(db, id) == (if db[0].0 == id then [] else [db[0]]) + Remove(db[1..], id)
  {
  }

  lemma NoIdInTail(db: UsersDb, id: string)
    requires |db| > 0 && !HasId(db, id)
    ensures !HasId(db[1..], id)
  {
    forall i | 0 <= i < |db| - 1 ensures db[1..][i].0 != id {
      assert db[1..][i] == db[i + 1];
    }
  }

  /** Adding a user and then deleting it restores the database. */
  lemma AddThenDeleteRestores(s: AuthState, id: string, password: string, role: string, name: string, dashboards: seq<string>)
    requires Keyed(s.db) && !HasId(s.db, id) && id != "admin"
    requires s.user.None? || s.user.value.username != id
    ensures var added := AddUser(s, id, password, role, name, dashboards).1;
            DeleteUser(added, id) == (Reply(true, "User deleted successfully"), s)
  {
    var rec := UserRecord(password, role, name, if role == "readonly" then Only(dashboards) else All);
    RemoveAppended(s.db, (id, rec));
  }

  /** An update with no arguments leaves the database as it was. */
  lemma EmptyUpdateKeepsDatabase(s: AuthState, id: string)
    requires Keyed(s.db) && HasId(s.db, id)
    ensures UpdateUser(s, id, None, None, None, None).1 == s
  {
    var db := UpdateUser(s, id, None, None, None, None).1.db;
    assert forall i :: 0 <= i < |s.db| ==> db[i] == s.db[i];
  }

  /** A user added with any role other than "readonly" (the seeded
      "viewer" role included) gets `"all"` and can open every enabled
      dashboard. */
  lemma NonReadonlyRoleGetsAll(s: AuthState, id: string, password: string, role: string, name: string,
                               dashboards: seq<string>, d: Dashboard)
    requires Keyed(s.db) && !HasId(s.db, id) && role != "readonly"
    requires d in DASHBOARDS && d.enabled
    ensures var s' := AddUser(s, id, password, role, name, dashboards).1;
            var (ok, signedIn) := Authenticate(s', id, password);
            ok && CanAccessDashboard(signedIn.user, d.id)
  {
  }

  /** The seeded viewer: signs in with its password, opens the enabled
      dashboard through its list, and is never listed as a readonly user. */
  lemma SeededViewer(id: string)
    ensures Keyed(DEFAULT_USERS)
    ensures Authenticate(INITIAL_AUTH, "viewer", "viewer123").0
    ensures CanAccessDashboard(Authenticate(INITIAL_AUTH, "viewer", "viewer123").1.user, "icarus_historical")
    ensures DashboardAccessForUser(DEFAULT_USERS, "viewer") == Only(["icarus_historical"])
    ensures ReadonlyUsersForDashboard(DEFAULT_USERS, id) == []
  {
    assert DEFAULT_USERS[1].0 == "viewer";
  }
}
