/**
 * Who may do what after the provisioning scripts have run, in the names Postgres knows (internal/cli/database.go): what
 * a request may become, what a tenant's two roles are, who may create in `public`.
 */
module Rights {
  import opened Text
  import opened Grants
  import opened Isolation
  import opened Reprovision

  // ---- What a request may become ----

  /** The application's two lower roles are members of nothing, and the owner's of those two at most. */
  ghost predicate NoOtherMemberships(members: set<(string, string)>) {
    forall m, r :: (m, r) in members ==>
      m != "mksrv_app" && m != "mksrv_anon" && (m == "mksrv_owner" ==> r == "mksrv_app" || r == "mksrv_anon")
  }

  lemma BucketsAreDistinct()
    ensures WEB != APP && WEB != ANON && WEB != OWNER && OWNER != APP && OWNER != ANON && APP != ANON
  {
    assert |WEB| == 9 && |APP| == 9 && |ANON| == 10 && |OWNER| == 11 && WEB[8] == 'b' && APP[8] == 'p';
  }

  function GrantsOf(script: seq<Statement>): set<(string, string)> {
    set q | q in script && q.GrantRole? :: (q.member, q.role)
  }

  lemma StatementLinks(s: Session, q: Statement)
    requires Exec(s, q).Some?
    ensures Exec(s, q).value.cluster.members
         == s.cluster.members + if q.GrantRole? then {(q.member, q.role)} else {}
  {
    if !q.GrantRole? { assert s.cluster.members + {} == s.cluster.members; }
  }

  lemma {:induction false} ScriptLinks(s: Session, script: seq<Statement>)
    requires ExecAll(s, script).Some?
    ensures ExecAll(s, script).value.cluster.members == s.cluster.members + GrantsOf(script)
    decreases |script|
  {
    if script == [] {
      assert GrantsOf(script) == {};
    } else {
      StatementLinks(s, script[0]);
      ScriptLinks(Exec(s, script[0]).value, script[1..]);
      GrantsStep(script);
    }
  }

  lemma GrantsStep(script: seq<Statement>)
    requires script != []
    ensures GrantsOf(script)
         == (if script[0].GrantRole? then {(script[0].member, script[0].role)} else {}) + GrantsOf(script[1..])
  {
    assert script == [script[0]] + script[1..];
  }

  lemma {:induction false} GrantsInTwo(a: seq<Statement>, b: seq<Statement>)
    ensures GrantsOf(a + b) == GrantsOf(a) + GrantsOf(b)
  {
    assert forall q :: q in a + b <==> q in a || q in b;
  }

  lemma NoGrants(script: seq<Statement>)
    requires forall i :: 0 <= i < |script| ==> !script[i].GrantRole?
    ensures GrantsOf(script) == {}
  {
  }

  lemma GrantsOfNine(g: seq<Statement>, owner: string, app: string, anon: string, web: string)
    requires |g| == 9 && forall i :: 0 <= i < 4 ==> !g[i].GrantRole?
    requires g[4..] == [GrantRole(owner, web), GrantRole(app, web), GrantRole(anon, web),
                        GrantRole(app, owner), GrantRole(anon, owner)]
    ensures GrantsOf(g) == {(web, owner), (web, app), (web, anon), (owner, app), (owner, anon)}
  {
    var five := {(web, owner), (web, app), (web, anon), (owner, app), (owner, anon)};
    assert g == g[..4] + g[4..];
    GrantsInTwo(g[..4], g[4..]);
    NoGrants(g[..4]);
    forall x ensures x in GrantsOf(g[4..]) <==> x in five {
      assert g[4..][0] in g[4..] && g[4..][1] in g[4..] && g[4..][2] in g[4..] && g[4..][3] in g[4..];
      assert g[4..][4] in g[4..];
    }
  }

  /** Who is made a member of what by the jobs of a run. */
  ghost function Links(jobs: seq<Job>): set<(string, string)> {
    if jobs == [] then {}
    else
      (match jobs[0]
       case Global => {("mksrv_web", "mksrv_owner"), ("mksrv_web", "mksrv_app"), ("mksrv_web", "mksrv_anon"),
                       ("mksrv_owner", "mksrv_app"), ("mksrv_owner", "mksrv_anon")}
       case Provision(id, _, _, _) => {(id + "_login", "mksrv_owner"), (id + "_auth", "mksrv_web")})
      + Links(jobs[1..])
  }

  lemma RolesGrant(id: string, password: string, authPassword: string, t: Tenant)
    ensures GrantsOf(RolesPart(id, password, authPassword, t)) == {(Login(id), OWNER), (Auth(id), WEB)}
  {
    var roles := RolesPart(id, password, authPassword, t);
    assert roles[2] in roles && roles[6] in roles;
  }

  lemma RestGrantsNone(id: string, t: Tenant)
    ensures GrantsOf(RestPart(id, t)) == {}
  {
    var rest := RestPart(id, t);
    forall i | 0 <= i < |rest| ensures !rest[i].GrantRole? {
    }
    NoGrants(rest);
  }

  lemma JobLinks(job: Job)
    ensures GrantsOf(JobScript(job)) == Links([job])
  {
    assert [job][1..] == [] && Links([]) == {};
    match job {
      case Global =>
        GlobalHead();
        assert forall i :: 0 <= i < 4 ==> !GlobalScript()[i].GrantRole?;
        GrantsOfNine(GlobalScript(), OWNER, APP, ANON, WEB);
      case Provision(id, password, authPassword, t) =>
        ScriptParts(id, password, authPassword, t);
        RolesGrant(id, password, authPassword, t);
        RestGrantsNone(id, t);
        GrantsInTwo(RolesPart(id, password, authPassword, t), RestPart(id, t));
    }
  }

  /** The memberships after a run are those before and the ones its jobs make. */
  lemma {:induction false} MembershipsAre(c: Cluster, jobs: seq<Job>)
    requires RunJobs(c, jobs).Some?
    ensures RunJobs(c, jobs).value.members == c.members + Links(jobs)
    decreases |jobs|
  {
    if jobs != [] {
      ScriptLinks(Session("postgres", c), JobScript(jobs[0]));
      JobLinks(jobs[0]);
      MembershipsAre(ExecAll(Session("postgres", c), JobScript(jobs[0])).value.cluster, jobs[1..]);
      assert Links(jobs) == Links([jobs[0]]) + Links(jobs[1..]) by {
        assert [jobs[0]][1..] == [] && Links([]) == {};
      }
    }
  }

  lemma {:induction false} LinksKeep(jobs: seq<Job>)
    ensures NoOtherMemberships(Links(jobs))
    decreases |jobs|
  {
    if jobs != [] {
      LinksKeep(jobs[1..]);
      BucketsAreDistinct();
      BucketsAreNoTenantRoles();
      if jobs[0].Provision? { TenantRolesAreDistinct(jobs[0].id, jobs[0].id); }
    }
  }

  lemma JobsKeepMemberships(c: Cluster, jobs: seq<Job>)
    requires NoOtherMemberships(c.members) && RunJobs(c, jobs).Some?
    ensures NoOtherMemberships(RunJobs(c, jobs).value.members)
  {
    MembershipsAre(c, jobs);
    LinksKeep(jobs);
  }

  lemma NextLink(members: set<(string, string)>, p: seq<string>, i: nat)
    requires IsChain(members, p)
    ensures i + 1 < |p| ==> (p[i], p[i + 1]) in members
  {
  }

  /** A role that is a member of nothing reaches itself only. */
  lemma ReachesItself(members: set<(string, string)>, from: string, to: string)
    requires forall r :: (from, r) !in members
    ensures Reaches(members, from, to) <==> to == from
  {
    assert IsChain(members, [from]);
    if Reaches(members, from, to) {
      var p :| IsChain(members, p) && p[0] == from && p[|p| - 1] == to;
      NextLink(members, p, 0);
    }
  }

  lemma OwnerReaches(members: set<(string, string)>, to: string)
    requires NoOtherMemberships(members) && ("mksrv_owner", "mksrv_app") in members
    requires ("mksrv_owner", "mksrv_anon") in members
    ensures Reaches(members, "mksrv_owner", to) <==> to in {"mksrv_owner", "mksrv_app", "mksrv_anon"}
  {
    var owner, app, anon := "mksrv_owner", "mksrv_app", "mksrv_anon";
    assert IsChain(members, [owner]) && IsChain(members, [owner, app]) && IsChain(members, [owner, anon]);
    if Reaches(members, owner, to) {
      var p :| IsChain(members, p) && p[0] == owner && p[|p| - 1] == to;
      NextLink(members, p, 0);
      NextLink(members, p, 1);
    }
  }

  /**
   * What the pre-request function makes of a request after a run: nothing without claims, and otherwise a role that can
   * act as the owner exactly for the groups admin and dev, and as the application exactly for those and apps.
   */
  lemma RequestBecomes(c: Cluster, jobs: seq<Job>, k: nat, g: nat, groups: Option<set<string>>)
    requires Workspace(jobs) && RunJobs(c, jobs).Some? && NoOtherMemberships(c.members)
    requires k < |jobs| && jobs[k].Provision? && g < |jobs| && jobs[g].Global?
    ensures Reaches(RunJobs(c, jobs).value.members, jobs[k].id + "_login", "mksrv_owner")
    ensures PreRequestRole(groups).None? <==> groups.None?
    ensures groups.Some? ==>
              var members, role := RunJobs(c, jobs).value.members, PreRequestRole(groups).value;
              && Reaches(members, jobs[k].id + "_auth", role)
              && (Reaches(members, role, "mksrv_owner") <==> "admin" in groups.value || "dev" in groups.value)
              && (Reaches(members, role, "mksrv_app")
                  <==> "admin" in groups.value || "dev" in groups.value || "apps" in groups.value)
  {
    var after := RunJobs(c, jobs).value;
    JobsKeepMemberships(c, jobs);
    RunSettlesEachJob(c, jobs, k);
    RunSettlesEachJob(c, jobs, g);
    SettledIsProvisioned(after, jobs[k]);
    RequestRolesAreReachable(after, jobs[k].id, groups);
    RequestReaches(after.members, groups);
    assert IsChain(after.members, [Login(jobs[k].id), OWNER]);
  }

  lemma RequestReaches(members: set<(string, string)>, groups: Option<set<string>>)
    requires NoOtherMemberships(members) && (OWNER, APP) in members && (OWNER, ANON) in members
    ensures PreRequestRole(groups).None? <==> groups.None?
    ensures groups.Some? ==>
              var role := PreRequestRole(groups).value;
              && (Reaches(members, role, "mksrv_owner") <==> "admin" in groups.value || "dev" in groups.value)
              && (Reaches(members, role, "mksrv_app")
                  <==> "admin" in groups.value || "dev" in groups.value || "apps" in groups.value)
  {
    RolesReach(members, OWNER, APP, ANON);
  }

  lemma RolesReach(members: set<(string, string)>, owner: string, app: string, anon: string)
    requires owner == "mksrv_owner" && app == "mksrv_app" && anon == "mksrv_anon" && NoOtherMemberships(members)
    requires (owner, app) in members && (owner, anon) in members
    ensures Reaches(members, owner, owner) && Reaches(members, owner, app)
    ensures !Reaches(members, app, owner) && Reaches(members, app, app)
    ensures !Reaches(members, anon, owner) && !Reaches(members, anon, app)
  {
    BucketsAreDistinct();
    OwnerReaches(members, owner);
    OwnerReaches(members, app);
    ReachesItself(members, app, owner);
    ReachesItself(members, app, app);
    ReachesItself(members, anon, owner);
    ReachesItself(members, anon, app);
  }

  // ---- The four cluster-wide roles ----

  predicate IsBucket(role: string) {
    role == "mksrv_owner" || role == "mksrv_app" || role == "mksrv_anon" || role == "mksrv_web"
  }

  /** None of the four can log in, and mksrv_web inherits nothing. */
  ghost predicate BucketsBarred(c: Cluster) {
    forall b :: b in c.roles && IsBucket(b) ==> !c.roles[b].login && (b == "mksrv_web" ==> !c.roles[b].inherits)
  }

  ghost predicate Bars(q: Statement) {
    && (q.CreateRole? ==> IsTenantRole(q.name)
                          || (!q.attributes.login && (q.name == "mksrv_web" ==> !q.attributes.inherits)))
    && (q.AlterRole? ==> IsTenantRole(q.name))
  }

  lemma BucketIsNoTenantRole(role: string)
    ensures IsBucket(role) ==> !IsTenantRole(role)
  {
    BucketsAreNoTenantRoles();
  }

  lemma StatementBars(s: Session, q: Statement)
    requires BucketsBarred(s.cluster) && Bars(q) && Exec(s, q).Some?
    ensures BucketsBarred(Exec(s, q).value.cluster)
  {
    if q.CreateRole? || q.AlterRole? {
      BucketIsNoTenantRole(q.name);
    }
  }

  lemma {:induction false} ScriptBars(s: Session, script: seq<Statement>)
    requires BucketsBarred(s.cluster) && ExecAll(s, script).Some?
    requires forall i :: 0 <= i < |script| ==> Bars(script[i])
    ensures BucketsBarred(ExecAll(s, script).value.cluster)
    decreases |script|
  {
    if script != [] {
      StatementBars(s, script[0]);
      ScriptBars(Exec(s, script[0]).value, script[1..]);
    }
  }

  lemma GlobalBars()
    ensures forall i :: 0 <= i < |GlobalScript()| ==> Bars(GlobalScript()[i])
  {
    BucketsAreDistinct();
  }

  lemma RolesBar(id: string, password: string, authPassword: string, t: Tenant)
    ensures forall i :: 0 <= i < |RolesPart(id, password, authPassword, t)| ==>
              Bars(RolesPart(id, password, authPassword, t)[i])
  {
    TenantRolesAreDistinct(id, id);
  }

  lemma RestBars(id: string, t: Tenant)
    ensures forall i :: 0 <= i < |RestPart(id, t)| ==> Bars(RestPart(id, t)[i])
  {
  }

  /** No run lets one of the four log in. */
  lemma {:induction false} BucketsStayBarred(c: Cluster, jobs: seq<Job>)
    requires BucketsBarred(c) && RunJobs(c, jobs).Some?
    ensures BucketsBarred(RunJobs(c, jobs).value)
    decreases |jobs|
  {
    if jobs != [] {
      var s := Session("postgres", c);
      match jobs[0] {
        case Global => GlobalBars();
        case Provision(id, password, authPassword, t) =>
          ScriptParts(id, password, authPassword, t);
          RolesBar(id, password, authPassword, t);
          RestBars(id, t);
      }
      ScriptBars(s, JobScript(jobs[0]));
      BucketsStayBarred(ExecAll(s, JobScript(jobs[0])).value.cluster, jobs[1..]);
    }
  }

  // ---- What a tenant's two roles are ----

  /** The login starts its sessions as the owner and has the tenant's limit; the authenticator inherits nothing. */
  ghost predicate RolesReady(c: Cluster, id: string, password: string, authPassword: string, limit: int) {
    && id + "_login" in c.roles && id + "_auth" in c.roles
    && c.roles[id + "_login"].login && c.roles[id + "_login"].password == password
    && c.roles[id + "_login"].limit == limit && c.roles[id + "_login"].startRole == Some("mksrv_owner")
    && c.roles[id + "_auth"].login && !c.roles[id + "_auth"].inherits && c.roles[id + "_auth"].password == authPassword
  }

  lemma RolesHead(job: Job)
    requires job.Provision?
    ensures var p := JobScript(job);
            && |p| > 6 && (forall i :: 0 <= i < 6 ==> !p[i].Connect?)
            && p[1] == AlterRole(Login(job.id), false, job.password, Some(job.tenant.limit))
            && p[3] == SetStartRole(Login(job.id), OWNER)
            && p[5] == AlterRole(Auth(job.id), true, job.authPassword, None)
  {
    var roles := RolesPart(job.id, job.password, job.authPassword, job.tenant);
    ScriptParts(job.id, job.password, job.authPassword, job.tenant);
    assert JobScript(job)[..7] == roles;
    assert forall i :: 0 <= i < 7 ==> JobScript(job)[i] == roles[i];
  }

  lemma SettledRolesAreReady(c: Cluster, p: seq<Statement>, login: string, auth: string, owner: string,
                             password: string, authPassword: string, limit: int)
    requires AllSettled(c, "postgres", p) && |p| > 6 && forall i :: 0 <= i < 6 ==> !p[i].Connect?
    requires p[1] == AlterRole(login, false, password, Some(limit)) && p[3] == SetStartRole(login, owner)
    requires p[5] == AlterRole(auth, true, authPassword, None)
    ensures login in c.roles && c.roles[login].login && c.roles[login].password == password
    ensures c.roles[login].limit == limit && c.roles[login].startRole == Some(owner)
    ensures auth in c.roles && c.roles[auth].login && !c.roles[auth].inherits && c.roles[auth].password == authPassword
  {
    SettledNth(c, "postgres", p, 1);
    SettledNth(c, "postgres", p, 3);
    SettledNth(c, "postgres", p, 5);
  }

  /** After any run, whatever the roles were before. */
  lemma RolesAreReady(c: Cluster, jobs: seq<Job>, k: nat)
    requires Workspace(jobs) && RunJobs(c, jobs).Some? && k < |jobs| && jobs[k].Provision?
    ensures RolesReady(RunJobs(c, jobs).value, jobs[k].id, jobs[k].password, jobs[k].authPassword, jobs[k].tenant.limit)
  {
    RunSettlesEachJob(c, jobs, k);
    RolesHead(jobs[k]);
    SettledRolesAreReady(RunJobs(c, jobs).value, JobScript(jobs[k]), Login(jobs[k].id), Auth(jobs[k].id), OWNER,
                         jobs[k].password, jobs[k].authPassword, jobs[k].tenant.limit);
  }

  // ---- What a run makes of each database ----

  function DatabaseNow(c: Cluster, name: string): Option<Database> {
    if name in c.dbs then Some(c.dbs[name]) else None
  }

  /**
   * A new database is its tenant's login's; PUBLIC is out; the two roles of the tenant come to those who may connect,
   * the login to those who may create schemas, and mksrv_owner to those who may create in `public` where the tenant
   * asks for it; the extensions it asks for are there, and its schema leads the search path.
   */
  ghost predicate Given(now: Option<Database>, before: Option<Database>, id: string, t: Tenant) {
    var was := if before.Some? then before.value else Database(id + "_login", true, {}, {}, {}, {}, None);
    && now.Some? && now.value.owner == was.owner && !now.value.public
    && now.value.connect == was.connect + {id + "_login", id + "_auth"}
    && now.value.makers == was.makers + {id + "_login"}
    && now.value.creators == was.creators + (if t.publicCreate then {"mksrv_owner"} else {})
    && now.value.extensions == was.extensions + Members(t.extensions)
    && now.value.searchPath == Some(t.schema)
  }

  /** One statement, begun in a session on `at`, and the database of this name. */
  function Moved(d: Option<Database>, name: string, q: Statement, at: string): Option<Database> {
    match q
    case CreateDatabase(db, owner) => if db == name && d.None? then Some(EmptyDatabase(owner)) else d
    case RevokePublic(db) => if db == name && d.Some? then Some(d.value.(public := false)) else d
    case GrantConnect(db, role, create) =>
      if db == name && d.Some? then
        Some(d.value.(connect := d.value.connect + {role},
                      makers := if create then d.value.makers + {role} else d.value.makers))
      else d
    case CreateExtension(extension) =>
      if at == name && d.Some? then Some(d.value.(extensions := d.value.extensions + {extension})) else d
    case GrantCreateOnPublic(role) =>
      if at == name && d.Some? then Some(d.value.(creators := d.value.creators + {role})) else d
    case SetSearchPath(db, schema) => if db == name && d.Some? then Some(d.value.(searchPath := Some(schema))) else d
    case _ => d
  }

  function MovedAll(d: Option<Database>, name: string, script: seq<Statement>, at: string): Option<Database>
    decreases |script|
  {
    if script == [] then d else MovedAll(Moved(d, name, script[0], at), name, script[1..], After(at, script[0]))
  }

  function AfterAll(at: string, script: seq<Statement>): string
    decreases |script|
  {
    if script == [] then at else AfterAll(After(at, script[0]), script[1..])
  }

  lemma StatementMoves(s: Session, q: Statement, name: string)
    requires Exec(s, q).Some?
    ensures var after := Exec(s, q).value;
            && after.db == After(s.db, q)
            && DatabaseNow(after.cluster, name) == Moved(DatabaseNow(s.cluster, name), name, q, s.db)
  {
  }

  lemma {:induction false} ScriptMoves(s: Session, script: seq<Statement>, name: string)
    requires ExecAll(s, script).Some?
    ensures DatabaseNow(ExecAll(s, script).value.cluster, name)
         == MovedAll(DatabaseNow(s.cluster, name), name, script, s.db)
    decreases |script|
  {
    if script != [] {
      StatementMoves(s, script[0], name);
      ScriptMoves(Exec(s, script[0]).value, script[1..], name);
    }
  }

  lemma {:induction false} MovedInTwo(d: Option<Database>, name: string, a: seq<Statement>, b: seq<Statement>,
                                      at: string)
    ensures MovedAll(d, name, a + b, at) == MovedAll(MovedAll(d, name, a, at), name, b, AfterAll(at, a))
    decreases |a|
  {
    if a == [] {
      assert a + b == b;
    } else {
      assert (a + b)[0] == a[0] && (a + b)[1..] == a[1..] + b;
      MovedInTwo(Moved(d, name, a[0], at), name, a[1..], b, After(at, a[0]));
    }
  }

  predicate MovesNone(q: Statement) {
    !q.CreateDatabase? && !q.RevokePublic? && !q.GrantConnect? && !q.CreateExtension? && !q.GrantCreateOnPublic?
    && !q.SetSearchPath? && !q.Connect?
  }

  lemma {:induction false} NothingMoves(d: Option<Database>, name: string, script: seq<Statement>, at: string)
    requires forall i :: 0 <= i < |script| ==> MovesNone(script[i])
    ensures MovedAll(d, name, script, at) == d && AfterAll(at, script) == at
    decreases |script|
  {
    if script != [] {
      NothingMoves(d, name, script[1..], at);
    }
  }

  lemma MovedNext(d: Option<Database>, name: string, q: Statement, rest: seq<Statement>, at: string)
    ensures MovedAll(d, name, [q] + rest, at) == MovedAll(Moved(d, name, q, at), name, rest, After(at, q))
    ensures AfterAll(at, [q] + rest) == AfterAll(After(at, q), rest)
  {
    assert ([q] + rest)[1..] == rest;
  }

  /** The database record with the two roles of its tenant in place. */
  function Opened(d: Option<Database>, login: string, auth: string): Database {
    var was := if d.Some? then d.value else EmptyDatabase(login);
    was.(public := false, connect := was.connect + {login} + {auth}, makers := was.makers + {login})
  }

  lemma FiveMove(d: Option<Database>, name: string, db: string, login: string, auth: string, at: string)
    ensures var part := [CreateDatabase(db, login), RevokePublic(db), GrantConnect(db, login, true),
                         GrantConnect(db, auth, false), Connect(db)];
            && AfterAll(at, part) == db
            && MovedAll(d, name, part, at) == if db == name then Some(Opened(d, login, auth)) else d
  {
    var q1, q2 := CreateDatabase(db, login), RevokePublic(db);
    var q3, q4, q5 := GrantConnect(db, login, true), GrantConnect(db, auth, false), Connect(db);
    var d1 := Moved(d, name, q1, at);
    var d2 := Moved(d1, name, q2, at);
    var d3 := Moved(d2, name, q3, at);
    var d4 := Moved(d3, name, q4, at);
    MovedNext(d, name, q1, [q2, q3, q4, q5], at);
    MovedNext(d1, name, q2, [q3, q4, q5], at);
    MovedNext(d2, name, q3, [q4, q5], at);
    MovedNext(d3, name, q4, [q5], at);
    MovedNext(d4, name, q5, [], at);
    assert [q1] + [q2, q3, q4, q5] == [q1, q2, q3, q4, q5] && [q2] + [q3, q4, q5] == [q2, q3, q4, q5];
    assert [q3] + [q4, q5] == [q3, q4, q5] && [q4] + [q5] == [q4, q5] && [q5] + [] == [q5];
  }

  lemma {:induction false} ExtensionsMove(d: Option<Database>, name: string, extensions: seq<string>, at: string)
    ensures AfterAll(at, ExtensionsPart(extensions)) == at
    ensures MovedAll(d, name, ExtensionsPart(extensions), at)
         == if at == name && d.Some? then
              Some(d.value.(extensions := d.value.extensions + Members(extensions)))
            else d
    decreases |extensions|
  {
    if extensions == [] {
      assert Members(extensions) == {};
      if d.Some? { assert d.value.extensions + {} == d.value.extensions; }
    } else {
      var q, rest := CreateExtension(extensions[0]), extensions[1..];
      assert ExtensionsPart(extensions) == [q] + ExtensionsPart(rest);
      MovedNext(d, name, q, ExtensionsPart(rest), at);
      ExtensionsMove(Moved(d, name, q, at), name, rest, at);
      assert Members(extensions) == {extensions[0]} + Members(rest);
      if d.Some? {
        assert d.value.extensions + {extensions[0]} + Members(rest) == d.value.extensions + Members(extensions);
      }
    }
  }

  /** The statements of the schema's part that say something of the database: who may create in public, and the path. */
  lemma SchemaPartIs(id: string, t: Tenant) returns (rest: seq<Statement>)
    ensures var two := [CreateSchema(t.schema, OWNER), SetSchemaOwner(t.schema, OWNER)];
            SchemaPart(id, t) == (if t.publicCreate then [GrantCreateOnPublic(OWNER)] else [])
                                 + (two + ([SetSearchPath(DbOf(id), t.schema)] + rest))
    ensures forall i :: 0 <= i < |rest| ==> MovesNone(rest[i])
  {
    rest := SchemaPart(id, t.(publicCreate := false))[3..];
  }

  lemma PathMoves(d: Option<Database>, name: string, two: seq<Statement>, path: Statement, rest: seq<Statement>,
                  at: string)
    requires forall i :: 0 <= i < |two| ==> MovesNone(two[i])
    requires forall i :: 0 <= i < |rest| ==> MovesNone(rest[i])
    requires !path.Connect?
    ensures MovedAll(d, name, two + ([path] + rest), at) == Moved(d, name, path, at)
  {
    MovedInTwo(d, name, two, [path] + rest, at);
    NothingMoves(d, name, two, at);
    MovedNext(d, name, path, rest, at);
    NothingMoves(Moved(d, name, path, at), name, rest, at);
  }

  lemma PublicMoves(d: Option<Database>, name: string, open: bool, role: string, rest: seq<Statement>, at: string)
    ensures MovedAll(d, name, (if open then [GrantCreateOnPublic(role)] else []) + rest, at)
         == MovedAll(if open && at == name && d.Some? then
                       Some(d.value.(creators := d.value.creators + {role})) else d, name, rest, at)
  {
    if open {
      MovedNext(d, name, GrantCreateOnPublic(role), rest, at);
    } else {
      assert [] + rest == rest;
    }
  }

  lemma SchemaMoves(d: Option<Database>, name: string, id: string, t: Tenant, at: string)
    requires at == DbOf(id)
    ensures MovedAll(d, name, SchemaPart(id, t), at)
         == if at == name && d.Some? then
              Some(d.value.(creators := d.value.creators + (if t.publicCreate then {OWNER} else {}),
                            searchPath := Some(t.schema)))
            else d
  {
    var rest := SchemaPartIs(id, t);
    var two, path := [CreateSchema(t.schema, OWNER), SetSchemaOwner(t.schema, OWNER)], SetSearchPath(at, t.schema);
    PublicMoves(d, name, t.publicCreate, OWNER, two + ([path] + rest), at);
    var d1 := if t.publicCreate && at == name && d.Some? then
                Some(d.value.(creators := d.value.creators + {OWNER})) else d;
    PathMoves(d1, name, two, path, rest, at);
    if d.Some? { assert d.value.creators + {} == d.value.creators; }
  }

  /** The whole script of a tenant, from a session on `postgres`. */
  lemma TenantMoves(d: Option<Database>, name: string, job: Job)
    requires job.Provision?
    ensures var after := MovedAll(d, name, JobScript(job), "postgres");
            if name == "db_" + job.id then Given(after, d, job.id, job.tenant) else after == d
  {
    var roles := RolesPart(job.id, job.password, job.authPassword, job.tenant);
    var five, t, db := DatabasePart(job.id), job.tenant, DbOf(job.id);
    var more, schema := ExtensionsPart(t.extensions), SchemaPart(job.id, t);
    assert JobScript(job) == roles + (five + (more + schema));
    RolesMoveNone(job);
    MovedInTwo(d, name, roles, five + (more + schema), "postgres");
    NothingMoves(d, name, roles, "postgres");
    MovedInTwo(d, name, five, more + schema, "postgres");
    FiveMove(d, name, db, Login(job.id), Auth(job.id), "postgres");
    var d1 := MovedAll(d, name, five, "postgres");
    MovedInTwo(d1, name, more, schema, db);
    ExtensionsMove(d1, name, t.extensions, db);
    SchemaMoves(MovedAll(d1, name, more, db), name, job.id, t, db);
    if name == db { OpenedIs(d, job.id); }
  }

  lemma RolesMoveNone(job: Job)
    requires job.Provision?
    ensures var roles := RolesPart(job.id, job.password, job.authPassword, job.tenant);
            forall i :: 0 <= i < |roles| ==> MovesNone(roles[i])
  {
  }

  lemma OpenedIs(d: Option<Database>, id: string)
    ensures var was := if d.Some? then d.value else Database(id + "_login", true, {}, {}, {}, {}, None);
            Opened(d, Login(id), Auth(id))
            == was.(public := false, connect := was.connect + {id + "_login", id + "_auth"},
                    makers := was.makers + {id + "_login"})
  {
    var was := if d.Some? then d.value else EmptyDatabase(Login(id));
    assert was.connect + {Login(id)} + {Auth(id)} == was.connect + {Login(id), Auth(id)};
  }

  lemma GlobalMovesNone()
    ensures forall i :: 0 <= i < |GlobalScript()| ==> MovesNone(GlobalScript()[i])
  {
  }

  predicate IsOf(job: Job, name: string) {
    job.Provision? && name == "db_" + job.id
  }

  /** A tenant's database of the run has what the tenant was given over what it had; any other is as it was. */
  ghost predicate GivenByRun(now: Option<Database>, before: Option<Database>, jobs: seq<Job>, name: string) {
    && (forall k :: 0 <= k < |jobs| && IsOf(jobs[k], name) ==> Given(now, before, jobs[k].id, jobs[k].tenant))
    && ((forall k :: 0 <= k < |jobs| ==> !IsOf(jobs[k], name)) ==> now == before)
  }

  lemma JobOfSameName(jobs: seq<Job>, k: nat)
    requires Workspace(jobs) && 0 < k < |jobs| && jobs[0].Provision? && jobs[k].Provision?
    requires DbOf(jobs[0].id) == DbOf(jobs[k].id)
    ensures jobs[k] == jobs[0]
  {
    TenantRolesAreDistinct(jobs[0].id, jobs[k].id);
    assert SameWorkspace(jobs[0], jobs[k]);
  }

  lemma GivenOneMore(now: Option<Database>, mid: Option<Database>, before: Option<Database>, jobs: seq<Job>,
                     name: string)
    requires jobs != [] && Workspace(jobs) && GivenByRun(now, mid, jobs[1..], name)
    requires if IsOf(jobs[0], name) then Given(mid, before, jobs[0].id, jobs[0].tenant) else mid == before
    ensures GivenByRun(now, before, jobs, name)
  {
    forall k | 0 <= k < |jobs| && IsOf(jobs[k], name) ensures Given(now, before, jobs[k].id, jobs[k].tenant) {
      if k > 0 {
        assert jobs[1..][k - 1] == jobs[k];
        if IsOf(jobs[0], name) { JobOfSameName(jobs, k); }
      } else if j :| 0 <= j < |jobs[1..]| && IsOf(jobs[1..][j], name) {
        JobOfSameName(jobs, j + 1);
      }
    }
    if forall k :: 0 <= k < |jobs| ==> !IsOf(jobs[k], name) {
      assert forall k :: 0 <= k < |jobs[1..]| ==> jobs[1..][k] == jobs[k + 1];
    }
  }

  lemma WorkspaceTail(jobs: seq<Job>)
    requires jobs != [] && Workspace(jobs)
    ensures Workspace(jobs[1..])
  {
  }

  /** What a run makes of each database. */
  lemma {:induction false} DatabasesAre(c: Cluster, jobs: seq<Job>, name: string)
    requires Workspace(jobs) && RunJobs(c, jobs).Some?
    ensures GivenByRun(DatabaseNow(RunJobs(c, jobs).value, name), DatabaseNow(c, name), jobs, name)
    decreases |jobs|
  {
    if jobs != [] {
      var s := Session("postgres", c);
      var mid := ExecAll(s, JobScript(jobs[0])).value.cluster;
      JobMoves(s, jobs[0], name);
      WorkspaceTail(jobs);
      DatabasesAre(mid, jobs[1..], name);
      GivenOneMore(DatabaseNow(RunJobs(mid, jobs[1..]).value, name), DatabaseNow(mid, name), DatabaseNow(c, name),
                   jobs, name);
    }
  }

  lemma JobMoves(s: Session, job: Job, name: string)
    requires s.db == "postgres" && ExecAll(s, JobScript(job)).Some?
    ensures var before := DatabaseNow(s.cluster, name);
            var after := DatabaseNow(ExecAll(s, JobScript(job)).value.cluster, name);
            if IsOf(job, name) then Given(after, before, job.id, job.tenant) else after == before
  {
    ScriptMoves(s, JobScript(job), name);
    if job.Provision? {
      TenantMoves(DatabaseNow(s.cluster, name), name, job);
    } else {
      GlobalMovesNone();
      NothingMoves(DatabaseNow(s.cluster, name), name, GlobalScript(), "postgres");
    }
  }
}
