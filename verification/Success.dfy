/** When the provisioning scripts of internal/cli/database.go run through without an error. */
module Success {
  import opened Text
  import opened Grants
  import opened Isolation

  /** The four cluster-wide roles are there. */
  ghost predicate Buckets(c: Cluster) {
    {OWNER, APP, ANON, WEB} <= c.roles.Keys
  }

  /** No statement takes anything away by name. */
  lemma ExecKeeps(s: Session, q: Statement)
    requires Exec(s, q).Some?
    ensures var t := Exec(s, q).value;
            && s.cluster.roles.Keys <= t.cluster.roles.Keys && s.cluster.dbs.Keys <= t.cluster.dbs.Keys
            && s.cluster.schemas.Keys <= t.cluster.schemas.Keys && (!q.Connect? ==> t.db == s.db)
  {
  }

  /** Only CREATE ROLE brings a role. */
  lemma ExecBringsNoRole(s: Session, q: Statement)
    requires Exec(s, q).Some?
    ensures Exec(s, q).value.cluster.roles.Keys <= s.cluster.roles.Keys + if q.CreateRole? then {q.name} else {}
  {
  }

  lemma {:induction false} ScriptKeeps(s: Session, script: seq<Statement>)
    requires ExecAll(s, script).Some?
    ensures s.cluster.roles.Keys <= ExecAll(s, script).value.cluster.roles.Keys
    decreases |script|
  {
    if script != [] {
      ExecKeeps(s, script[0]);
      ScriptKeeps(Exec(s, script[0]).value, script[1..]);
    }
  }

  /** A script told session by session. */
  lemma {:induction false} ScriptRuns(script: seq<Statement>, at: seq<Session>)
    requires |at| == |script| + 1 && forall i :: 0 <= i < |script| ==> Exec(at[i], script[i]) == Some(at[i + 1])
    ensures ExecAll(at[0], script) == Some(at[|script|])
    decreases |script|
  {
    if script != [] {
      assert Exec(at[0], script[0]) == Some(at[1]);
      ScriptRuns(script[1..], at[1..]);
    }
  }

  /** One more statement that succeeds; what was there stays. */
  lemma RunOn(s: Session, q: Statement, rest: seq<Statement>)
    requires Exec(s, q).Some? && ExecAll(Exec(s, q).value, rest).Some?
    ensures ExecAll(s, [q] + rest) == ExecAll(Exec(s, q).value, rest)
  {
    ExecOne(s, q, rest);
  }

  /** Roles are granted to each other in any order, once they are there. */
  lemma {:induction false} RoleGrantsSucceed(s: Session, grants: seq<Statement>)
    requires forall i :: 0 <= i < |grants| ==>
               grants[i].GrantRole? && {grants[i].role, grants[i].member} <= s.cluster.roles.Keys
    ensures ExecAll(s, grants).Some? && ExecAll(s, grants).value.cluster.roles == s.cluster.roles
    decreases |grants|
  {
    if grants != [] {
      assert grants[0].GrantRole?;
      RoleGrantsSucceed(Exec(s, grants[0]).value, grants[1..]);
    }
  }

  lemma GlobalSucceeds(s: Session)
    ensures ExecAll(s, GlobalScript()).Some? && Buckets(ExecAll(s, GlobalScript()).value.cluster)
  {
    var script := GlobalScript();
    var s1 := Exec(s, script[0]).value;
    var s2 := Exec(s1, script[1]).value;
    var s3 := Exec(s2, script[2]).value;
    var s4 := Exec(s3, script[3]).value;
    ScriptRuns(script[..4], [s, s1, s2, s3, s4]);
    assert Buckets(s4.cluster);
    RoleGrantsSucceed(s4, script[4..]);
    ExecAllConcat(s, script[..4], script[4..]);
    assert script[..4] + script[4..] == script;
  }

  /** The roles of the tenant and the buckets are there. */
  ghost predicate RolesThere(c: Cluster, id: string) {
    Buckets(c) && Login(id) in c.roles && Auth(id) in c.roles
  }

  lemma RolesPartSucceeds(s: Session, id: string, password: string, authPassword: string, t: Tenant)
    requires Buckets(s.cluster)
    ensures ExecAll(s, RolesPart(id, password, authPassword, t)).Some?
    ensures RolesThere(ExecAll(s, RolesPart(id, password, authPassword, t)).value.cluster, id)
  {
    var script := RolesPart(id, password, authPassword, t);
    var s1 := Exec(s, script[0]).value;
    ExecKeeps(s, script[0]);
    var s2 := Exec(s1, script[1]).value;
    ExecKeeps(s1, script[1]);
    var s3 := Exec(s2, script[2]).value;
    ExecKeeps(s2, script[2]);
    var s4 := Exec(s3, script[3]).value;
    ExecKeeps(s3, script[3]);
    var s5 := Exec(s4, script[4]).value;
    ExecKeeps(s4, script[4]);
    var s6 := Exec(s5, script[5]).value;
    ExecKeeps(s5, script[5]);
    var s7 := Exec(s6, script[6]).value;
    ScriptRuns(script, [s, s1, s2, s3, s4, s5, s6, s7]);
  }

  lemma DatabasePartSucceeds(s: Session, id: string)
    requires RolesThere(s.cluster, id)
    ensures ExecAll(s, DatabasePart(id)).Some?
    ensures var after := ExecAll(s, DatabasePart(id)).value;
            RolesThere(after.cluster, id) && after.db == DbOf(id) && DbOf(id) in after.cluster.dbs
  {
    var script := DatabasePart(id);
    var s1 := Exec(s, script[0]).value;
    ExecKeeps(s, script[0]);
    var s2 := Exec(s1, script[1]).value;
    ExecKeeps(s1, script[1]);
    var s3 := Exec(s2, script[2]).value;
    ExecKeeps(s2, script[2]);
    var s4 := Exec(s3, script[3]).value;
    ExecKeeps(s3, script[3]);
    var s5 := Exec(s4, script[4]).value;
    ScriptRuns(script, [s, s1, s2, s3, s4, s5]);
  }

  lemma {:induction false} ExtensionsSucceed(s: Session, id: string, extensions: seq<string>)
    requires RolesThere(s.cluster, id) && s.db == DbOf(id) && DbOf(id) in s.cluster.dbs
    ensures ExecAll(s, ExtensionsPart(extensions)).Some?
    ensures var after := ExecAll(s, ExtensionsPart(extensions)).value;
            RolesThere(after.cluster, id) && after.db == DbOf(id) && DbOf(id) in after.cluster.dbs
    decreases |extensions|
  {
    if extensions != [] {
      var q := CreateExtension(extensions[0]);
      ExecKeeps(s, q);
      ExtensionsSucceed(Exec(s, q).value, id, extensions[1..]);
      RunOn(s, q, ExtensionsPart(extensions[1..]));
      assert ExtensionsPart(extensions) == [q] + ExtensionsPart(extensions[1..]);
    }
  }

  /** In the tenant's database, with the roles and perhaps the schema and the function there. */
  ghost predicate InDb(s: Session, id: string, schema: string, made: bool, routine: bool) {
    && Buckets(s.cluster) && s.db == DbOf(id) && DbOf(id) in s.cluster.dbs
    && (made ==> (s.db, schema) in s.cluster.schemas)
    && (routine ==> (s.db, schema) in s.cluster.schemas && s.cluster.schemas[(s.db, schema)].preRequest.Some?)
  }

  predicate IsBucket(role: string) {
    role == OWNER || role == APP || role == ANON || role == WEB
  }

  /** A statement of the schema part that finds what it needs once the schema, or the function too, is there. */
  ghost predicate Suits(id: string, schema: string, q: Statement, routine: bool) {
    match q
    case GrantCreateOnPublic(role) => IsBucket(role)
    case SetSchemaOwner(n, owner) => n == schema && IsBucket(owner)
    case SetSearchPath(db, _) => db == DbOf(id)
    case GrantUsage(n, roles) => n == schema && roles <= {OWNER, APP, ANON, WEB}
    case GrantDefaultSelect(n, role) => n == schema && IsBucket(role)
    case GrantSelect(n, role) => n == schema && IsBucket(role)
    case RevokeDefaultSelect(n, role) => n == schema && IsBucket(role)
    case RevokeSelect(n, role) => n == schema && IsBucket(role)
    case SetRoutineOwner(n, owner) => routine && n == schema && IsBucket(owner)
    case GrantExecute(n, roles) => routine && n == schema && roles <= {OWNER, APP, ANON, WEB}
    case _ => false
  }

  lemma SuitedStep(s: Session, id: string, schema: string, q: Statement, routine: bool)
    requires InDb(s, id, schema, true, routine) && Suits(id, schema, q, routine)
    ensures Exec(s, q).Some? && InDb(Exec(s, q).value, id, schema, true, routine)
  {
    ExecKeeps(s, q);
  }

  ghost predicate AllSuit(id: string, schema: string, script: seq<Statement>, routine: bool) {
    forall i :: 0 <= i < |script| ==> Suits(id, schema, script[i], routine)
  }

  lemma {:induction false} SuitedRun(s: Session, id: string, schema: string, script: seq<Statement>, routine: bool)
    requires InDb(s, id, schema, true, routine) && AllSuit(id, schema, script, routine)
    ensures ExecAll(s, script).Some? && InDb(ExecAll(s, script).value, id, schema, true, routine)
    decreases |script|
  {
    if script != [] {
      SuitedStep(s, id, schema, script[0], routine);
      SuitedRun(Exec(s, script[0]).value, id, schema, script[1..], routine);
    }
  }

  /** The statements between CREATE SCHEMA and the function, and those behind it. */
  function SchemaGrants(id: string, n: string): seq<Statement> {
    [SetSchemaOwner(n, OWNER), SetSearchPath(DbOf(id), n), GrantUsage(n, {APP, ANON, WEB}),
     GrantDefaultSelect(n, OWNER), GrantDefaultSelect(n, APP), GrantSelect(n, APP),
     RevokeDefaultSelect(n, ANON), RevokeSelect(n, ANON)]
  }

  function RoutineGrants(n: string): seq<Statement> {
    [SetRoutineOwner(n, OWNER), GrantExecute(n, {WEB, ANON})]
  }

  function FirstGrants(t: Tenant): seq<Statement> {
    if t.publicCreate then [GrantCreateOnPublic(OWNER)] else []
  }

  lemma SchemaPartIs(id: string, t: Tenant)
    ensures SchemaPart(id, t)
         == FirstGrants(t) + ([CreateSchema(t.schema, OWNER)] + (SchemaGrants(id, t.schema)
            + ([CreatePreRequest(t.schema)] + RoutineGrants(t.schema))))
    ensures AllSuit(id, t.schema, SchemaGrants(id, t.schema), false)
    ensures AllSuit(id, t.schema, RoutineGrants(t.schema), true)
  {
  }

  lemma RoutineSucceeds(s: Session, id: string, n: string, rest: seq<Statement>)
    requires InDb(s, id, n, true, false) && AllSuit(id, n, rest, true)
    ensures ExecAll(s, [CreatePreRequest(n)] + rest).Some?
  {
    var q := CreatePreRequest(n);
    ExecKeeps(s, q);
    SuitedRun(Exec(s, q).value, id, n, rest, true);
    RunOn(s, q, rest);
  }

  lemma SchemaSucceeds(s: Session, id: string, n: string, grants: seq<Statement>, rest: seq<Statement>)
    requires InDb(s, id, n, false, false) && AllSuit(id, n, grants, false) && AllSuit(id, n, rest, true)
    ensures ExecAll(s, [CreateSchema(n, OWNER)] + (grants + ([CreatePreRequest(n)] + rest))).Some?
  {
    var q := CreateSchema(n, OWNER);
    ExecKeeps(s, q);
    var made := Exec(s, q).value;
    SuitedRun(made, id, n, grants, false);
    RoutineSucceeds(ExecAll(made, grants).value, id, n, rest);
    ExecAllConcat(made, grants, [CreatePreRequest(n)] + rest);
    RunOn(s, q, grants + ([CreatePreRequest(n)] + rest));
  }

  lemma SchemaPartSucceeds(s: Session, id: string, t: Tenant)
    requires InDb(s, id, t.schema, false, false)
    ensures ExecAll(s, SchemaPart(id, t)).Some?
  {
    SchemaPartIs(id, t);
    var first, q := s, GrantCreateOnPublic(OWNER);
    if t.publicCreate {
      ExecKeeps(s, q);
      first := Exec(s, q).value;
      ExecOne(s, q, []);
      assert [q] + [] == [q];
    }
    SchemaSucceeds(first, id, t.schema, SchemaGrants(id, t.schema), RoutineGrants(t.schema));
    ExecAllConcat(s, FirstGrants(t), [CreateSchema(t.schema, OWNER)] + (SchemaGrants(id, t.schema)
                  + ([CreatePreRequest(t.schema)] + RoutineGrants(t.schema))));
  }

  lemma TenantSucceeds(s: Session, id: string, password: string, authPassword: string, t: Tenant)
    requires Buckets(s.cluster)
    ensures ExecAll(s, TenantScript(id, password, authPassword, t)).Some?
  {
    var roles := RolesPart(id, password, authPassword, t);
    var database, extensions := DatabasePart(id), ExtensionsPart(t.extensions);
    RolesPartSucceeds(s, id, password, authPassword, t);
    var s1 := ExecAll(s, roles).value;
    DatabasePartSucceeds(s1, id);
    var s2 := ExecAll(s1, database).value;
    ExtensionsSucceed(s2, id, t.extensions);
    var s3 := ExecAll(s2, extensions).value;
    SchemaPartSucceeds(s3, id, t);
    ExecAllConcat(s, roles, database);
    ExecAllConcat(s, roles + database, extensions);
    ExecAllConcat(s, roles + database + extensions, SchemaPart(id, t));
  }

  /** A script that brings none of the four roles and ends with them found them there. */
  lemma {:induction false} RolesComeFromBefore(s: Session, script: seq<Statement>, role: string)
    requires ExecAll(s, script).Some? && role in ExecAll(s, script).value.cluster.roles
    requires forall i :: 0 <= i < |script| && script[i].CreateRole? ==> script[i].name != role
    ensures role in s.cluster.roles
    decreases |script|
  {
    if script != [] {
      var next := Exec(s, script[0]).value;
      RolesComeFromBefore(next, script[1..], role);
      ExecBringsNoRole(s, script[0]);
    }
  }

  lemma {:induction false} StatementsRan(s: Session, script: seq<Statement>, i: nat)
    requires ExecAll(s, script).Some? && i < |script|
    ensures match script[i]
            case GrantRole(role, member) => role in ExecAll(s, script).value.cluster.roles
            case GrantUsage(_, roles) => roles <= ExecAll(s, script).value.cluster.roles.Keys
            case _ => true
    decreases |script|
  {
    var next := Exec(s, script[0]).value;
    if i == 0 {
      ExecKeeps(s, script[0]);
      ScriptKeeps(next, script[1..]);
    } else {
      StatementsRan(next, script[1..], i - 1);
    }
  }

  lemma UsageStatement(id: string, password: string, authPassword: string, t: Tenant) returns (usage: nat)
    ensures usage < |TenantScript(id, password, authPassword, t)|
    ensures TenantScript(id, password, authPassword, t)[usage] == GrantUsage(t.schema, {APP, ANON, WEB})
  {
    var head := RolesPart(id, password, authPassword, t) + DatabasePart(id) + ExtensionsPart(t.extensions);
    var k := if t.publicCreate then 4 else 3;
    assert SchemaPart(id, t)[k] == GrantUsage(t.schema, {APP, ANON, WEB});
    usage := |head| + k;
  }

  lemma OwnerStatement(id: string, password: string, authPassword: string, t: Tenant)
    ensures |TenantScript(id, password, authPassword, t)| > 2
    ensures TenantScript(id, password, authPassword, t)[2] == GrantRole(OWNER, Login(id))
  {
    var roles := RolesPart(id, password, authPassword, t);
    assert |roles| == 7 && TenantScript(id, password, authPassword, t)[2] == roles[2];
  }

  lemma CreatedRoles(id: string, password: string, authPassword: string, t: Tenant, i: nat)
    requires i < |TenantScript(id, password, authPassword, t)|
    requires TenantScript(id, password, authPassword, t)[i].CreateRole?
    ensures TenantScript(id, password, authPassword, t)[i].name in {Login(id), Auth(id)}
  {
    var roles, rest := RolesPart(id, password, authPassword, t), DatabasePart(id) + ExtensionsPart(t.extensions);
    var last := SchemaPart(id, t);
    assert TenantScript(id, password, authPassword, t) == roles + rest + last;
    assert forall j :: 0 <= j < |last| ==> !last[j].CreateRole?;
    assert forall j :: 0 <= j < |rest| ==> !rest[j].CreateRole?;
  }

  /** Every role the script creates is a tenant's own. */
  ghost predicate CreatesTenantRoles(script: seq<Statement>) {
    forall i :: 0 <= i < |script| && script[i].CreateRole? ==> IsTenantRole(script[i].name)
  }

  lemma TenantCreatesTenantRoles(id: string, password: string, authPassword: string, t: Tenant)
    ensures CreatesTenantRoles(TenantScript(id, password, authPassword, t))
  {
    var script := TenantScript(id, password, authPassword, t);
    TenantRolesAreDistinct(id, id);
    forall i | 0 <= i < |script| && script[i].CreateRole? ensures IsTenantRole(script[i].name) {
      CreatedRoles(id, password, authPassword, t, i);
    }
  }

  lemma ScriptNeedsRole(s: Session, script: seq<Statement>, i: nat, role: string)
    requires ExecAll(s, script).Some? && CreatesTenantRoles(script) && !IsTenantRole(role) && i < |script|
    requires (script[i].GrantRole? && script[i].role == role) || (script[i].GrantUsage? && role in script[i].roles)
    ensures role in s.cluster.roles
  {
    StatementsRan(s, script, i);
    RolesComeFromBefore(s, script, role);
  }

  lemma ScriptNeedsRoles(s: Session, script: seq<Statement>, usage: nat, owner: string, roles: set<string>)
    requires ExecAll(s, script).Some? && CreatesTenantRoles(script)
    requires !IsTenantRole(owner) && forall role :: role in roles ==> !IsTenantRole(role)
    requires |script| > 2 && script[2].GrantRole? && script[2].role == owner
    requires usage < |script| && script[usage].GrantUsage? && script[usage].roles == roles
    ensures {owner} + roles <= s.cluster.roles.Keys
  {
    ScriptNeedsRole(s, script, 2, owner);
    forall role | role in roles ensures role in s.cluster.roles {
      ScriptNeedsRole(s, script, usage, role);
    }
  }

  lemma UsersAreNoTenantRoles()
    ensures forall role :: role in {APP, ANON, WEB} ==> !IsTenantRole(role)
    ensures !IsTenantRole(OWNER) && {OWNER} + {APP, ANON, WEB} == {OWNER, APP, ANON, WEB}
  {
    BucketsAreNoTenantRoles();
  }

  lemma TenantNeedsBuckets(s: Session, id: string, password: string, authPassword: string, t: Tenant)
    requires ExecAll(s, TenantScript(id, password, authPassword, t)).Some?
    ensures Buckets(s.cluster)
  {
    var script := TenantScript(id, password, authPassword, t);
    OwnerStatement(id, password, authPassword, t);
    var usage := UsageStatement(id, password, authPassword, t);
    TenantCreatesTenantRoles(id, password, authPassword, t);
    UsersAreNoTenantRoles();
    ScriptNeedsRoles(s, script, usage, OWNER, {APP, ANON, WEB});
  }

  /** The cluster-wide roles, once there, are there after any job. */
  lemma {:induction false} JobsSucceedWithBuckets(c: Cluster, jobs: seq<Job>)
    requires Buckets(c)
    ensures RunJobs(c, jobs).Some?
    decreases |jobs|
  {
    if jobs != [] {
      var s := Session("postgres", c);
      match jobs[0] {
        case Global => GlobalSucceeds(s);
        case Provision(id, password, authPassword, t) => TenantSucceeds(s, id, password, authPassword, t);
      }
      ScriptKeeps(s, JobScript(jobs[0]));
      JobsSucceedWithBuckets(ExecAll(s, JobScript(jobs[0])).value.cluster, jobs[1..]);
    }
  }

  /**
   * Any list of jobs succeeds on any cluster, exactly when it is empty, starts with the global script, or finds the
   * four cluster-wide roles there already.
   */
  lemma JobsSucceedIff(c: Cluster, jobs: seq<Job>)
    ensures RunJobs(c, jobs).Some? <==> jobs == [] || jobs[0].Global? || Buckets(c)
  {
    if jobs != [] {
      var s := Session("postgres", c);
      match jobs[0] {
        case Global =>
          GlobalSucceeds(s);
          JobsSucceedWithBuckets(ExecAll(s, GlobalScript()).value.cluster, jobs[1..]);
        case Provision(id, password, authPassword, t) =>
          if RunJobs(c, jobs).Some? {
            TenantNeedsBuckets(s, id, password, authPassword, t);
          }
          if Buckets(c) {
            JobsSucceedWithBuckets(c, jobs);
          }
      }
    }
  }
}
