/** Who can CONNECT where, after any provisioning (internal/cli/database.go). */
module Isolation {
  import opened Text
  import opened Grants

  ghost predicate IsChain(members: set<(string, string)>, p: seq<string>) {
    p != [] && forall i: nat {:trigger p[i]} | i + 1 < |p| :: (p[i], p[i + 1]) in members
  }

  /** Transitive role membership: what a session of `from` can SET ROLE to. */
  ghost predicate Reaches(members: set<(string, string)>, from: string, to: string) {
    exists p :: IsChain(members, p) && p[0] == from && p[|p| - 1] == to
  }

  /** CONNECT through PUBLIC, ownership, or a grant, own or reached through any memberships. */
  ghost predicate CanConnect(c: Cluster, role: string, db: string) {
    && db in c.dbs
    && (c.dbs[db].public
        || exists r :: Reaches(c.members, role, r) && (r == c.dbs[db].owner || r in c.dbs[db].connect))
  }

  predicate EndsWith(s: string, suffix: string) {
    |s| >= |suffix| && s[|s| - |suffix|..] == suffix
  }

  /** The roles whose passwords belong to one tenant. */
  predicate IsTenantRole(role: string) {
    EndsWith(role, "_login") || EndsWith(role, "_auth")
  }

  /** Nobody is a member of a tenant's own roles. */
  ghost predicate Unreached(members: set<(string, string)>) {
    forall m, r :: (m, r) in members ==> !IsTenantRole(r)
  }

  /** Database db_<id> belongs to <id>_login, and only the tenant's own two roles hold a grant on it. */
  ghost predicate Owned(c: Cluster, id: string) {
    DbOf(id) in c.dbs ==>
      c.dbs[DbOf(id)].owner == Login(id) && c.dbs[DbOf(id)].connect <= {Login(id), Auth(id)}
  }

  ghost predicate Closed(c: Cluster, id: string) {
    DbOf(id) in c.dbs ==> !c.dbs[DbOf(id)].public
  }

  /** What every complete script keeps; `window` is the tenant whose database may still be open to PUBLIC. */
  ghost predicate KeptApart(c: Cluster, window: Option<string>) {
    && Unreached(c.members)
    && (forall id :: Owned(c, id))
    && (forall id :: Some(id) != window ==> Closed(c, id))
  }

  lemma TenantRolesAreDistinct(a: string, b: string)
    ensures IsTenantRole(Login(a)) && IsTenantRole(Auth(a))
    ensures Login(a) == Login(b) ==> a == b
    ensures Auth(a) == Auth(b) ==> a == b
    ensures Login(a) != Auth(b)
    ensures DbOf(a) == DbOf(b) ==> a == b
  {
    assert Login(a)[..|Login(a)| - 6] == a && Login(b)[..|Login(b)| - 6] == b;
    assert Auth(a)[..|Auth(a)| - 5] == a && Auth(b)[..|Auth(b)| - 5] == b;
    assert DbOf(a)[3..] == a && DbOf(b)[3..] == b;
    assert Login(a)[|Login(a)| - 1] == 'n' && Auth(b)[|Auth(b)| - 1] == 'h';
    assert Login(a)[|Login(a)| - 6..] == "_login" && Auth(a)[|Auth(a)| - 5..] == "_auth";
  }

  lemma BucketsAreNoTenantRoles()
    ensures !IsTenantRole(OWNER) && !IsTenantRole(APP) && !IsTenantRole(ANON) && !IsTenantRole(WEB)
  {
    assert OWNER[|OWNER| - 1] == 'r' && APP[|APP| - 1] == 'p' && WEB[|WEB| - 1] == 'b';
    assert ANON[|ANON| - 2] == 'o' && ANON[|ANON| - 1] == 'n';
  }

  lemma LastStep(members: set<(string, string)>, p: seq<string>)
    requires IsChain(members, p) && |p| > 1
    ensures (p[|p| - 2], p[|p| - 1]) in members
  {
    var i := |p| - 2;
    assert (p[i], p[i + 1]) in members;
  }

  /** A tenant role reaches no tenant role but itself. */
  lemma ReachStaysHome(members: set<(string, string)>, from: string, to: string)
    requires Unreached(members) && Reaches(members, from, to) && IsTenantRole(to)
    ensures to == from
  {
    var p :| IsChain(members, p) && p[0] == from && p[|p| - 1] == to;
    if |p| > 1 {
      LastStep(members, p);
    }
  }

  lemma SharedRoleIsHome(id: string, other: string, role: string)
    requires role in {Login(id), Auth(id)} && role in {Login(other), Auth(other)}
    ensures other == id
  {
    TenantRolesAreDistinct(id, other);
    TenantRolesAreDistinct(other, id);
  }

  /** Isolation: in a cluster kept apart, a tenant's two roles can connect to no other tenant's database. */
  lemma TenantsAreIsolated(c: Cluster, id: string, role: string, other: string)
    requires KeptApart(c, None)
    requires role == Login(id) || role == Auth(id)
    requires CanConnect(c, role, DbOf(other))
    ensures other == id
  {
    assert Owned(c, other) && Closed(c, other);
    var d := c.dbs[DbOf(other)];
    var r :| Reaches(c.members, role, r) && (r == d.owner || r in d.connect);
    assert r in {Login(other), Auth(other)};
    TenantRolesAreDistinct(other, id);
    ReachStaysHome(c.members, role, r);
    SharedRoleIsHome(id, other, role);
  }

  /** A statement that can only narrow or keep who may connect; `id` is the tenant it serves. */
  ghost predicate Tame(q: Statement, id: string) {
    match q
    case GrantRole(role, _) => !IsTenantRole(role)
    case CreateDatabase(_, _) => false
    case GrantConnect(db, role, _) => db == DbOf(id) && role in {Login(id), Auth(id)}
    case _ => true
  }

  ghost predicate AllTame(script: seq<Statement>, id: string) {
    forall i :: 0 <= i < |script| ==> Tame(script[i], id)
  }

  lemma TameKeepsApart(s: Session, q: Statement, id: string, window: Option<string>)
    requires Tame(q, id) && KeptApart(s.cluster, window) && Exec(s, q).Some?
    ensures KeptApart(Exec(s, q).value.cluster, window)
  {
    var after := Exec(s, q).value.cluster;
    forall other ensures Owned(after, other) && (Some(other) != window ==> Closed(after, other)) {
      assert Owned(s.cluster, other) && (Some(other) != window ==> Closed(s.cluster, other));
      TenantRolesAreDistinct(id, other);
    }
  }

  lemma {:induction false} TameScriptKeepsApart(s: Session, script: seq<Statement>, id: string, window: Option<string>)
    requires AllTame(script, id)
    requires KeptApart(s.cluster, window) && ExecAll(s, script).Some?
    ensures KeptApart(ExecAll(s, script).value.cluster, window)
    decreases |script|
  {
    if script != [] {
      TameKeepsApart(s, script[0], id, window);
      TameScriptKeepsApart(Exec(s, script[0]).value, script[1..], id, window);
    }
  }

  lemma GlobalScriptIsTame(id: string)
    ensures AllTame(GlobalScript(), id)
  {
    BucketsAreNoTenantRoles();
  }

  lemma RolesPartIsTame(id: string, password: string, authPassword: string, t: Tenant)
    ensures AllTame(RolesPart(id, password, authPassword, t), id)
  {
    BucketsAreNoTenantRoles();
  }

  lemma SchemaPartIsTame(id: string, t: Tenant)
    ensures AllTame(ExtensionsPart(t.extensions) + SchemaPart(id, t), id)
  {
  }

  /** CREATE DATABASE opens the database to PUBLIC, if it is the one that creates it; nothing else does. */
  lemma CreateOpensWindow(s: Session, id: string)
    requires KeptApart(s.cluster, None) && Exec(s, CreateDatabase(DbOf(id), Login(id))).Some?
    ensures var after := Exec(s, CreateDatabase(DbOf(id), Login(id))).value.cluster;
            && KeptApart(after, Some(id))
            && (KeptApart(after, None) <==> DbOf(id) in s.cluster.dbs)
  {
    var after := Exec(s, CreateDatabase(DbOf(id), Login(id))).value.cluster;
    forall other ensures Owned(after, other) && (other != id ==> Closed(after, other)) {
      assert Owned(s.cluster, other) && Closed(s.cluster, other);
      TenantRolesAreDistinct(id, other);
    }
    if DbOf(id) !in s.cluster.dbs {
      assert !Closed(after, id);
    }
  }

  /** REVOKE ALL ... FROM PUBLIC shuts it again. */
  lemma RevokeShutsWindow(s: Session, id: string)
    requires KeptApart(s.cluster, Some(id)) && Exec(s, RevokePublic(DbOf(id))).Some?
    ensures KeptApart(Exec(s, RevokePublic(DbOf(id))).value.cluster, None)
  {
    var after := Exec(s, RevokePublic(DbOf(id))).value.cluster;
    forall other ensures Owned(after, other) && Closed(after, other) {
      assert Owned(s.cluster, other) && (other != id ==> Closed(s.cluster, other));
      TenantRolesAreDistinct(id, other);
    }
  }

  /** The statements after the REVOKE. */
  function RestPart(id: string, t: Tenant): seq<Statement> {
    [GrantConnect(DbOf(id), Login(id), true), GrantConnect(DbOf(id), Auth(id), false), Connect(DbOf(id))]
    + (ExtensionsPart(t.extensions) + SchemaPart(id, t))
  }

  /** A tenant's script around the creation of its database. */
  function CreatingScript(roles: seq<Statement>, id: string, rest: seq<Statement>): seq<Statement> {
    roles + ([CreateDatabase(DbOf(id), Login(id))] + ([RevokePublic(DbOf(id))] + rest))
  }

  predicate TouchesNoDatabase(q: Statement) {
    q.CreateRole? || q.AlterRole? || q.GrantRole? || q.SetStartRole?
  }

  predicate AboutRoles(script: seq<Statement>) {
    forall i :: 0 <= i < |script| ==> TouchesNoDatabase(script[i])
  }

  lemma ScriptParts(id: string, password: string, authPassword: string, t: Tenant)
    ensures TenantScript(id, password, authPassword, t)
         == CreatingScript(RolesPart(id, password, authPassword, t), id, RestPart(id, t))
    ensures |RolesPart(id, password, authPassword, t)| == 7 && AboutRoles(RolesPart(id, password, authPassword, t))
    ensures AllTame(RestPart(id, t), id)
  {
    SchemaPartIsTame(id, t);
    assert DatabasePart(id) == [CreateDatabase(DbOf(id), Login(id)), RevokePublic(DbOf(id))]
        + [GrantConnect(DbOf(id), Login(id), true), GrantConnect(DbOf(id), Auth(id), false), Connect(DbOf(id))];
  }

  lemma {:induction false} RoleStatementsKeepDbs(s: Session, script: seq<Statement>)
    requires AboutRoles(script) && ExecAll(s, script).Some?
    ensures ExecAll(s, script).value.cluster.dbs == s.cluster.dbs
    decreases |script|
  {
    if script != [] {
      assert TouchesNoDatabase(script[0]);
      RoleStatementsKeepDbs(Exec(s, script[0]).value, script[1..]);
    }
  }

  lemma ExecOne(s: Session, q: Statement, rest: seq<Statement>)
    ensures ExecAll(s, [q] + rest) == if Exec(s, q).None? then None else ExecAll(Exec(s, q).value, rest)
  {
    assert ([q] + rest)[1..] == rest;
  }

  /** The creation of the database, then the first k statements of what follows it. */
  function CreatingPart(id: string, rest: seq<Statement>, k: nat): seq<Statement>
    requires k <= 1 + |rest|
  {
    [CreateDatabase(DbOf(id), Login(id))] + ([RevokePublic(DbOf(id))] + rest)[..k]
  }

  /** In a session where the roles are there. */
  lemma StoppedBehindCreate(s: Session, id: string, rest: seq<Statement>, k: nat)
    requires KeptApart(s.cluster, None) && AllTame(rest, id) && k <= 1 + |rest|
    requires ExecAll(s, CreatingPart(id, rest, k)).Some?
    ensures KeptApart(ExecAll(s, CreatingPart(id, rest, k)).value.cluster, None)
       <==> !(k == 0 && DbOf(id) !in s.cluster.dbs)
  {
    var create, revoke := CreateDatabase(DbOf(id), Login(id)), RevokePublic(DbOf(id));
    ExecOne(s, create, ([revoke] + rest)[..k]);
    CreateOpensWindow(s, id);
    if k > 0 {
      var unshut := Exec(s, create).value;
      assert ([revoke] + rest)[..k] == [revoke] + rest[..k - 1];
      ExecOne(unshut, revoke, rest[..k - 1]);
      RevokeShutsWindow(unshut, id);
      TameScriptKeepsApart(Exec(unshut, revoke).value, rest[..k - 1], id, None);
    }
  }

  lemma StoppedAfterRoles(s: Session, id: string, roles: seq<Statement>, rest: seq<Statement>, k: nat)
    requires KeptApart(s.cluster, None) && AllTame(roles, id) && AllTame(rest, id) && AboutRoles(roles)
    requires k <= 1 + |rest| && ExecAll(s, roles + CreatingPart(id, rest, k)).Some?
    ensures KeptApart(ExecAll(s, roles + CreatingPart(id, rest, k)).value.cluster, None)
       <==> !(k == 0 && DbOf(id) !in s.cluster.dbs)
  {
    ExecAllConcat(s, roles, CreatingPart(id, rest, k));
    TameScriptKeepsApart(s, roles, id, None);
    RoleStatementsKeepDbs(s, roles);
    StoppedBehindCreate(ExecAll(s, roles).value, id, rest, k);
  }

  lemma CreatingPrefix(roles: seq<Statement>, id: string, rest: seq<Statement>, k: nat)
    requires k <= |roles| + 2 + |rest|
    ensures CreatingScript(roles, id, rest)[..k]
         == if k <= |roles| then roles[..k] else roles + CreatingPart(id, rest, k - |roles| - 1)
  {
  }

  /** The same behind statements about roles. */
  lemma StoppedBehindRoles(s: Session, id: string, roles: seq<Statement>, rest: seq<Statement>, k: nat)
    requires KeptApart(s.cluster, None) && AllTame(roles, id) && AllTame(rest, id) && AboutRoles(roles)
    requires k <= |roles| + 2 + |rest|
    requires ExecAll(s, CreatingScript(roles, id, rest)[..k]).Some?
    ensures KeptApart(ExecAll(s, CreatingScript(roles, id, rest)[..k]).value.cluster, None)
       <==> !(k == |roles| + 1 && DbOf(id) !in s.cluster.dbs)
  {
    CreatingPrefix(roles, id, rest, k);
    if k <= |roles| {
      TameScriptKeepsApart(s, roles[..k], id, None);
    } else {
      StoppedAfterRoles(s, id, roles, rest, k - |roles| - 1);
    }
  }

  /**
   * A script stopped after k statements: isolation holds unless it stopped right after creating the database, between
   * CREATE DATABASE and the REVOKE.
   */
  lemma StoppedScript(s: Session, id: string, password: string, authPassword: string, t: Tenant, k: nat)
    requires KeptApart(s.cluster, None)
    requires k <= |TenantScript(id, password, authPassword, t)|
    requires ExecAll(s, TenantScript(id, password, authPassword, t)[..k]).Some?
    ensures var after := ExecAll(s, TenantScript(id, password, authPassword, t)[..k]).value.cluster;
            KeptApart(after, None) <==> !(k == 8 && DbOf(id) !in s.cluster.dbs)
  {
    ScriptParts(id, password, authPassword, t);
    RolesPartIsTame(id, password, authPassword, t);
    StoppedBehindRoles(s, id, RolesPart(id, password, authPassword, t), RestPart(id, t), k);
  }

  /** In that window every role of the cluster can connect to the new database. */
  lemma WindowAdmitsEveryone(s: Session, id: string, role: string)
    requires DbOf(id) !in s.cluster.dbs && Exec(s, CreateDatabase(DbOf(id), Login(id))).Some?
    ensures CanConnect(Exec(s, CreateDatabase(DbOf(id), Login(id))).value.cluster, role, DbOf(id))
  {
  }

  /** One psql run of the provisioning: the global script or one tenant's. */
  datatype Job = Global | Provision(id: string, password: string, authPassword: string, tenant: Tenant)

  function JobScript(job: Job): seq<Statement> {
    match job
    case Global => GlobalScript()
    case Provision(id, password, authPassword, t) => TenantScript(id, password, authPassword, t)
  }

  /** Each job opens its own session on the database `postgres`. */
  function RunJobs(c: Cluster, jobs: seq<Job>): Option<Cluster>
    decreases |jobs|
  {
    if jobs == [] then Some(c)
    else
      var done := ExecAll(Session("postgres", c), JobScript(jobs[0]));
      if done.None? then None else RunJobs(done.value.cluster, jobs[1..])
  }

  /** Complete scripts, any number, for any tenants, in any order, keep the tenants apart. */
  lemma {:induction false} JobsKeepApart(c: Cluster, jobs: seq<Job>)
    requires KeptApart(c, None) && RunJobs(c, jobs).Some?
    ensures KeptApart(RunJobs(c, jobs).value, None)
    decreases |jobs|
  {
    if jobs != [] {
      var s, script := Session("postgres", c), JobScript(jobs[0]);
      match jobs[0] {
        case Global =>
          GlobalScriptIsTame("");
          TameScriptKeepsApart(s, script, "", None);
        case Provision(id, password, authPassword, t) =>
          assert script[..|script|] == script;
          ScriptParts(id, password, authPassword, t);
          assert |script| > 8;
          StoppedScript(s, id, password, authPassword, t, |script|);
      }
      JobsKeepApart(ExecAll(s, script).value.cluster, jobs[1..]);
    }
  }
}
