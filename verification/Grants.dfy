/** What the provisioning SQL of internal/cli/database.go does to roles, memberships and grants. */
module Grants {
  import opened Text

  const OWNER := "mksrv_owner"
  const APP := "mksrv_app"
  const ANON := "mksrv_anon"
  const WEB := "mksrv_web"
  /** The role psql connects as. */
  const SUPERUSER := "postgres"

  function Login(id: string): string { id + "_login" }
  function Auth(id: string): string { id + "_auth" }
  function DbOf(id: string): string { "db_" + id }

  /** Role attributes; `startRole` is the role ALTER ROLE ... SET role starts sessions as. */
  datatype Role = Role(login: bool, inherits: bool, password: string, limit: int, startRole: Option<string>)

  /**
   * CONNECT on one database: its owner has it implicitly, PUBLIC until it is revoked. `makers` may create schemas in
   * it, `creators` objects in its schema `public`.
   */
  datatype Database = Database(owner: string, public: bool, connect: set<string>, makers: set<string>,
                               extensions: set<string>, creators: set<string>, searchPath: Option<string>)

  /** The pre-request function: its owner, and who was granted EXECUTE. */
  datatype Routine = Routine(owner: string, execute: set<string>)

  /** One schema: its owner, who may use it, who may SELECT from future tables and from each existing one. */
  datatype Schema = Schema(owner: string, usage: set<string>, defaults: set<string>, tables: map<string, set<string>>,
                           preRequest: Option<Routine>)

  /** `members` holds (member, role) pairs; schemas are keyed by database and name. */
  datatype Cluster = Cluster(
    roles: map<string, Role>,
    members: set<(string, string)>,
    dbs: map<string, Database>,
    schemas: map<(string, string), Schema>)

  datatype Session = Session(db: string, cluster: Cluster)

  datatype Statement =
    | CreateRole(name: string, attributes: Role)
    | AlterRole(name: string, noInherit: bool, password: string, limit: Option<int>)
    | GrantRole(role: string, member: string)
    | SetStartRole(name: string, role: string)
    | CreateDatabase(db: string, owner: string)
    | RevokePublic(db: string)
    | GrantConnect(db: string, role: string, create: bool)
    | Connect(db: string)
    | CreateExtension(extension: string)
    | GrantCreateOnPublic(role: string)
    | CreateSchema(schema: string, owner: string)
    | SetSchemaOwner(schema: string, owner: string)
    | GrantUsage(schema: string, roles: set<string>)
    | GrantDefaultSelect(schema: string, role: string)
    | GrantSelect(schema: string, role: string)
    | RevokeDefaultSelect(schema: string, role: string)
    | RevokeSelect(schema: string, role: string)
    | SetSearchPath(db: string, schema: string)
    | CreatePreRequest(schema: string)
    | SetRoutineOwner(schema: string, owner: string)
    | GrantExecute(schema: string, roles: set<string>)

  function EmptyDatabase(owner: string): Database {
    Database(owner, true, {}, {}, {}, {}, None)
  }

  function EmptySchema(owner: string): Schema {
    Schema(owner, {}, {}, map[], None)
  }

  function WithSchema(s: Session, schema: string, now: Schema): Session {
    s.(cluster := s.cluster.(schemas := s.cluster.schemas[(s.db, schema) := now]))
  }

  function WithDb(s: Session, db: string, now: Database): Session {
    s.(cluster := s.cluster.(dbs := s.cluster.dbs[db := now]))
  }

  /** ALTER ROLE ... WITH LOGIN [NOINHERIT] PASSWORD ... [CONNECTION LIMIT ...]. */
  function Altered(role: Role, noInherit: bool, password: string, limit: Option<int>): Role {
    role.(login := true,
          inherits := if noInherit then false else role.inherits,
          password := password,
          limit := if limit.Some? then limit.value else role.limit)
  }

  /** One statement under ON_ERROR_STOP; None is an error. Guarded CREATEs skip what exists. */
  function Exec(s: Session, q: Statement): Option<Session> {
    var c := s.cluster;
    match q
    case CreateRole(name, attributes) =>
      Some(if name in c.roles then s else s.(cluster := c.(roles := c.roles[name := attributes])))
    case AlterRole(name, noInherit, password, limit) =>
      if name !in c.roles then None
      else Some(s.(cluster := c.(roles := c.roles[name := Altered(c.roles[name], noInherit, password, limit)])))
    case GrantRole(role, member) =>
      if role !in c.roles || member !in c.roles then None
      else Some(s.(cluster := c.(members := c.members + {(member, role)})))
    case SetStartRole(name, role) =>
      if name !in c.roles || role !in c.roles then None
      else Some(s.(cluster := c.(roles := c.roles[name := c.roles[name].(startRole := Some(role))])))
    case CreateDatabase(db, owner) =>
      if db in c.dbs then Some(s)
      else if owner !in c.roles then None
      else Some(WithDb(s, db, EmptyDatabase(owner)))
    case RevokePublic(db) =>
      if db !in c.dbs then None else Some(WithDb(s, db, c.dbs[db].(public := false)))
    case GrantConnect(db, role, create) =>
      if db !in c.dbs || role !in c.roles then None
      else Some(WithDb(s, db, c.dbs[db].(connect := c.dbs[db].connect + {role},
                                         makers := if create then c.dbs[db].makers + {role} else c.dbs[db].makers)))
    case Connect(db) =>
      if db !in c.dbs then None else Some(s.(db := db))
    case CreateExtension(extension) =>
      if s.db !in c.dbs then None
      else Some(WithDb(s, s.db, c.dbs[s.db].(extensions := c.dbs[s.db].extensions + {extension})))
    case GrantCreateOnPublic(role) =>
      if s.db !in c.dbs || role !in c.roles then None
      else Some(WithDb(s, s.db, c.dbs[s.db].(creators := c.dbs[s.db].creators + {role})))
    case CreateSchema(schema, owner) =>
      if owner !in c.roles then None
      else Some(if (s.db, schema) in c.schemas then s else WithSchema(s, schema, EmptySchema(owner)))
    case SetSchemaOwner(schema, owner) =>
      if (s.db, schema) !in c.schemas || owner !in c.roles then None
      else Some(WithSchema(s, schema, c.schemas[(s.db, schema)].(owner := owner)))
    case GrantUsage(schema, roles) =>
      if (s.db, schema) !in c.schemas || !(roles <= c.roles.Keys) then None
      else Some(WithSchema(s, schema, c.schemas[(s.db, schema)].(usage := c.schemas[(s.db, schema)].usage + roles)))
    case GrantDefaultSelect(schema, role) =>
      if (s.db, schema) !in c.schemas || role !in c.roles then None
      else
        var now := c.schemas[(s.db, schema)];
        Some(WithSchema(s, schema, now.(defaults := now.defaults + {role})))
    case GrantSelect(schema, role) =>
      if (s.db, schema) !in c.schemas || role !in c.roles then None
      else
        var now := c.schemas[(s.db, schema)];
        Some(WithSchema(s, schema, now.(tables := map t | t in now.tables :: now.tables[t] + {role})))
    case RevokeDefaultSelect(schema, role) =>
      if (s.db, schema) !in c.schemas || role !in c.roles then None
      else
        var now := c.schemas[(s.db, schema)];
        Some(WithSchema(s, schema, now.(defaults := now.defaults - {role})))
    case RevokeSelect(schema, role) =>
      if (s.db, schema) !in c.schemas || role !in c.roles then None
      else
        var now := c.schemas[(s.db, schema)];
        Some(WithSchema(s, schema, now.(tables := map t | t in now.tables :: now.tables[t] - {role})))
    case SetSearchPath(db, schema) =>
      if db !in c.dbs then None else Some(WithDb(s, db, c.dbs[db].(searchPath := Some(schema))))
    case CreatePreRequest(schema) =>
      if (s.db, schema) !in c.schemas then None
      else if c.schemas[(s.db, schema)].preRequest.Some? then Some(s)
      else Some(WithSchema(s, schema, c.schemas[(s.db, schema)].(preRequest := Some(Routine(SUPERUSER, {})))))
    case SetRoutineOwner(schema, owner) =>
      if (s.db, schema) !in c.schemas || c.schemas[(s.db, schema)].preRequest.None? || owner !in c.roles then None
      else
        var now := c.schemas[(s.db, schema)];
        Some(WithSchema(s, schema, now.(preRequest := Some(now.preRequest.value.(owner := owner)))))
    case GrantExecute(schema, roles) =>
      if (s.db, schema) !in c.schemas || c.schemas[(s.db, schema)].preRequest.None? || !(roles <= c.roles.Keys)
      then None
      else
        var now := c.schemas[(s.db, schema)];
        var routine := now.preRequest.value;
        Some(WithSchema(s, schema, now.(preRequest := Some(routine.(execute := routine.execute + roles)))))
  }

  function ExecAll(s: Session, script: seq<Statement>): Option<Session>
    decreases |script|
  {
    if script == [] then Some(s)
    else
      var next := Exec(s, script[0]);
      if next.None? then None else ExecAll(next.value, script[1..])
  }

  lemma {:induction false} ExecAllConcat(s: Session, a: seq<Statement>, b: seq<Statement>)
    ensures ExecAll(s, a + b) == if ExecAll(s, a).None? then None else ExecAll(ExecAll(s, a).value, b)
    decreases |a|
  {
    if a == [] {
      assert a + b == b;
    } else {
      assert (a + b)[1..] == a[1..] + b;
      if Exec(s, a[0]).Some? {
        ExecAllConcat(Exec(s, a[0]).value, a[1..], b);
      }
    }
  }

  /** `tenant.Database` as the script reads it; the connection limit is -1 when the tenant sets none. */
  datatype Tenant = Tenant(schema: string, extensions: seq<string>, limit: int, publicCreate: bool)

  /** globalRBACRolesSQL. */
  function GlobalScript(): seq<Statement> {
    var bucket := Role(false, true, "", -1, None);
    [CreateRole(OWNER, bucket), CreateRole(APP, bucket), CreateRole(ANON, bucket),
     CreateRole(WEB, bucket.(inherits := false)),
     GrantRole(OWNER, WEB), GrantRole(APP, WEB), GrantRole(ANON, WEB),
     GrantRole(APP, OWNER), GrantRole(ANON, OWNER)]
  }

  /** The statements before the database is created. */
  function RolesPart(id: string, password: string, authPassword: string, t: Tenant): seq<Statement> {
    [CreateRole(Login(id), Role(true, true, password, -1, None)),
     AlterRole(Login(id), false, password, Some(t.limit)),
     GrantRole(OWNER, Login(id)),
     SetStartRole(Login(id), OWNER),
     CreateRole(Auth(id), Role(true, false, authPassword, -1, None)),
     AlterRole(Auth(id), true, authPassword, None),
     GrantRole(WEB, Auth(id))]
  }

  function DatabasePart(id: string): seq<Statement> {
    [CreateDatabase(DbOf(id), Login(id)), RevokePublic(DbOf(id)),
     GrantConnect(DbOf(id), Login(id), true), GrantConnect(DbOf(id), Auth(id), false),
     Connect(DbOf(id))]
  }

  function ExtensionsPart(extensions: seq<string>): (r: seq<Statement>) {
    seq(|extensions|, i requires 0 <= i < |extensions| => CreateExtension(extensions[i]))
  }

  function SchemaPart(id: string, t: Tenant): seq<Statement> {
    (if t.publicCreate then [GrantCreateOnPublic(OWNER)] else []) +
    [CreateSchema(t.schema, OWNER), SetSchemaOwner(t.schema, OWNER), SetSearchPath(DbOf(id), t.schema),
     GrantUsage(t.schema, {APP, ANON, WEB}),
     GrantDefaultSelect(t.schema, OWNER), GrantDefaultSelect(t.schema, APP), GrantSelect(t.schema, APP),
     RevokeDefaultSelect(t.schema, ANON), RevokeSelect(t.schema, ANON),
     CreatePreRequest(t.schema), SetRoutineOwner(t.schema, OWNER), GrantExecute(t.schema, {WEB, ANON})]
  }

  /** tenantDatabaseSQL. */
  function TenantScript(id: string, password: string, authPassword: string, t: Tenant): seq<Statement> {
    RolesPart(id, password, authPassword, t) + DatabasePart(id) + ExtensionsPart(t.extensions) + SchemaPart(id, t)
  }

  method TenantDatabaseSQL(id: string, password: string, authPassword: string, t: Tenant)
    returns (stmts: seq<Statement>)
    ensures stmts == TenantScript(id, password, authPassword, t)
  {
    stmts := RolesPart(id, password, authPassword, t) + DatabasePart(id);
    for i := 0 to |t.extensions|
      invariant stmts == RolesPart(id, password, authPassword, t) + DatabasePart(id) + ExtensionsPart(t.extensions)[..i]
    {
      stmts := stmts + [CreateExtension(t.extensions[i])];
    }
    assert ExtensionsPart(t.extensions)[..|t.extensions|] == ExtensionsPart(t.extensions);
    stmts := stmts + SchemaPart(id, t);
  }

  /** The role the pre-request function switches to; None is its early return without claims. */
  function PreRequestRole(groups: Option<set<string>>): Option<string> {
    if groups.None? then None
    else if "admin" in groups.value || "dev" in groups.value then Some(OWNER)
    else if "apps" in groups.value then Some(APP)
    else Some(ANON)
  }
}
