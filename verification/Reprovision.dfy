/** Re-running provisioning: it never fails, changes nothing the second time, and leaves the grants it promises. */
module Reprovision {
  import opened Text
  import opened Grants
  import opened Isolation

  ghost predicate Owns(c: Cluster, db: string, schema: string) {
    (db, schema) in c.schemas
  }

  ghost predicate HasRoutine(c: Cluster, db: string, schema: string) {
    Owns(c, db, schema) && c.schemas[(db, schema)].preRequest.Some?
  }

  /** The statement, run in a session on `db`, has nothing left to do. */
  ghost predicate Settled(c: Cluster, db: string, q: Statement) {
    match q
    case CreateRole(name, _) => name in c.roles
    case AlterRole(name, noInherit, password, limit) =>
      name in c.roles && Altered(c.roles[name], noInherit, password, limit) == c.roles[name]
    case GrantRole(role, member) => role in c.roles && member in c.roles && (member, role) in c.members
    case SetStartRole(name, role) => name in c.roles && role in c.roles && c.roles[name].startRole == Some(role)
    case CreateDatabase(created, _) => created in c.dbs
    case RevokePublic(target) => target in c.dbs && !c.dbs[target].public
    case GrantConnect(target, role, create) =>
      target in c.dbs && role in c.roles && role in c.dbs[target].connect && (create ==> role in c.dbs[target].makers)
    case Connect(target) => target in c.dbs
    case CreateExtension(extension) => db in c.dbs && extension in c.dbs[db].extensions
    case GrantCreateOnPublic(role) => db in c.dbs && role in c.roles && role in c.dbs[db].creators
    case CreateSchema(schema, owner) => owner in c.roles && Owns(c, db, schema)
    case SetSchemaOwner(schema, owner) =>
      owner in c.roles && Owns(c, db, schema) && c.schemas[(db, schema)].owner == owner
    case GrantUsage(schema, roles) =>
      roles <= c.roles.Keys && Owns(c, db, schema) && roles <= c.schemas[(db, schema)].usage
    case GrantDefaultSelect(schema, role) =>
      role in c.roles && Owns(c, db, schema) && role in c.schemas[(db, schema)].defaults
    case GrantSelect(schema, role) =>
      role in c.roles && Owns(c, db, schema)
      && forall t :: t in c.schemas[(db, schema)].tables ==> role in c.schemas[(db, schema)].tables[t]
    case RevokeDefaultSelect(schema, role) =>
      role in c.roles && Owns(c, db, schema) && role !in c.schemas[(db, schema)].defaults
    case RevokeSelect(schema, role) =>
      role in c.roles && Owns(c, db, schema)
      && forall t :: t in c.schemas[(db, schema)].tables ==> role !in c.schemas[(db, schema)].tables[t]
    case SetSearchPath(target, schema) => target in c.dbs && c.dbs[target].searchPath == Some(schema)
    case CreatePreRequest(schema) => HasRoutine(c, db, schema)
    case SetRoutineOwner(schema, owner) =>
      owner in c.roles && HasRoutine(c, db, schema) && c.schemas[(db, schema)].preRequest.value.owner == owner
    case GrantExecute(schema, roles) =>
      roles <= c.roles.Keys && HasRoutine(c, db, schema) && roles <= c.schemas[(db, schema)].preRequest.value.execute
  }

  /** The session's database after the statement. */
  function After(db: string, q: Statement): string {
    if q.Connect? then q.db else db
  }

  lemma ExecSettles(s: Session, q: Statement)
    requires Exec(s, q).Some?
    ensures Settled(Exec(s, q).value.cluster, s.db, q)
    ensures Exec(s, q).value.db == After(s.db, q)
  {
  }

  lemma SameEntry<K, V>(m: map<K, V>, k: K)
    requires k in m
    ensures m[k := m[k]] == m
  {
  }

  lemma SettledIsIdle(s: Session, q: Statement)
    requires Settled(s.cluster, s.db, q)
    ensures Exec(s, q) == Some(Session(After(s.db, q), s.cluster))
  {
    var c := s.cluster;
    match q
    case GrantRole(role, member) => assert c.members + {(member, role)} == c.members;
    case GrantConnect(target, role, create) =>
      assert c.dbs[target].connect + {role} == c.dbs[target].connect;
      assert create ==> c.dbs[target].makers + {role} == c.dbs[target].makers;
      SameEntry(c.dbs, target);
    case CreateExtension(extension) =>
      assert c.dbs[s.db].extensions + {extension} == c.dbs[s.db].extensions;
      SameEntry(c.dbs, s.db);
    case GrantCreateOnPublic(role) =>
      assert c.dbs[s.db].creators + {role} == c.dbs[s.db].creators;
      SameEntry(c.dbs, s.db);
    case GrantUsage(schema, roles) =>
      assert c.schemas[(s.db, schema)].usage + roles == c.schemas[(s.db, schema)].usage;
      SameEntry(c.schemas, (s.db, schema));
    case GrantDefaultSelect(schema, role) =>
      assert c.schemas[(s.db, schema)].defaults + {role} == c.schemas[(s.db, schema)].defaults;
      SameEntry(c.schemas, (s.db, schema));
    case RevokeDefaultSelect(schema, role) =>
      assert c.schemas[(s.db, schema)].defaults - {role} == c.schemas[(s.db, schema)].defaults;
      SameEntry(c.schemas, (s.db, schema));
    case GrantSelect(schema, role) =>
      var now := c.schemas[(s.db, schema)];
      assert forall t :: t in now.tables ==> now.tables[t] + {role} == now.tables[t];
      assert (map t | t in now.tables :: now.tables[t] + {role}) == now.tables;
      SameEntry(c.schemas, (s.db, schema));
    case RevokeSelect(schema, role) =>
      var now := c.schemas[(s.db, schema)];
      assert forall t :: t in now.tables ==> now.tables[t] - {role} == now.tables[t];
      assert (map t | t in now.tables :: now.tables[t] - {role}) == now.tables;
      SameEntry(c.schemas, (s.db, schema));
    case AlterRole(name, _, _, _) => SameEntry(c.roles, name);
    case SetStartRole(name, _) => SameEntry(c.roles, name);
    case RevokePublic(target) => SameEntry(c.dbs, target);
    case SetSchemaOwner(schema, _) => SameEntry(c.schemas, (s.db, schema));
    case SetSearchPath(target, _) => SameEntry(c.dbs, target);
    case SetRoutineOwner(schema, _) => SameEntry(c.schemas, (s.db, schema));
    case GrantExecute(schema, roles) =>
      var routine := c.schemas[(s.db, schema)].preRequest.value;
      assert routine.execute + roles == routine.execute;
      SameEntry(c.schemas, (s.db, schema));
    case _ =>
  }

  /** Statement b can undo what statement a settled. */
  predicate Conflict(a: Statement, b: Statement) {
    || (a.AlterRole? && b.AlterRole? && a.name == b.name && a != b)
    || (a.SetStartRole? && b.SetStartRole? && a.name == b.name && a != b)
    || (a.SetSchemaOwner? && b.SetSchemaOwner? && a.schema == b.schema && a != b)
    || (a.SetRoutineOwner? && b.SetRoutineOwner? && a.schema == b.schema && a != b)
    || (a.SetSearchPath? && b.SetSearchPath? && a.db == b.db && a != b)
    || (a.GrantDefaultSelect? && b.RevokeDefaultSelect? && a.schema == b.schema && a.role == b.role)
    || (a.RevokeDefaultSelect? && b.GrantDefaultSelect? && a.schema == b.schema && a.role == b.role)
    || (a.GrantSelect? && b.RevokeSelect? && a.schema == b.schema && a.role == b.role)
    || (a.RevokeSelect? && b.GrantSelect? && a.schema == b.schema && a.role == b.role)
  }

  /** What a statement can do to a role that is there. */
  ghost predicate RoleEvolves(x: Role, y: Role, name: string, b: Statement) {
    || y == x
    || (b.AlterRole? && b.name == name && y == Altered(x, b.noInherit, b.password, b.limit))
    || (b.SetStartRole? && b.name == name && y == x.(startRole := Some(b.role)))
  }

  lemma RolesEvolve(s: Session, b: Statement)
    requires Exec(s, b).Some?
    ensures var c, d := s.cluster, Exec(s, b).value.cluster;
            && c.members <= d.members && c.roles.Keys <= d.roles.Keys
            && forall n :: n in c.roles ==> RoleEvolves(c.roles[n], d.roles[n], n, b)
  {
  }

  /** ... to a database */
  ghost predicate DbEvolves(x: Database, y: Database, name: string, b: Statement) {
    && (y.public ==> x.public) && x.connect <= y.connect && x.makers <= y.makers
    && x.extensions <= y.extensions && x.creators <= y.creators
    && (y.searchPath == x.searchPath || (b.SetSearchPath? && b.db == name && y.searchPath == Some(b.schema)))
  }

  lemma DbsEvolve(s: Session, b: Statement)
    requires Exec(s, b).Some?
    ensures var c, d := s.cluster, Exec(s, b).value.cluster;
            c.dbs.Keys <= d.dbs.Keys && forall n :: n in c.dbs ==> DbEvolves(c.dbs[n], d.dbs[n], n, b)
  {
  }

  /** ... to who may SELECT, as `given` and `taken` say of the statement */
  ghost predicate GranteesEvolve(x: set<string>, y: set<string>, given: bool, taken: bool, role: string) {
    forall r :: (r in x && !(taken && r == role) ==> r in y) && (r !in x && !(given && r == role) ==> r !in y)
  }

  ghost predicate RoutineEvolves(x: Option<Routine>, y: Option<Routine>, b: Statement, schema: string) {
    x.Some? ==>
      && y.Some? && x.value.execute <= y.value.execute
      && (y.value.owner == x.value.owner || (b.SetRoutineOwner? && b.schema == schema && y.value.owner == b.owner))
  }

  /** ... and to a schema. */
  ghost predicate SchemaEvolves(x: Schema, y: Schema, b: Statement, schema: string) {
    && x.usage <= y.usage && y.tables.Keys == x.tables.Keys && RoutineEvolves(x.preRequest, y.preRequest, b, schema)
    && (y.owner == x.owner || (b.SetSchemaOwner? && b.schema == schema && y.owner == b.owner))
    && (var given, taken := b.GrantDefaultSelect? && b.schema == schema, b.RevokeDefaultSelect? && b.schema == schema;
        GranteesEvolve(x.defaults, y.defaults, given, taken, if given || taken then b.role else ""))
    && (var given, taken := b.GrantSelect? && b.schema == schema, b.RevokeSelect? && b.schema == schema;
        forall t :: t in x.tables ==>
          GranteesEvolve(x.tables[t], y.tables[t], given, taken, if given || taken then b.role else ""))
  }

  /** Statements that settle something about one schema. */
  predicate OnSchema(a: Statement) {
    OnGrantees(a) || a.GrantUsage? || a.SetSchemaOwner? || a.CreatePreRequest? || a.SetRoutineOwner? || a.GrantExecute?
  }

  /** ... about who may SELECT in it. */
  predicate OnGrantees(a: Statement) {
    a.GrantSelect? || a.RevokeSelect? || a.GrantDefaultSelect? || a.RevokeDefaultSelect?
  }

  /** What a statement makes of the schema it is about. */
  ghost predicate Changes(x: Schema, y: Schema, b: Statement) {
    match b
    case GrantUsage(_, roles) => y == x.(usage := x.usage + roles)
    case SetSchemaOwner(_, owner) => y == x.(owner := owner)
    case GrantDefaultSelect(_, role) => y == x.(defaults := x.defaults + {role})
    case RevokeDefaultSelect(_, role) => y == x.(defaults := x.defaults - {role})
    case GrantSelect(_, role) => y == x.(tables := map t | t in x.tables :: x.tables[t] + {role})
    case RevokeSelect(_, role) => y == x.(tables := map t | t in x.tables :: x.tables[t] - {role})
    case CreatePreRequest(_) => x.preRequest.None? && y == x.(preRequest := Some(Routine(SUPERUSER, {})))
    case SetRoutineOwner(_, owner) =>
      x.preRequest.Some? && y == x.(preRequest := Some(x.preRequest.value.(owner := owner)))
    case GrantExecute(_, roles) =>
      x.preRequest.Some?
      && y == x.(preRequest := Some(x.preRequest.value.(execute := x.preRequest.value.execute + roles)))
    case _ => false
  }

  /** A statement leaves a schema as it is or changes it as it says. */
  lemma SchemaKeptOrChanged(s: Session, b: Statement, k: (string, string))
    requires Exec(s, b).Some? && k in s.cluster.schemas
    ensures k in Exec(s, b).value.cluster.schemas
    ensures var x, y := s.cluster.schemas[k], Exec(s, b).value.cluster.schemas[k];
            y == x || (OnSchema(b) && b.schema == k.1 && Changes(x, y, b))
  {
  }

  lemma ChangeEvolves(x: Schema, y: Schema, b: Statement)
    requires OnSchema(b) && Changes(x, y, b)
    ensures SchemaEvolves(x, y, b, b.schema)
  {
  }

  lemma KeptEvolves(x: Schema, b: Statement, schema: string)
    ensures SchemaEvolves(x, x, b, schema)
  {
  }

  lemma SchemasEvolve(s: Session, b: Statement, k: (string, string))
    requires Exec(s, b).Some? && k in s.cluster.schemas
    ensures k in Exec(s, b).value.cluster.schemas
    ensures SchemaEvolves(s.cluster.schemas[k], Exec(s, b).value.cluster.schemas[k], b, k.1)
  {
    SchemaKeptOrChanged(s, b, k);
    var x, y := s.cluster.schemas[k], Exec(s, b).value.cluster.schemas[k];
    if y == x {
      KeptEvolves(x, b, k.1);
    } else {
      ChangeEvolves(x, y, b);
    }
  }

  /** What a statement settled in a schema is settled in what the schema evolves to. */
  ghost predicate SettledIn(x: Schema, roles: set<string>, a: Statement)
    requires OnSchema(a)
  {
    match a
    case GrantUsage(_, users) => users <= roles && users <= x.usage
    case SetSchemaOwner(_, owner) => owner in roles && x.owner == owner
    case GrantDefaultSelect(_, role) => role in roles && role in x.defaults
    case RevokeDefaultSelect(_, role) => role in roles && role !in x.defaults
    case GrantSelect(_, role) => role in roles && forall t :: t in x.tables ==> role in x.tables[t]
    case RevokeSelect(_, role) => role in roles && forall t :: t in x.tables ==> role !in x.tables[t]
    case CreatePreRequest(_) => x.preRequest.Some?
    case SetRoutineOwner(_, owner) => owner in roles && x.preRequest.Some? && x.preRequest.value.owner == owner
    case GrantExecute(_, users) => users <= roles && x.preRequest.Some? && users <= x.preRequest.value.execute
  }

  lemma SettledIsIn(c: Cluster, db: string, a: Statement)
    requires OnSchema(a)
    ensures Settled(c, db, a)
       <==> (db, a.schema) in c.schemas && SettledIn(c.schemas[(db, a.schema)], c.roles.Keys, a)
  {
  }

  lemma GranteesSettledStay(x: Schema, y: Schema, roles: set<string>, more: set<string>, a: Statement, b: Statement)
    requires OnGrantees(a) && SettledIn(x, roles, a) && roles <= more
    requires SchemaEvolves(x, y, b, a.schema) && !Conflict(a, b)
    ensures SettledIn(y, more, a)
  {
  }

  lemma SettledInStays(x: Schema, y: Schema, roles: set<string>, more: set<string>, a: Statement, b: Statement)
    requires OnSchema(a) && SettledIn(x, roles, a) && roles <= more
    requires SchemaEvolves(x, y, b, a.schema) && !Conflict(a, b)
    ensures SettledIn(y, more, a)
  {
    if OnGrantees(a) {
      GranteesSettledStay(x, y, roles, more, a, b);
    }
  }

  lemma SchemaSettledStays(s: Session, b: Statement, db: string, a: Statement)
    requires OnSchema(a) && Settled(s.cluster, db, a) && Exec(s, b).Some? && !Conflict(a, b)
    ensures Settled(Exec(s, b).value.cluster, db, a)
  {
    var c, d := s.cluster, Exec(s, b).value.cluster;
    var k := (db, a.schema);
    SettledIsIn(c, db, a);
    SettledIsIn(d, db, a);
    RolesEvolve(s, b);
    SchemasEvolve(s, b, k);
    SettledInStays(c.schemas[k], d.schemas[k], c.roles.Keys, d.roles.Keys, a, b);
  }

  predicate OnRole(a: Statement) {
    a.CreateRole? || a.AlterRole? || a.GrantRole? || a.SetStartRole?
  }

  lemma RoleSettledStays(s: Session, b: Statement, db: string, a: Statement)
    requires OnRole(a) && Settled(s.cluster, db, a) && Exec(s, b).Some? && !Conflict(a, b)
    ensures Settled(Exec(s, b).value.cluster, db, a)
  {
    RolesEvolve(s, b);
  }

  lemma OtherSettledStays(s: Session, b: Statement, db: string, a: Statement)
    requires !OnSchema(a) && !OnRole(a) && Settled(s.cluster, db, a) && Exec(s, b).Some? && !Conflict(a, b)
    ensures Settled(Exec(s, b).value.cluster, db, a)
  {
    RolesEvolve(s, b);
    DbsEvolve(s, b);
    if a.CreateSchema? {
      SchemasEvolve(s, b, (db, a.schema));
    }
  }

  lemma SettledStays(s: Session, b: Statement, db: string, a: Statement)
    requires Settled(s.cluster, db, a) && Exec(s, b).Some? && !Conflict(a, b)
    ensures Settled(Exec(s, b).value.cluster, db, a)
  {
    if OnSchema(a) {
      SchemaSettledStays(s, b, db, a);
    } else if OnRole(a) {
      RoleSettledStays(s, b, db, a);
    } else {
      OtherSettledStays(s, b, db, a);
    }
  }

  /** Every statement of the script, each in the database it runs in, has nothing left to do. */
  ghost predicate AllSettled(c: Cluster, db: string, script: seq<Statement>)
    decreases |script|
  {
    script != [] ==> Settled(c, db, script[0]) && AllSettled(c, After(db, script[0]), script[1..])
  }

  ghost predicate Agree(a: seq<Statement>, b: seq<Statement>) {
    forall i, j :: 0 <= i < |a| && 0 <= j < |b| ==> !Conflict(a[i], b[j])
  }

  lemma {:induction false} AllSettledStays(s: Session, b: Statement, db: string, script: seq<Statement>)
    requires AllSettled(s.cluster, db, script) && Exec(s, b).Some? && Agree(script, [b])
    ensures AllSettled(Exec(s, b).value.cluster, db, script)
    decreases |script|
  {
    if script != [] {
      assert !Conflict(script[0], [b][0]);
      SettledStays(s, b, db, script[0]);
      AllSettledStays(s, b, After(db, script[0]), script[1..]);
    }
  }

  /** What one script settled, an agreeing one leaves settled. */
  lemma {:induction false} AllSettledThrough(s: Session, other: seq<Statement>, db: string, script: seq<Statement>)
    requires AllSettled(s.cluster, db, script) && ExecAll(s, other).Some? && Agree(script, other)
    ensures AllSettled(ExecAll(s, other).value.cluster, db, script)
    decreases |other|
  {
    if other != [] {
      AllSettledStays(s, other[0], db, script);
      AllSettledThrough(Exec(s, other[0]).value, other[1..], db, script);
    }
  }

  /** A complete script settles all of its statements. */
  lemma {:induction false} RunSettles(s: Session, script: seq<Statement>)
    requires ExecAll(s, script).Some? && Agree(script, script)
    ensures AllSettled(ExecAll(s, script).value.cluster, s.db, script)
    decreases |script|
  {
    if script != [] {
      ExecSettles(s, script[0]);
      var next := Exec(s, script[0]).value;
      RunSettles(next, script[1..]);
      assert [script[0]][1..] == [];
      assert AllSettled(next.cluster, s.db, [script[0]]);
      assert Agree([script[0]], script[1..]);
      AllSettledThrough(next, script[1..], s.db, [script[0]]);
    }
  }

  lemma {:induction false} SettledScriptIsIdle(s: Session, script: seq<Statement>)
    requires AllSettled(s.cluster, s.db, script)
    ensures ExecAll(s, script).Some? && ExecAll(s, script).value.cluster == s.cluster
    decreases |script|
  {
    if script != [] {
      SettledIsIdle(s, script[0]);
      SettledScriptIsIdle(Exec(s, script[0]).value, script[1..]);
    }
  }

  lemma {:induction false} SettledNth(c: Cluster, db: string, script: seq<Statement>, i: nat)
    requires AllSettled(c, db, script) && i < |script|
    requires forall j :: 0 <= j < i ==> !script[j].Connect?
    ensures Settled(c, db, script[i])
    decreases |script|
  {
    if i > 0 {
      assert !script[0].Connect?;
      SettledNth(c, db, script[1..], i - 1);
    }
  }

  /** The part behind a connect command is settled in the database connected to. */
  lemma {:induction false} SettledBehindConnect(c: Cluster, db: string, a: seq<Statement>, target: string,
                                                b: seq<Statement>)
    requires AllSettled(c, db, a + ([Connect(target)] + b))
    ensures AllSettled(c, target, b)
    decreases |a|
  {
    var script := a + ([Connect(target)] + b);
    if a == [] {
      assert script[0] == Connect(target) && script[1..] == b;
    } else {
      assert script[1..] == a[1..] + ([Connect(target)] + b);
      SettledBehindConnect(c, After(db, a[0]), a[1..], target, b);
    }
  }

  /** The statements of either script that could undo another's work always say the same thing. */
  ghost predicate Typical(job: Job, q: Statement) {
    match q
    case AlterRole(name, _, _, _) =>
      job.Provision?
      && (q == AlterRole(Login(job.id), false, job.password, Some(job.tenant.limit))
          || q == AlterRole(Auth(job.id), true, job.authPassword, None))
    case SetStartRole(name, role) => role == OWNER
    case SetSchemaOwner(_, owner) => owner == OWNER
    case SetRoutineOwner(_, owner) => owner == OWNER
    case SetSearchPath(_, _) => job.Provision? && q == SetSearchPath(DbOf(job.id), job.tenant.schema)
    case GrantDefaultSelect(_, role) => role != ANON
    case GrantSelect(_, role) => role != ANON
    case RevokeDefaultSelect(_, role) => role == ANON
    case RevokeSelect(_, role) => role == ANON
    case _ => true
  }

  ghost predicate AllTypical(job: Job, script: seq<Statement>) {
    forall i :: 0 <= i < |script| ==> Typical(job, script[i])
  }

  lemma RolesAreTypical(job: Job)
    requires job.Provision?
    ensures AllTypical(job, RolesPart(job.id, job.password, job.authPassword, job.tenant))
  {
  }

  lemma SchemaIsTypical(job: Job)
    requires job.Provision?
    ensures AllTypical(job, SchemaPart(job.id, job.tenant))
  {
  }

  lemma JobIsTypical(job: Job)
    ensures AllTypical(job, JobScript(job))
  {
    if job.Provision? {
      RolesAreTypical(job);
      assert AllTypical(job, DatabasePart(job.id));
      assert AllTypical(job, ExtensionsPart(job.tenant.extensions));
      SchemaIsTypical(job);
    }
  }

  /** The jobs come from one workspace: a tenant's parameters do not change between them. */
  ghost predicate SameWorkspace(a: Job, b: Job) {
    a.Provision? && b.Provision? && a.id == b.id ==> a == b
  }

  lemma JobsAgree(a: Job, b: Job)
    requires SameWorkspace(a, b)
    ensures Agree(JobScript(a), JobScript(b))
  {
    JobIsTypical(a);
    JobIsTypical(b);
    if a.Provision? && b.Provision? {
      TenantRolesAreDistinct(a.id, b.id);
      TenantRolesAreDistinct(b.id, a.id);
    }
    forall i, j | 0 <= i < |JobScript(a)| && 0 <= j < |JobScript(b)|
      ensures !Conflict(JobScript(a)[i], JobScript(b)[j])
    {
      assert Typical(a, JobScript(a)[i]) && Typical(b, JobScript(b)[j]);
    }
  }

  ghost predicate Workspace(jobs: seq<Job>) {
    forall i, j :: 0 <= i < |jobs| && 0 <= j < |jobs| ==> SameWorkspace(jobs[i], jobs[j])
  }

  lemma {:induction false} JobsKeepSettled(c: Cluster, jobs: seq<Job>, job: Job)
    requires RunJobs(c, jobs).Some? && forall i :: 0 <= i < |jobs| ==> SameWorkspace(job, jobs[i])
    requires AllSettled(c, "postgres", JobScript(job))
    ensures AllSettled(RunJobs(c, jobs).value, "postgres", JobScript(job))
    decreases |jobs|
  {
    if jobs != [] {
      var s := Session("postgres", c);
      JobsAgree(job, jobs[0]);
      AllSettledThrough(s, JobScript(jobs[0]), "postgres", JobScript(job));
      JobsKeepSettled(ExecAll(s, JobScript(jobs[0])).value.cluster, jobs[1..], job);
    }
  }

  /** After any run of jobs, every job of the run is settled. */
  lemma {:induction false} RunSettlesEachJob(c: Cluster, jobs: seq<Job>, k: nat)
    requires k < |jobs| && Workspace(jobs) && RunJobs(c, jobs).Some?
    ensures AllSettled(RunJobs(c, jobs).value, "postgres", JobScript(jobs[k]))
    decreases |jobs|
  {
    var s := Session("postgres", c);
    var next := ExecAll(s, JobScript(jobs[0])).value.cluster;
    if k == 0 {
      JobsAgree(jobs[0], jobs[0]);
      RunSettles(s, JobScript(jobs[0]));
      JobsKeepSettled(next, jobs[1..], jobs[0]);
    } else {
      RunSettlesEachJob(next, jobs[1..], k - 1);
    }
  }

  /** Re-running any job of a finished run succeeds and leaves the cluster exactly as it is. */
  lemma RerunChangesNothing(c: Cluster, jobs: seq<Job>, k: nat)
    requires k < |jobs| && Workspace(jobs) && RunJobs(c, jobs).Some?
    ensures RunJobs(RunJobs(c, jobs).value, [jobs[k]]) == Some(RunJobs(c, jobs).value)
  {
    RunSettlesEachJob(c, jobs, k);
    SettledScriptIsIdle(Session("postgres", RunJobs(c, jobs).value), JobScript(jobs[k]));
    assert [jobs[k]][1..] == [];
  }

  /** What a provisioned tenant's session may become and reach. */
  ghost predicate Provisioned(c: Cluster, id: string) {
    && BucketsLinked(c)
    && (Login(id), OWNER) in c.members && (Auth(id), WEB) in c.members
    && DbOf(id) in c.dbs && Login(id) in c.dbs[DbOf(id)].connect && Auth(id) in c.dbs[DbOf(id)].connect
  }

  lemma ScriptHead(job: Job)
    requires job.Provision?
    ensures var p := JobScript(job);
            && |p| > 11
            && (forall i :: 0 <= i < 11 ==> !p[i].Connect?)
            && p[2] == GrantRole(OWNER, Login(job.id))
            && p[6] == GrantRole(WEB, Auth(job.id))
            && p[9] == GrantConnect(DbOf(job.id), Login(job.id), true)
            && p[10] == GrantConnect(DbOf(job.id), Auth(job.id), false)
  {
    var head := RolesPart(job.id, job.password, job.authPassword, job.tenant) + DatabasePart(job.id);
    assert |head| == 12;
    assert head[9] == DatabasePart(job.id)[2] && head[10] == DatabasePart(job.id)[3];
    assert JobScript(job)[..12] == head;
    assert forall i :: 0 <= i < 12 ==> JobScript(job)[i] == head[i];
  }

  lemma NthGrant(c: Cluster, db: string, script: seq<Statement>, i: nat, role: string, member: string)
    requires AllSettled(c, db, script) && i < |script| && script[i] == GrantRole(role, member)
    requires forall j :: 0 <= j < i ==> !script[j].Connect?
    ensures role in c.roles && member in c.roles && (member, role) in c.members
  {
    SettledNth(c, db, script, i);
  }

  lemma NthConnectGrant(c: Cluster, db: string, script: seq<Statement>, i: nat, target: string, role: string)
    requires AllSettled(c, db, script) && i < |script| && script[i].GrantConnect?
    requires script[i].db == target && script[i].role == role
    requires forall j :: 0 <= j < i ==> !script[j].Connect?
    ensures target in c.dbs && role in c.dbs[target].connect
  {
    SettledNth(c, db, script, i);
  }

  lemma GlobalHead()
    ensures var g := GlobalScript();
            && |g| == 9 && (forall j :: 0 <= j < 9 ==> !g[j].Connect?)
            && g[4..] == [GrantRole(OWNER, WEB), GrantRole(APP, WEB), GrantRole(ANON, WEB),
                          GrantRole(APP, OWNER), GrantRole(ANON, OWNER)]
  {
  }

  ghost predicate BucketsLinked(c: Cluster) {
    && OWNER in c.roles && APP in c.roles && ANON in c.roles && WEB in c.roles
    && (WEB, OWNER) in c.members && (WEB, APP) in c.members && (WEB, ANON) in c.members
    && (OWNER, APP) in c.members && (OWNER, ANON) in c.members
  }

  lemma GlobalIsSettled(c: Cluster, g: seq<Statement>)
    requires AllSettled(c, "postgres", g) && |g| == 9 && forall j :: 0 <= j < 9 ==> !g[j].Connect?
    requires g[4..] == [GrantRole(OWNER, WEB), GrantRole(APP, WEB), GrantRole(ANON, WEB),
                        GrantRole(APP, OWNER), GrantRole(ANON, OWNER)]
    ensures BucketsLinked(c)
  {
    assert forall i :: 4 <= i < 9 ==> g[i] == g[4..][i - 4];
    NthGrant(c, "postgres", g, 4, OWNER, WEB);
    NthGrant(c, "postgres", g, 5, APP, WEB);
    NthGrant(c, "postgres", g, 6, ANON, WEB);
    NthGrant(c, "postgres", g, 7, APP, OWNER);
    NthGrant(c, "postgres", g, 8, ANON, OWNER);
  }

  lemma TenantIsSettled(c: Cluster, id: string, p: seq<Statement>)
    requires AllSettled(c, "postgres", p) && |p| > 11 && forall i :: 0 <= i < 11 ==> !p[i].Connect?
    requires p[2] == GrantRole(OWNER, Login(id)) && p[6] == GrantRole(WEB, Auth(id))
    requires p[9] == GrantConnect(DbOf(id), Login(id), true) && p[10] == GrantConnect(DbOf(id), Auth(id), false)
    ensures (Login(id), OWNER) in c.members && (Auth(id), WEB) in c.members
    ensures DbOf(id) in c.dbs && Login(id) in c.dbs[DbOf(id)].connect && Auth(id) in c.dbs[DbOf(id)].connect
  {
    NthGrant(c, "postgres", p, 2, OWNER, Login(id));
    NthGrant(c, "postgres", p, 6, WEB, Auth(id));
    NthConnectGrant(c, "postgres", p, 9, DbOf(id), Login(id));
    NthConnectGrant(c, "postgres", p, 10, DbOf(id), Auth(id));
  }

  lemma SettledIsProvisioned(c: Cluster, job: Job)
    requires job.Provision?
    requires AllSettled(c, "postgres", GlobalScript()) && AllSettled(c, "postgres", JobScript(job))
    ensures Provisioned(c, job.id)
  {
    GlobalHead();
    GlobalIsSettled(c, GlobalScript());
    ScriptHead(job);
    TenantIsSettled(c, job.id, JobScript(job));
  }

  lemma TwoHops(members: set<(string, string)>, a: string, b: string, d: string)
    requires (a, b) in members && (b, d) in members
    ensures Reaches(members, a, d)
  {
    assert IsChain(members, [a, b, d]);
  }

  /** Every role the pre-request function can select is reachable from <id>_auth, and mksrv_app from <id>_login. */
  lemma RequestRolesAreReachable(c: Cluster, id: string, groups: Option<set<string>>)
    requires Provisioned(c, id)
    ensures PreRequestRole(groups).Some? ==> Reaches(c.members, Auth(id), PreRequestRole(groups).value)
    ensures Reaches(c.members, Login(id), APP)
  {
    TwoHops(c.members, Auth(id), WEB, OWNER);
    TwoHops(c.members, Auth(id), WEB, APP);
    TwoHops(c.members, Auth(id), WEB, ANON);
    TwoHops(c.members, Login(id), OWNER, APP);
  }

  lemma HomeIsOpen(c: Cluster, id: string, role: string)
    requires Provisioned(c, id) && (role == Login(id) || role == Auth(id))
    ensures CanConnect(c, role, DbOf(id))
  {
    assert IsChain(c.members, [role]);
    assert Reaches(c.members, role, role);
  }

  /** After a run, a tenant role connects to a tenant database exactly when both are the same tenant's. */
  lemma ConnectExactlyHome(c: Cluster, jobs: seq<Job>, k: nat, g: nat, other: string, role: string)
    requires KeptApart(c, None) && Workspace(jobs) && RunJobs(c, jobs).Some?
    requires k < |jobs| && jobs[k].Provision? && g < |jobs| && jobs[g].Global?
    requires role == jobs[k].id + "_login" || role == jobs[k].id + "_auth"
    ensures CanConnect(RunJobs(c, jobs).value, role, "db_" + other) <==> other == jobs[k].id
  {
    var after := RunJobs(c, jobs).value;
    JobsKeepApart(c, jobs);
    if CanConnect(after, role, DbOf(other)) {
      TenantsAreIsolated(after, jobs[k].id, role, other);
    }
    if other == jobs[k].id {
      RunSettlesEachJob(c, jobs, k);
      RunSettlesEachJob(c, jobs, g);
      SettledIsProvisioned(after, jobs[k]);
      HomeIsOpen(after, other, role);
    }
  }

  /** The tables of the application schema are readable by mksrv_app and not by mksrv_anon, now and by default. */
  ghost predicate AnonHealed(s: Schema) {
    SelectMoved(s, "mksrv_app", "mksrv_anon")
  }

  ghost predicate SelectMoved(s: Schema, reader: string, other: string) {
    && reader in s.defaults && other !in s.defaults
    && forall t :: t in s.tables ==> reader in s.tables[t] && other !in s.tables[t]
  }

  /** The statements behind the connect command; they settle who may SELECT. */
  function BehindConnect(id: string, t: Tenant): seq<Statement> {
    ExtensionsPart(t.extensions) + SchemaPart(id, t)
  }

  lemma ScriptAroundConnect(job: Job) returns (before: seq<Statement>)
    requires job.Provision?
    ensures JobScript(job) == before + ([Connect(DbOf(job.id))] + BehindConnect(job.id, job.tenant))
  {
    before := RolesPart(job.id, job.password, job.authPassword, job.tenant) + DatabasePart(job.id)[..4];
    assert DatabasePart(job.id) == DatabasePart(job.id)[..4] + [Connect(DbOf(job.id))];
  }

  predicate MovesSelect(rest: seq<Statement>, schema: string, reader: string, other: string) {
    && |rest| >= 7 && (forall j :: 0 <= j < |rest| ==> !rest[j].Connect?)
    && rest[|rest| - 7] == GrantDefaultSelect(schema, reader) && rest[|rest| - 6] == GrantSelect(schema, reader)
    && rest[|rest| - 5] == RevokeDefaultSelect(schema, other) && rest[|rest| - 4] == RevokeSelect(schema, other)
  }

  lemma LastStatements(id: string, t: Tenant)
    ensures MovesSelect(BehindConnect(id, t), t.schema, APP, ANON)
  {
  }

  /** What a tenant's script settles in its own database. */
  lemma TenantSchemaIsSettled(c: Cluster, jobs: seq<Job>, k: nat)
    requires Workspace(jobs) && RunJobs(c, jobs).Some? && k < |jobs| && jobs[k].Provision?
    ensures AllSettled(RunJobs(c, jobs).value, DbOf(jobs[k].id), BehindConnect(jobs[k].id, jobs[k].tenant))
  {
    RunSettlesEachJob(c, jobs, k);
    var before := ScriptAroundConnect(jobs[k]);
    SettledBehindConnect(RunJobs(c, jobs).value, "postgres", before, DbOf(jobs[k].id),
                         BehindConnect(jobs[k].id, jobs[k].tenant));
  }

  /** ... whatever an earlier release granted mksrv_anon there. */
  lemma AnonIsHealed(c: Cluster, jobs: seq<Job>, k: nat)
    requires Workspace(jobs) && RunJobs(c, jobs).Some? && k < |jobs| && jobs[k].Provision?
    ensures var after := RunJobs(c, jobs).value;
            var key := ("db_" + jobs[k].id, jobs[k].tenant.schema);
            key in after.schemas && AnonHealed(after.schemas[key])
  {
    TenantSchemaIsSettled(c, jobs, k);
    LastStatements(jobs[k].id, jobs[k].tenant);
    SettledMeansHealed(RunJobs(c, jobs).value, DbOf(jobs[k].id), jobs[k].tenant.schema,
                       BehindConnect(jobs[k].id, jobs[k].tenant), APP, ANON);
  }

  lemma SettledMeansHealed(c: Cluster, db: string, schema: string, rest: seq<Statement>, reader: string, other: string)
    requires AllSettled(c, db, rest) && MovesSelect(rest, schema, reader, other)
    ensures (db, schema) in c.schemas && SelectMoved(c.schemas[(db, schema)], reader, other)
  {
    SettledNth(c, db, rest, |rest| - 7);
    SettledNth(c, db, rest, |rest| - 6);
    SettledNth(c, db, rest, |rest| - 5);
    SettledNth(c, db, rest, |rest| - 4);
  }

  /**
   * The schema is mksrv_owner's, with all rights on future tables; the three roles below can use it, and PostgREST's
   * two call its pre-request function, which mksrv_owner owns, not the superuser.
   */
  ghost predicate RoutineReady(s: Schema) {
    && s.owner == "mksrv_owner" && "mksrv_owner" in s.defaults
    && {"mksrv_app", "mksrv_anon", "mksrv_web"} <= s.usage && s.preRequest.Some?
    && s.preRequest.value.owner == "mksrv_owner" && {"mksrv_web", "mksrv_anon"} <= s.preRequest.value.execute
  }

  /** After a run the pre-request function of each tenant is there and can be called, as the search path leads to it. */
  lemma RoutineIsReady(c: Cluster, jobs: seq<Job>, k: nat)
    requires Workspace(jobs) && RunJobs(c, jobs).Some? && k < |jobs| && jobs[k].Provision?
    ensures var after := RunJobs(c, jobs).value;
            var db, t := "db_" + jobs[k].id, jobs[k].tenant;
            && (db, t.schema) in after.schemas && RoutineReady(after.schemas[(db, t.schema)])
            && db in after.dbs && after.dbs[db].searchPath == Some(t.schema)
  {
    TenantSchemaIsSettled(c, jobs, k);
    RoutineStatements(jobs[k].id, jobs[k].tenant);
    SettledMeansReady(RunJobs(c, jobs).value, DbOf(jobs[k].id), jobs[k].tenant.schema,
                      BehindConnect(jobs[k].id, jobs[k].tenant), {APP, ANON, WEB}, {WEB, ANON}, OWNER);
    OwnerStatements(jobs[k].id, jobs[k].tenant);
    SettledMeansOwned(RunJobs(c, jobs).value, DbOf(jobs[k].id), jobs[k].tenant.schema,
                      BehindConnect(jobs[k].id, jobs[k].tenant), OWNER);
  }

  predicate OwnsSchema(rest: seq<Statement>, schema: string, owner: string) {
    && |rest| >= 11 && (forall j :: 0 <= j < |rest| ==> !rest[j].Connect?)
    && rest[|rest| - 11] == SetSchemaOwner(schema, owner) && rest[|rest| - 8] == GrantDefaultSelect(schema, owner)
  }

  lemma SettledMeansOwned(c: Cluster, db: string, schema: string, rest: seq<Statement>, owner: string)
    requires AllSettled(c, db, rest) && OwnsSchema(rest, schema, owner)
    ensures (db, schema) in c.schemas
    ensures c.schemas[(db, schema)].owner == owner && owner in c.schemas[(db, schema)].defaults
  {
    SettledNth(c, db, rest, |rest| - 11);
    SettledNth(c, db, rest, |rest| - 8);
  }

  predicate ReadiesRoutine(rest: seq<Statement>, db: string, schema: string, users: set<string>, callers: set<string>,
                           owner: string) {
    && |rest| >= 10 && (forall j :: 0 <= j < |rest| ==> !rest[j].Connect?)
    && rest[|rest| - 10] == SetSearchPath(db, schema) && rest[|rest| - 9] == GrantUsage(schema, users)
    && rest[|rest| - 2] == SetRoutineOwner(schema, owner) && rest[|rest| - 1] == GrantExecute(schema, callers)
  }

  lemma RoutineStatements(id: string, t: Tenant)
    ensures ReadiesRoutine(BehindConnect(id, t), DbOf(id), t.schema, {APP, ANON, WEB}, {WEB, ANON}, OWNER)
  {
  }

  lemma OwnerStatements(id: string, t: Tenant)
    ensures OwnsSchema(BehindConnect(id, t), t.schema, OWNER)
  {
  }

  lemma SettledMeansReady(c: Cluster, db: string, schema: string, rest: seq<Statement>, users: set<string>,
                          callers: set<string>, owner: string)
    requires AllSettled(c, db, rest) && ReadiesRoutine(rest, db, schema, users, callers, owner)
    ensures (db, schema) in c.schemas && HasRoutine(c, db, schema)
    ensures var s := c.schemas[(db, schema)];
            users <= s.usage && s.preRequest.value.owner == owner && callers <= s.preRequest.value.execute
    ensures db in c.dbs && c.dbs[db].searchPath == Some(schema)
  {
    SettledNth(c, db, rest, |rest| - 10);
    SettledNth(c, db, rest, |rest| - 9);
    SettledNth(c, db, rest, |rest| - 2);
    SettledNth(c, db, rest, |rest| - 1);
  }
}
