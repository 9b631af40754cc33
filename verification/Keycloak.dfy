/** The realm state a Keycloak server holds and the requests mksrv sends it (internal/keycloak). */
module Keycloak {
  import opened Text

  type Id = nat

  datatype Smtp = Smtp(host: string, port: int, sender: string, senderName: string, user: string, password: string)

  datatype ClientSpec = ClientSpec(
    clientId: string,
    publicClient: bool,
    redirectUris: seq<string>,
    webOrigins: Option<seq<string>>,
    hardcodedClaims: map<string, string>,
    groupsClaim: bool)

  datatype RealmSpec = RealmSpec(
    realm: string,
    displayName: string,
    groups: seq<string>,
    clients: seq<ClientSpec>,
    adminGroup: string,
    loginTheme: string,
    smtp: Option<Smtp>)

  datatype Settings = Settings(displayName: string, loginTheme: string, smtp: Option<Smtp>, resetPassword: bool)

  datatype ClientBody = ClientBody(publicClient: bool, serviceAccounts: bool, redirectUris: seq<string>,
                                   webOrigins: seq<string>)

  datatype Mapper =
    | HardcodedClaim(claim: string, value: string)
    | GroupMembership
    | OtherMapper(kind: string)

  datatype Client = Client(body: ClientBody, mappers: map<string, Mapper>)

  /** Records under server-chosen ids, and the ids under their names. */
  datatype Table<R> = Table(ids: map<string, Id>, rows: map<Id, R>)

  ghost predicate ValidTable<R>(t: Table<R>, nextId: Id) {
    && (forall n :: n in t.ids ==> t.ids[n] in t.rows && t.ids[n] < nextId)
    && (forall a, b :: a in t.ids && b in t.ids && t.ids[a] == t.ids[b] ==> a == b)
  }

  /** The table with its ids forgotten. */
  ghost function ByName<R>(t: Table<R>): map<string, R>
    requires forall n :: n in t.ids ==> t.ids[n] in t.rows
  {
    map n | n in t.ids :: t.rows[t.ids[n]]
  }

  function AddRow<R>(t: Table<R>, name: string, id: Id, row: R): Table<R> {
    Table(t.ids[name := id], t.rows[id := row])
  }

  function SetRow<R>(t: Table<R>, id: Id, row: R): Table<R> {
    t.(rows := t.rows[id := row])
  }

  lemma AddRowByName<R>(t: Table<R>, name: string, id: Id, row: R)
    requires ValidTable(t, id) && name !in t.ids
    ensures ValidTable(AddRow(t, name, id, row), id + 1)
    ensures ByName(AddRow(t, name, id, row)) == ByName(t)[name := row]
  {
  }

  lemma SetRowByName<R>(t: Table<R>, nextId: Id, name: string, row: R)
    requires ValidTable(t, nextId) && name in t.ids
    ensures ValidTable(SetRow(t, t.ids[name], row), nextId)
    ensures ByName(SetRow(t, t.ids[name], row)) == ByName(t)[name := row]
  {
  }

  /** One realm as the server stores it. */
  datatype Realm = Realm(
    settings: Settings,
    groups: Table<set<string>>,
    clients: Table<Client>,
    managementRoles: set<string>,
    nextId: Id)

  /** The realm with the server-chosen ids forgotten. */
  datatype View = View(
    settings: Settings,
    groups: map<string, set<string>>,
    clients: map<string, Client>,
    managementRoles: set<string>)

  ghost predicate ValidRealm(r: Realm) {
    ValidTable(r.groups, r.nextId) && ValidTable(r.clients, r.nextId)
  }

  ghost function ViewOf(r: Realm): View
    requires ValidRealm(r)
  {
    View(r.settings, ByName(r.groups), ByName(r.clients), r.managementRoles)
  }

  /** The requests that change a realm. */
  datatype Request =
    | PutTheme(theme: string)
    | PutSmtp(smtp: Smtp)
    | PostGroup(name: string)
    | PostRoles(group: Id, roles: set<string>)
    | PostClient(clientId: string, body: ClientBody)
    | PutClient(uuid: Id, body: ClientBody)
    | PostMapper(uuid: Id, name: string, mapper: Mapper)

  /** What the server does with a request; None is an error reply (conflict or not found). */
  function Apply(r: Realm, q: Request): Option<Realm> {
    match q
    case PutTheme(theme) => Some(r.(settings := r.settings.(loginTheme := theme)))
    case PutSmtp(smtp) => Some(r.(settings := r.settings.(smtp := Some(smtp), resetPassword := true)))
    case PostGroup(name) =>
      if name in r.groups.ids then None
      else Some(r.(groups := AddRow(r.groups, name, r.nextId, {}), nextId := r.nextId + 1))
    case PostRoles(group, roles) =>
      if group !in r.groups.rows then None
      else Some(r.(groups := SetRow(r.groups, group, r.groups.rows[group] + roles)))
    case PostClient(clientId, body) =>
      if clientId in r.clients.ids then None
      else Some(r.(clients := AddRow(r.clients, clientId, r.nextId, Client(body, map[])), nextId := r.nextId + 1))
    case PutClient(uuid, body) =>
      if uuid !in r.clients.rows then None
      else Some(r.(clients := SetRow(r.clients, uuid, r.clients.rows[uuid].(body := body))))
    case PostMapper(uuid, name, mapper) =>
      if uuid !in r.clients.rows || name in r.clients.rows[uuid].mappers then None
      else
        var row := r.clients.rows[uuid];
        Some(r.(clients := SetRow(r.clients, uuid, row.(mappers := row.mappers[name := mapper]))))
  }

  /** The same request, with the id it carries replaced by the name that id stands for. */
  ghost function Effect(v: View, name: string, q: Request): View
    requires q.PostRoles? ==> name in v.groups
    requires q.PutClient? || q.PostMapper? ==> name in v.clients
  {
    match q
    case PutTheme(theme) => v.(settings := v.settings.(loginTheme := theme))
    case PutSmtp(smtp) => v.(settings := v.settings.(smtp := Some(smtp), resetPassword := true))
    case PostGroup(group) => v.(groups := v.groups[group := {}])
    case PostRoles(_, roles) => v.(groups := v.groups[name := v.groups[name] + roles])
    case PostClient(clientId, body) => v.(clients := v.clients[clientId := Client(body, map[])])
    case PutClient(_, body) => v.(clients := v.clients[name := v.clients[name].(body := body)])
    case PostMapper(_, key, mapper) =>
      v.(clients := v.clients[name := v.clients[name].(mappers := v.clients[name].mappers[key := mapper])])
  }

  ghost predicate Addresses(r: Realm, name: string, q: Request) {
    && (q.PostRoles? ==> name in r.groups.ids && r.groups.ids[name] == q.group)
    && (q.PutClient? || q.PostMapper? ==> name in r.clients.ids && r.clients.ids[name] == q.uuid)
  }

  /** Ids only route a request: on names, an accepted request has the effect it states, whatever ids were chosen. */
  lemma ApplyByName(r: Realm, name: string, q: Request)
    requires ValidRealm(r) && Addresses(r, name, q) && Apply(r, q).Some?
    ensures ValidRealm(Apply(r, q).value)
    ensures ViewOf(Apply(r, q).value) == Effect(ViewOf(r), name, q)
  {
    match q
    case PutTheme(_) =>
    case PutSmtp(_) =>
    case PostGroup(group) => AddRowByName(r.groups, group, r.nextId, {});
    case PostRoles(_, roles) => SetRowByName(r.groups, r.nextId, name, r.groups.rows[q.group] + roles);
    case PostClient(clientId, body) => AddRowByName(r.clients, clientId, r.nextId, Client(body, map[]));
    case PutClient(_, body) => SetRowByName(r.clients, r.nextId, name, r.clients.rows[q.uuid].(body := body));
    case PostMapper(_, key, mapper) =>
      var row := r.clients.rows[q.uuid];
      SetRowByName(r.clients, r.nextId, name, row.(mappers := row.mappers[key := mapper]));
  }
}
