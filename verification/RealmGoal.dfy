/** Where EnsureRealm takes a realm, stated without the order of its requests (internal/keycloak/reconcile.go). */
module RealmGoal {
  import opened Text
  import opened Keycloak

  /** `adminGroupRoles`. */
  const ADMIN_GROUP_ROLES := {"manage-users", "query-users", "query-groups", "view-users"}

  const MANAGEMENT := "realm-management"

  /** The request body of one client. */
  function Body(cs: ClientSpec): ClientBody {
    var origins := if cs.webOrigins.Some? then cs.webOrigins.value else ["+"];
    ClientBody(cs.publicClient, !cs.publicClient, cs.redirectUris, origins)
  }

  function MapperName(claim: string): (name: string)
    ensures |name| >= 6 && name[6..] == claim
  {
    "mksrv-" + claim
  }

  /** The mappers applyClaimMappers wants on one client, by name. */
  function WantedMappers(cs: ClientSpec): map<string, Mapper> {
    var names := set claim | claim in cs.hardcodedClaims :: MapperName(claim);
    var claims := map name | name in names :: HardcodedClaim(name[6..], cs.hardcodedClaims[name[6..]]);
    if cs.groupsClaim then claims["mksrv-groups" := GroupMembership] else claims
  }

  lemma HardcodedMapperIsWanted(cs: ClientSpec, claim: string)
    requires claim in cs.hardcodedClaims && (cs.groupsClaim ==> claim != "groups")
    ensures MapperName(claim) in WantedMappers(cs)
    ensures WantedMappers(cs)[MapperName(claim)] == HardcodedClaim(claim, cs.hardcodedClaims[claim])
  {
    assert "mksrv-groups"[6..] == "groups";
  }

  function ClientIds(clients: seq<ClientSpec>): (ids: seq<string>)
    ensures |ids| == |clients| && forall i :: 0 <= i < |clients| ==> ids[i] == clients[i].clientId
  {
    seq(|clients|, i requires 0 <= i < |clients| => clients[i].clientId)
  }

  /** Group, client and mapper names are distinct. */
  ghost predicate WellFormed(spec: RealmSpec) {
    && Distinct(spec.groups)
    && Distinct(ClientIds(spec.clients))
    && forall cs :: cs in spec.clients && cs.groupsClaim ==> "groups" !in cs.hardcodedClaims
  }

  ghost function SpecFor(spec: RealmSpec, id: string): (cs: ClientSpec)
    requires id in ClientIds(spec.clients)
    ensures cs in spec.clients && cs.clientId == id
  {
    var i :| 0 <= i < |spec.clients| && ClientIds(spec.clients)[i] == id;
    spec.clients[i]
  }

  lemma SpecForIndex(spec: RealmSpec, i: nat)
    requires WellFormed(spec) && i < |spec.clients|
    ensures spec.clients[i].clientId in ClientIds(spec.clients)
    ensures SpecFor(spec, spec.clients[i].clientId) == spec.clients[i]
  {
    assert ClientIds(spec.clients)[i] == spec.clients[i].clientId;
    var cs := SpecFor(spec, spec.clients[i].clientId);
    var j :| 0 <= j < |spec.clients| && spec.clients[j] == cs;
    assert ClientIds(spec.clients)[j] == ClientIds(spec.clients)[i];
  }

  ghost function GoalSettings(s: Settings, spec: RealmSpec): Settings {
    var themed := if spec.loginTheme != "" then s.(loginTheme := spec.loginTheme) else s;
    if spec.smtp.Some? then themed.(smtp := spec.smtp, resetPassword := true) else themed
  }

  ghost predicate GrantsAdmin(v: View, spec: RealmSpec) {
    spec.adminGroup != "" && MANAGEMENT in v.clients
  }

  ghost function RolesOf(v: View, group: string): set<string> {
    if group in v.groups then v.groups[group] else {}
  }

  ghost function GoalGroups(v: View, spec: RealmSpec): map<string, set<string>> {
    map g | g in v.groups.Keys + Members(spec.groups) ::
      if g == spec.adminGroup && GrantsAdmin(v, spec)
      then RolesOf(v, g) + (ADMIN_GROUP_ROLES * v.managementRoles)
      else RolesOf(v, g)
  }

  /** Whether grantTeamManagement finds what it needs; without it EnsureRealm returns an error before the clients. */
  ghost predicate Feasible(v: View, spec: RealmSpec) {
    spec.adminGroup == "" ||
    ((spec.adminGroup in v.groups || spec.adminGroup in spec.groups) && MANAGEMENT in v.clients)
  }

  ghost function MappersOf(v: View, id: string): map<string, Mapper> {
    if id in v.clients then v.clients[id].mappers else map[]
  }

  /** A mapper that is present by name keeps its old configuration. */
  ghost function GoalClient(v: View, spec: RealmSpec, id: string): Client
    requires id in v.clients || id in ClientIds(spec.clients)
  {
    if id in ClientIds(spec.clients) then
      var cs := SpecFor(spec, id);
      Client(Body(cs), WantedMappers(cs) + MappersOf(v, id))
    else v.clients[id]
  }

  ghost function GoalClients(v: View, spec: RealmSpec): map<string, Client> {
    if Feasible(v, spec)
    then map id | id in v.clients.Keys + Members(ClientIds(spec.clients)) :: GoalClient(v, spec, id)
    else v.clients
  }

  ghost function Goal(v: View, spec: RealmSpec): View {
    View(GoalSettings(v.settings, spec), GoalGroups(v, spec), GoalClients(v, spec), v.managementRoles)
  }

  ghost predicate SettingsBetween(a: Settings, s: Settings, b: Settings) {
    && s.displayName == a.displayName
    && (s.loginTheme == a.loginTheme || s.loginTheme == b.loginTheme)
    && (s.(displayName := a.displayName, loginTheme := a.loginTheme) == a
        || (s.smtp == b.smtp && s.resetPassword == b.resetPassword))
  }

  ghost predicate GroupsBetween(a: map<string, set<string>>, g: map<string, set<string>>, b: map<string, set<string>>) {
    && a.Keys <= g.Keys <= b.Keys
    && forall n :: n in g ==> g[n] == (if n in a then a[n] else {}) || g[n] == b[n]
  }

  ghost predicate SubMap<K(!new), V(!new)>(a: map<K, V>, b: map<K, V>) {
    forall k :: k in a ==> k in b && b[k] == a[k]
  }

  ghost predicate ClientsBetween(a: map<string, Client>, c: map<string, Client>, b: map<string, Client>) {
    && a.Keys <= c.Keys <= b.Keys
    && (forall n :: n in c ==> c[n].body == b[n].body || (n in a && c[n].body == a[n].body))
    && (forall n :: n in c ==> SubMap(c[n].mappers, b[n].mappers))
    && (forall n :: n in a ==> SubMap(a[n].mappers, c[n].mappers))
  }

  /** On the way from `a` to `b`: nothing of `a` is gone, and whatever differs from `a` is already as in `b`. */
  ghost predicate Between(a: View, v: View, b: View) {
    && SettingsBetween(a.settings, v.settings, b.settings)
    && GroupsBetween(a.groups, v.groups, b.groups)
    && ClientsBetween(a.clients, v.clients, b.clients)
    && v.managementRoles == a.managementRoles
  }

  lemma GroupsBetweenGoal(a: View, v: View, spec: RealmSpec)
    requires GroupsBetween(a.groups, v.groups, GoalGroups(a, spec))
    requires v.managementRoles == a.managementRoles && GrantsAdmin(v, spec) == GrantsAdmin(a, spec)
    ensures GoalGroups(v, spec) == GoalGroups(a, spec)
  {
    assert GoalGroups(v, spec).Keys == GoalGroups(a, spec).Keys;
    forall g | g in GoalGroups(a, spec) ensures GoalGroups(v, spec)[g] == GoalGroups(a, spec)[g] {
      assert RolesOf(v, g) == RolesOf(a, g) || RolesOf(v, g) == GoalGroups(a, spec)[g];
    }
  }

  lemma ClientBetweenGoal(a: View, v: View, spec: RealmSpec, id: string)
    requires Feasible(a, spec) && ClientsBetween(a.clients, v.clients, GoalClients(a, spec))
    requires id in GoalClients(a, spec) && (id in v.clients || id in ClientIds(spec.clients))
    ensures GoalClient(v, spec, id) == GoalClient(a, spec, id)
  {
    if id in ClientIds(spec.clients) {
      var wanted := WantedMappers(SpecFor(spec, id));
      assert GoalClients(a, spec)[id].mappers == wanted + MappersOf(a, id);
      assert SubMap(MappersOf(a, id), MappersOf(v, id));
      assert SubMap(MappersOf(v, id), wanted + MappersOf(a, id));
      MergeBetween(wanted, MappersOf(a, id), MappersOf(v, id));
    } else {
      SubMapAntisymmetric(v.clients[id].mappers, a.clients[id].mappers);
    }
  }

  lemma SameClientKeys(a: View, v: View, spec: RealmSpec)
    requires Feasible(a, spec) && Feasible(v, spec) && ClientsBetween(a.clients, v.clients, GoalClients(a, spec))
    ensures GoalClients(v, spec).Keys == GoalClients(a, spec).Keys
  {
  }

  lemma ClientsBetweenGoal(a: View, v: View, spec: RealmSpec)
    requires WellFormed(spec) && Between(a, v, Goal(a, spec))
    requires Feasible(a, spec) && Feasible(v, spec)
    ensures GoalClients(v, spec) == GoalClients(a, spec)
  {
    var now, before := GoalClients(v, spec), GoalClients(a, spec);
    SameClientKeys(a, v, spec);
    forall id | id in now ensures now[id] == before[id] {
      assert id in before;
      ClientBetweenGoal(a, v, spec, id);
    }
  }

  lemma SubMapAntisymmetric<K(!new), V(!new)>(a: map<K, V>, b: map<K, V>)
    requires SubMap(a, b) && SubMap(b, a)
    ensures a == b
  {
    assert a.Keys == b.Keys;
  }

  lemma MergeBetween<V(!new)>(wanted: map<string, V>, old_: map<string, V>, now: map<string, V>)
    requires SubMap(old_, now) && SubMap(now, wanted + old_)
    ensures wanted + now == wanted + old_
  {
    assert (wanted + now).Keys == (wanted + old_).Keys;
  }

  /**
   * The goal does not move while the realm is on its way: whatever prefix of the work is done, the same goal is left.
   */
  lemma GoalIsStable(a: View, v: View, spec: RealmSpec)
    requires WellFormed(spec) && Between(a, v, Goal(a, spec))
    ensures Goal(v, spec) == Goal(a, spec)
    ensures Feasible(v, spec) == Feasible(a, spec)
  {
    GroupsBetweenGoal(a, v, spec);
    if Feasible(a, spec) {
      ClientsBetweenGoal(a, v, spec);
    } else {
      OnlyBetweenIsItself(a.clients, v.clients);
    }
  }

  lemma OnlyBetweenIsItself(a: map<string, Client>, c: map<string, Client>)
    requires ClientsBetween(a, c, a)
    ensures c == a
  {
    forall n | n in a ensures c[n] == a[n] {
      SubMapAntisymmetric(a[n].mappers, c[n].mappers);
    }
  }

  lemma StartIsBetween(a: View, spec: RealmSpec)
    requires WellFormed(spec)
    ensures Between(a, a, Goal(a, spec))
  {
    var b := Goal(a, spec);
    forall n | n in a.clients ensures SubMap(a.clients[n].mappers, b.clients[n].mappers) {
    }
  }

  lemma GoalIsBetween(a: View, spec: RealmSpec)
    requires WellFormed(spec)
    ensures Between(a, Goal(a, spec), Goal(a, spec))
  {
    var b := Goal(a, spec);
    forall n | n in a.clients ensures SubMap(a.clients[n].mappers, b.clients[n].mappers) {
    }
  }

  /** A realm at its goal has nowhere to go: the only realm between it and its goal is itself. */
  lemma GoalIsFixed(a: View, v: View, spec: RealmSpec)
    requires WellFormed(spec) && a == Goal(a, spec) && Between(a, v, a)
    ensures v == a
  {
    OnlyBetweenIsItself(a.clients, v.clients);
    assert v.groups == a.groups;
  }

  /** Reaching the goal is final: the goal of the goal is the goal. */
  lemma GoalIsIdempotent(a: View, spec: RealmSpec)
    requires WellFormed(spec)
    ensures Goal(Goal(a, spec), spec) == Goal(a, spec)
  {
    GoalIsBetween(a, spec);
    GoalIsStable(a, Goal(a, spec), spec);
  }
}
