/** `EnsureRealm` (internal/keycloak/reconcile.go) against a server that may stop answering at any request. */
module EnsureRealm {
  import opened Text
  import opened Keycloak
  import opened RealmGoal
  import opened RealmStages
  import opened RealmContent

  datatype Reply = Accepted | Refused | Cut

  /** How a run ends: finished, stopped by an error reply of its own making, or cut off by the server going away. */
  datatype Outcome = Finished | Failed | CutOff

  datatype RealmResult = RealmResult(realmCreated: bool, groupsCreated: seq<string>, clientsCreated: seq<string>)

  /** The realm POST /realms creates: the server's template with the settings of the request. */
  function CreatedRealm(template: Realm, spec: RealmSpec): Realm {
    template.(settings := Settings(spec.displayName, spec.loginTheme, None, false))
  }

  /** How many requests applyClaimMappers needs at most for one client. */
  ghost function MapperCost(cs: ClientSpec): nat {
    2 + |WantedMappers(cs)|
  }

  ghost function MapperCosts(clients: seq<ClientSpec>): (r: seq<nat>)
    ensures |r| == |clients| && forall i :: 0 <= i < |r| ==> r[i] == MapperCost(clients[i])
  {
    seq(|clients|, i requires 0 <= i < |clients| => MapperCost(clients[i]))
  }

  ghost function Sum(costs: seq<nat>, k: nat): nat
    requires k <= |costs|
  {
    if k == 0 then 0 else Sum(costs, k - 1) + costs[k - 1]
  }

  lemma {:induction false} SumGrows(costs: seq<nat>, j: nat, k: nat)
    requires j <= k <= |costs|
    ensures Sum(costs, j) <= Sum(costs, k)
    decreases k - j
  {
    if j < k {
      SumGrows(costs, j, k - 1);
    }
  }

  /** ... and for the first k clients. */
  ghost function MapperRequests(clients: seq<ClientSpec>, k: nat): nat
    requires k <= |clients|
  {
    Sum(MapperCosts(clients), k)
  }

  /** No run needs more requests than this. */
  ghost function RequestBound(spec: RealmSpec): nat {
    10 + |spec.groups| + |spec.clients| + MapperRequests(spec.clients, |spec.clients|)
  }

  /** The names that are not there yet, in the spec's order. */
  ghost function Missing(names: seq<string>, have: set<string>): seq<string> {
    if names == [] then []
    else
      var k := |names| - 1;
      Missing(names[..k], have) + if names[k] in have then [] else [names[k]]
  }

  lemma {:induction false} MissingMeans(names: seq<string>, have: set<string>, n: string)
    ensures n in Missing(names, have) <==> n in names && n !in have
    decreases |names|
  {
    if names != [] {
      var k := |names| - 1;
      assert names == names[..k] + [names[k]];
      MissingMeans(names[..k], have, n);
    }
  }

  lemma {:induction false} MissingPrefix(names: seq<string>, have: set<string>, i: nat)
    requires i <= |names|
    ensures Missing(names[..i], have) <= Missing(names, have)
    decreases |names|
  {
    if i == |names| {
      assert names[..i] == names;
    } else {
      assert names[..|names| - 1][..i] == names[..i];
      MissingPrefix(names[..|names| - 1], have, i);
    }
  }

  lemma MissingStep(names: seq<string>, have: set<string>, i: nat)
    requires i < |names|
    ensures Missing(names[..i + 1], have) == Missing(names[..i], have) + if names[i] in have then [] else [names[i]]
  {
    PrefixStep(names, i);
  }

  /** What a loop over the names has created when i of them are dealt with. */
  ghost predicate CreatedUpTo(created: seq<string>, names: seq<string>, have: set<string>, i: nat) {
    i <= |names| && created == Missing(names[..i], have) && created <= Missing(names, have)
  }

  lemma NoneCreated(names: seq<string>, have: set<string>)
    ensures CreatedUpTo([], names, have, 0)
  {
    assert names[..0] == [];
  }

  lemma OneMoreCreated(created: seq<string>, names: seq<string>, have: set<string>, i: nat)
    requires i < |names| && CreatedUpTo(created, names, have, i)
    ensures CreatedUpTo(if names[i] in have then created else created + [names[i]], names, have, i + 1)
  {
    MissingStep(names, have, i);
    MissingPrefix(names, have, i + 1);
  }

  lemma AllCreated(created: seq<string>, names: seq<string>, have: set<string>)
    requires CreatedUpTo(created, names, have, |names|)
    ensures created == Missing(names, have)
  {
    assert names[..|names|] == names;
  }

  /** At the goal nothing is missing. */
  lemma NothingMissing(v: View, spec: RealmSpec)
    requires v == Goal(v, spec)
    ensures Missing(spec.groups, v.groups.Keys) == []
    ensures Feasible(v, spec) ==> Missing(ClientIds(spec.clients), v.clients.Keys) == []
  {
    assert forall g :: g in spec.groups ==> g in Members(spec.groups);
    NoneMissing(spec.groups, v.groups.Keys);
    if Feasible(v, spec) {
      assert forall id :: id in ClientIds(spec.clients) ==> id in Members(ClientIds(spec.clients));
      NoneMissing(ClientIds(spec.clients), v.clients.Keys);
    }
  }

  lemma {:induction false} NoneMissing(names: seq<string>, have: set<string>)
    requires forall n :: n in names ==> n in have
    ensures Missing(names, have) == []
    decreases |names|
  {
    if names != [] {
      NoneMissing(names[..|names| - 1], have);
    }
  }

  /**
   * The server as far as one run can reach it: every request path of EnsureRealm starts with the realm of its spec,
   * so the state is that realm, or None while it does not exist.
   */
  class Server {
    const template: Realm
    var realm: Option<Realm>
    /** How many more requests the server answers in this run. */
    var budget: nat

    ghost predicate Valid()
      reads this
    {
      ValidRealm(template) && (realm.Some? ==> ValidRealm(realm.value))
    }

    /** The realm a run starts from: the stored one, or the one it would create. */
    ghost function Start(spec: RealmSpec): View
      requires Valid()
      reads this
    {
      ViewOf(if realm.Some? then realm.value else CreatedRealm(template, spec))
    }

    /** The realm reads as v, whatever ids the server chose. */
    ghost predicate Holds(v: View)
      reads this
    {
      realm.Some? && ValidRealm(realm.value) && ViewOf(realm.value) == v
    }

    /** The realm lies between the start of the run and its goal. */
    ghost predicate OnTheWay(spec: RealmSpec, base: View)
      reads this
    {
      realm.Some? && ValidRealm(realm.value) && Between(base, ViewOf(realm.value), Goal(base, spec))
    }

    method Get() returns (ok: bool)
      modifies this`budget
      ensures if ok then budget == old(budget) - 1 else budget == old(budget) == 0
    {
      ok := budget > 0;
      if ok { budget := budget - 1; }
    }

    method Send(q: Request) returns (reply: Reply)
      requires realm.Some?
      modifies this`budget, this`realm
      ensures reply.Accepted? ==> Apply(old(realm.value), q).Some? && realm == Apply(old(realm.value), q)
      ensures !reply.Accepted? ==> realm == old(realm)
      ensures reply.Refused? ==> Apply(old(realm.value), q).None?
      ensures reply.Cut? ==> budget == 0
      ensures budget <= old(budget) <= budget + 1
    {
      if budget == 0 {
        return Cut;
      }
      budget := budget - 1;
      var after := Apply(realm.value, q);
      if after.None? {
        return Refused;
      }
      realm := after;
      return Accepted;
    }

    /** A request the server accepts unless it is cut off; `name` is what the request's id stands for. */
    method Change(ghost v: View, ghost name: string, q: Request) returns (done: bool)
      requires Holds(v)
      requires Addresses(realm.value, name, q) && Apply(realm.value, q).Some?
      modifies this`budget, this`realm
      ensures done ==> Holds(Effect(v, name, q)) && realm == Apply(old(realm.value), q)
      ensures !done ==> budget == 0 && Holds(v) && realm == old(realm)
      ensures budget <= old(budget) <= budget + 1
    {
      ApplyByName(realm.value, name, q);
      var reply := Send(q);
      done := reply.Accepted?;
    }

    /** What the result lists: of what the spec names, what was missing, up to where the run got. */
    ghost predicate CreatedFits(result: RealmResult, spec: RealmSpec, base: View, outcome: Outcome) {
      && result.groupsCreated <= Missing(spec.groups, base.groups.Keys)
      && result.clientsCreated <= Missing(ClientIds(spec.clients), base.clients.Keys)
      && (!outcome.CutOff? ==> result.groupsCreated == Missing(spec.groups, base.groups.Keys))
      && (outcome.Finished? ==> result.clientsCreated == Missing(ClientIds(spec.clients), base.clients.Keys))
      && (!Feasible(base, spec) ==> result.clientsCreated == [])
    }

    /** The realm itself, its login theme and its mail settings. */
    method EnsureSettings(spec: RealmSpec, ghost base: View) returns (outcome: Outcome, created: bool)
      requires Valid() && WellFormed(spec) && base == Start(spec)
      modifies this`budget, this`realm
      ensures created <==> old(realm).None? && realm.Some?
      ensures old(realm).Some? ==> realm.Some?
      ensures realm.Some? ==> OnTheWay(spec, base)
      ensures !outcome.Failed? && (outcome.CutOff? ==> budget == 0)
      ensures outcome.Finished? ==> Holds(GroupsAt(base, spec, 0))
      ensures budget <= old(budget) <= budget + 3
    {
      StartIsBetween(base, spec);
      SettingsAreBetween(base, spec);
      GroupsAreBetween(base, spec, 0);
      created := false;
      var found := Get();
      if !found {
        return CutOff, created;
      }
      ghost var v := base;
      if realm.None? {
        if budget == 0 {
          return CutOff, created;
        }
        budget := budget - 1;
        realm := Some(CreatedRealm(template, spec));
        created := true;
      } else if spec.loginTheme != "" && realm.value.settings.loginTheme != spec.loginTheme {
        var themed := Change(v, "", PutTheme(spec.loginTheme));
        if !themed {
          return CutOff, created;
        }
        v := Effect(v, "", PutTheme(spec.loginTheme));
      }
      assert Holds(base.(settings := base.settings.(loginTheme := GoalSettings(base.settings, spec).loginTheme)));
      if spec.smtp.Some? {
        var mailed := Change(v, "", PutSmtp(spec.smtp.value));
        if !mailed {
          return CutOff, created;
        }
      }
      return Finished, created;
    }

    method EnsureGroups(spec: RealmSpec, ghost base: View) returns (outcome: Outcome, created: seq<string>)
      requires WellFormed(spec) && Holds(GroupsAt(base, spec, 0))
      modifies this`budget, this`realm
      ensures OnTheWay(spec, base)
      ensures !outcome.Failed? && (outcome.CutOff? ==> budget == 0)
      ensures outcome.Finished? ==> Holds(GroupsAt(base, spec, |spec.groups|))
      ensures created <= Missing(spec.groups, base.groups.Keys)
      ensures outcome.Finished? ==> created == Missing(spec.groups, base.groups.Keys)
      ensures budget <= old(budget) <= budget + 1 + |spec.groups|
    {
      created := [];
      ghost var names, have := spec.groups, base.groups.Keys;
      NoneCreated(names, have);
      var listed := Get();
      if !listed {
        GroupsAreBetween(base, spec, 0);
        return CutOff, created;
      }
      var existing := realm.value.groups.ids.Keys;
      assert existing == base.groups.Keys by {
        SettingsAreBetween(base, spec);
      }
      for i := 0 to |spec.groups|
        invariant Holds(GroupsAt(base, spec, i)) && budget <= old(budget) <= budget + 1 + i
        invariant CreatedUpTo(created, names, have, i)
      {
        NextGroup(base, spec, i);
        OneMoreCreated(created, names, have, i);
        if spec.groups[i] in existing {
          continue;
        }
        var posted := EnsureGroup(GroupsAt(base, spec, i), spec.groups[i]);
        if !posted {
          GroupsAreBetween(base, spec, i);
          return CutOff, created;
        }
        created := created + [spec.groups[i]];
      }
      GroupsAreBetween(base, spec, |spec.groups|);
      AllCreated(created, names, have);
      return Finished, created;
    }

    method EnsureGroup(ghost v: View, name: string) returns (done: bool)
      requires Holds(v) && name !in v.groups
      modifies this`budget, this`realm
      ensures done ==> Holds(Effect(v, name, PostGroup(name)))
      ensures !done ==> budget == 0 && Holds(v)
      ensures budget <= old(budget) <= budget + 1
    {
      assert realm.value.groups.ids.Keys == v.groups.Keys;
      done := Change(v, name, PostGroup(name));
    }

    /** grantTeamManagement; skipped when no admin group is named. */
    method GrantTeamManagement(spec: RealmSpec, ghost base: View) returns (outcome: Outcome)
      requires WellFormed(spec) && Holds(GroupsAt(base, spec, |spec.groups|))
      modifies this`budget, this`realm
      ensures OnTheWay(spec, base)
      ensures outcome.CutOff? ==> budget == 0
      ensures !outcome.CutOff? ==> Holds(GrantedView(base, spec))
      ensures !outcome.CutOff? ==> (outcome.Finished? <==> Feasible(base, spec))
      ensures budget <= old(budget) <= budget + 5
    {
      ghost var v := GroupsAt(base, spec, |spec.groups|);
      GroupsAreBetween(base, spec, |spec.groups|);
      GrantedIsBetween(base, spec);
      GrantStep(base, spec);
      if spec.adminGroup == "" {
        return Finished;
      }
      var listed := Get();
      if !listed {
        return CutOff;
      }
      assert realm.value.groups.ids.Keys == v.groups.Keys;
      if spec.adminGroup !in realm.value.groups.ids {
        return Failed;
      }
      outcome := GrantTo(spec, base, realm.value.groups.ids[spec.adminGroup]);
    }

    /** The group is found; the realm-management client and its roles come next. */
    method GrantTo(spec: RealmSpec, ghost base: View, gid: Id) returns (outcome: Outcome)
      requires WellFormed(spec) && Holds(GroupsAt(base, spec, |spec.groups|))
      requires spec.adminGroup != "" && Addresses(realm.value, spec.adminGroup, PostRoles(gid, {}))
      modifies this`budget, this`realm
      ensures budget <= old(budget) <= budget + 4
      ensures outcome.CutOff? ==> budget == 0 && OnTheWay(spec, base)
      ensures !outcome.CutOff? ==> Holds(GrantedView(base, spec))
      ensures !outcome.CutOff? ==> (outcome.Finished? <==> Feasible(base, spec))
    {
      ghost var v := GroupsAt(base, spec, |spec.groups|);
      GroupsAreBetween(base, spec, |spec.groups|);
      GrantStep(base, spec);
      assert spec.adminGroup in v.groups && realm.value.clients.ids.Keys == v.clients.Keys;
      var clients := Get();
      if !clients {
        return CutOff;
      }
      if MANAGEMENT !in realm.value.clients.ids {
        return Failed;
      }
      var roles := Get();
      if !roles {
        return CutOff;
      }
      GrantCompletes(base, spec, gid, ADMIN_GROUP_ROLES * v.managementRoles - v.groups[spec.adminGroup]);
      outcome := MapAdminRoles(spec, v, GrantedView(base, spec), gid);
    }

    /** The end of grantTeamManagement: map onto the group those of the four roles that exist and that it lacks. */
    method MapAdminRoles(spec: RealmSpec, ghost v: View, ghost goal: View, gid: Id) returns (outcome: Outcome)
      requires Holds(v) && Addresses(realm.value, spec.adminGroup, PostRoles(gid, {}))
      requires spec.adminGroup in v.groups
      requires var missing := ADMIN_GROUP_ROLES * v.managementRoles - v.groups[spec.adminGroup];
               Effect(v, spec.adminGroup, PostRoles(gid, missing)) == goal && (missing == {} ==> v == goal)
      modifies this`budget, this`realm
      ensures !outcome.Failed? && (outcome.CutOff? ==> budget == 0)
      ensures Holds(if outcome.Finished? then goal else v)
      ensures budget <= old(budget) <= budget + 2
    {
      var mapped := Get();
      if !mapped {
        return CutOff;
      }
      var has := realm.value.groups.rows[gid];
      var wanted := ADMIN_GROUP_ROLES * realm.value.managementRoles - has;
      assert has == v.groups[spec.adminGroup];
      if wanted == {} {
        return Finished;
      }
      var granted := Change(v, spec.adminGroup, PostRoles(gid, wanted));
      outcome := if granted then Finished else CutOff;
    }

    /** PUT the client when it is listed, POST it otherwise. */
    method EnsureClient(ghost v: View, cs: ClientSpec, existing: map<string, Id>)
      returns (done: bool)
      requires Holds(v)
      requires cs.clientId in existing <==> cs.clientId in realm.value.clients.ids
      requires cs.clientId in existing ==> existing[cs.clientId] == realm.value.clients.ids[cs.clientId]
      modifies this`budget, this`realm
      ensures !done ==> budget == 0 && Holds(v)
      ensures done ==> Holds(v.(clients := v.clients[cs.clientId :=
                Client(Body(cs), if cs.clientId in v.clients then v.clients[cs.clientId].mappers else map[])]))
      ensures realm.Some?
      ensures done ==> realm.value.clients.ids.Keys == old(realm.value.clients.ids.Keys) + {cs.clientId}
      ensures done ==> SubMap(old(realm.value.clients.ids), realm.value.clients.ids)
      ensures budget <= old(budget) <= budget + 1
    {
      assert v.clients.Keys == realm.value.clients.ids.Keys;
      if cs.clientId in existing {
        done := Change(v, cs.clientId, PutClient(existing[cs.clientId], Body(cs)));
      } else {
        done := Change(v, cs.clientId, PostClient(cs.clientId, Body(cs)));
      }
    }

    /** The clients of the spec up to some one are written. */
    ghost predicate HoldsClients(spec: RealmSpec, base: View, k: nat)
      requires k <= |spec.clients|
      reads this
    {
      Holds(GrantedView(base, spec).(clients := WrittenClients(base, spec, k)))
    }

    /** One turn of the loop over the clients. */
    method WriteClient(spec: RealmSpec, ghost base: View, i: nat, existing: map<string, Id>, sofar: seq<string>)
      returns (done: bool, created: seq<string>)
      requires WellFormed(spec) && Feasible(base, spec) && i < |spec.clients| && HoldsClients(spec, base, i)
      requires existing.Keys == base.clients.Keys && SubMap(existing, realm.value.clients.ids)
      requires CreatedUpTo(sofar, ClientIds(spec.clients), base.clients.Keys, i)
      modifies this`budget, this`realm
      ensures done ==> HoldsClients(spec, base, i + 1) && SubMap(existing, realm.value.clients.ids)
      ensures CreatedUpTo(created, ClientIds(spec.clients), base.clients.Keys, if done then i + 1 else i)
      ensures !done ==> budget == 0 && OnTheWay(spec, base)
      ensures budget <= old(budget) <= budget + 1
    {
      NextClient(base, spec, i);
      assert realm.value.clients.ids.Keys == WrittenClients(base, spec, i).Keys;
      ghost var v := GrantedView(base, spec).(clients := WrittenClients(base, spec, i));
      done := EnsureClient(v, spec.clients[i], existing);
      created := sofar;
      if !done {
        WrittenOnTheWay(base, spec, i);
        return;
      }
      OneMoreCreated(sofar, ClientIds(spec.clients), base.clients.Keys, i);
      if spec.clients[i].clientId !in existing {
        created := sofar + [spec.clients[i].clientId];
      }
    }

    /** POST one mapper unless its name was listed. */
    method EnsureMapper(ghost v: View, ghost clientId: string, uuid: Id, have: set<string>,
                        name: string, mapper: Mapper) returns (done: bool)
      requires Holds(v) && Addresses(realm.value, clientId, PostMapper(uuid, name, mapper))
      requires clientId in v.clients && (name in have <==> name in v.clients[clientId].mappers)
      modifies this`budget, this`realm
      ensures realm.Some? && realm.value.clients.ids == old(realm.value.clients.ids)
      ensures !done ==> budget == 0 && Holds(v)
      ensures done ==> Holds(if name in have then v else Effect(v, clientId, PostMapper(uuid, name, mapper)))
      ensures budget <= old(budget) <= budget + 1
    {
      done := true;
      if name !in have {
        assert realm.value.clients.rows[uuid] == v.clients[clientId];
        done := Change(v, clientId, PostMapper(uuid, name, mapper));
      }
    }

    method EnsureClients(spec: RealmSpec, ghost base: View) returns (outcome: Outcome, created: seq<string>)
      requires WellFormed(spec) && Feasible(base, spec) && Holds(GrantedView(base, spec))
      modifies this`budget, this`realm
      ensures OnTheWay(spec, base)
      ensures !outcome.Failed? && (outcome.CutOff? ==> budget == 0)
      ensures outcome.Finished? ==> HoldsClients(spec, base, |spec.clients|)
      ensures created <= Missing(ClientIds(spec.clients), base.clients.Keys)
      ensures outcome.Finished? ==> created == Missing(ClientIds(spec.clients), base.clients.Keys)
      ensures budget <= old(budget) <= budget + 1 + |spec.clients|
    {
      created := [];
      FirstClients(base, spec);
      var listed := Get();
      if !listed {
        GrantedIsBetween(base, spec);
        return CutOff, created;
      }
      outcome, created := WriteClients(spec, base, realm.value.clients.ids);
      if outcome.Finished? {
        WrittenOnTheWay(base, spec, |spec.clients|);
      }
    }

    /** The loop over the clients. */
    method WriteClients(spec: RealmSpec, ghost base: View, existing: map<string, Id>)
      returns (outcome: Outcome, created: seq<string>)
      requires WellFormed(spec) && Feasible(base, spec) && HoldsClients(spec, base, 0)
      requires existing.Keys == base.clients.Keys && SubMap(existing, realm.value.clients.ids)
      modifies this`budget, this`realm
      ensures !outcome.Failed? && (outcome.CutOff? ==> budget == 0 && OnTheWay(spec, base))
      ensures outcome.Finished? ==> HoldsClients(spec, base, |spec.clients|)
      ensures created <= Missing(ClientIds(spec.clients), base.clients.Keys)
      ensures outcome.Finished? ==> created == Missing(ClientIds(spec.clients), base.clients.Keys)
      ensures budget <= old(budget) <= budget + |spec.clients|
    {
      created := [];
      ghost var names, have := ClientIds(spec.clients), base.clients.Keys;
      NoneCreated(names, have);
      for i := 0 to |spec.clients|
        invariant HoldsClients(spec, base, i) && SubMap(existing, realm.value.clients.ids)
        invariant budget <= old(budget) <= budget + i
        invariant CreatedUpTo(created, names, have, i)
      {
        var done;
        done, created := WriteClient(spec, base, i, existing, created);
        if !done {
          return CutOff, created;
        }
      }
      AllCreated(created, names, have);
      return Finished, created;
    }

    method ApplyClaimMappers(spec: RealmSpec, ghost base: View) returns (outcome: Outcome)
      requires WellFormed(spec) && Feasible(base, spec)
      requires HoldsClients(spec, base, |spec.clients|)
      modifies this`budget, this`realm
      ensures OnTheWay(spec, base)
      ensures !outcome.Failed? && (outcome.CutOff? ==> budget == 0)
      ensures outcome.Finished? ==> Holds(Goal(base, spec))
      ensures budget <= old(budget) <= budget + MapperRequests(spec.clients, |spec.clients|)
    {
      MappersStart(base, spec);
      outcome := MapAllClients(spec, base);
      if outcome.Finished? {
        MappedIsGoal(base, spec);
        MappedOnTheWay(base, spec, |spec.clients|);
      }
    }

    /** The loop over the clients. */
    method MapAllClients(spec: RealmSpec, ghost base: View) returns (outcome: Outcome)
      requires WellFormed(spec) && Feasible(base, spec) && Holds(MappedView(base, spec, 0))
      modifies this`budget, this`realm
      ensures !outcome.Failed? && (outcome.CutOff? ==> budget == 0 && OnTheWay(spec, base))
      ensures outcome.Finished? ==> Holds(MappedView(base, spec, |spec.clients|))
      ensures budget <= old(budget) <= budget + MapperRequests(spec.clients, |spec.clients|)
    {
      var uuids: Option<map<string, Id>> := None;
      ghost var costs, budget0 := MapperCosts(spec.clients), budget;
      assert Sum(costs, 0) == 0;
      for i := 0 to |spec.clients|
        invariant Holds(MappedView(base, spec, i))
        invariant budget <= budget0 <= budget + Sum(costs, i)
        invariant uuids.Some? ==> uuids.value == realm.value.clients.ids
      {
        outcome, uuids := ApplyClientMappers(spec, base, i, uuids);
        assert Sum(costs, i + 1) == Sum(costs, i) + MapperCost(spec.clients[i]);
        SumGrows(costs, i + 1, |spec.clients|);
        if !outcome.Finished? {
          return outcome;
        }
      }
      return Finished;
    }

    /** One turn of the loop over the clients. */
    method ApplyClientMappers(spec: RealmSpec, ghost base: View, i: nat, listed: Option<map<string, Id>>)
      returns (outcome: Outcome, uuids: Option<map<string, Id>>)
      requires WellFormed(spec) && Feasible(base, spec) && i < |spec.clients|
      requires Holds(MappedView(base, spec, i)) && (listed.Some? ==> listed.value == realm.value.clients.ids)
      modifies this`budget, this`realm
      ensures !outcome.Failed? && (outcome.CutOff? ==> budget == 0 && OnTheWay(spec, base))
      ensures outcome.Finished? ==> Holds(MappedView(base, spec, i + 1))
      ensures outcome.Finished? && uuids.Some? ==> uuids.value == realm.value.clients.ids
      ensures budget <= old(budget) <= budget + MapperCost(spec.clients[i])
    {
      var cs := spec.clients[i];
      uuids := listed;
      if |cs.hardcodedClaims| == 0 && !cs.groupsClaim {
        NothingToMap(base, spec, i);
        return Finished, uuids;
      }
      if uuids.None? {
        var answered := Get();
        if !answered {
          MappedOnTheWay(base, spec, i);
          return CutOff, uuids;
        }
        uuids := Some(realm.value.clients.ids);
      }
      outcome := MapClient(spec, base, i, uuids.value);
    }

    /** The client looked up, its mappers merged. */
    method MapClient(spec: RealmSpec, ghost base: View, i: nat, uuids: map<string, Id>) returns (outcome: Outcome)
      requires WellFormed(spec) && Feasible(base, spec) && i < |spec.clients|
      requires Holds(MappedView(base, spec, i)) && uuids == realm.value.clients.ids
      modifies this`budget, this`realm
      ensures !outcome.Failed? && (outcome.CutOff? ==> budget == 0 && OnTheWay(spec, base))
      ensures realm.Some? && realm.value.clients.ids == uuids
      ensures outcome.Finished? ==> Holds(MappedView(base, spec, i + 1))
      ensures budget <= old(budget) <= budget + 1 + |WantedMappers(spec.clients[i])|
    {
      var cs := spec.clients[i];
      ghost var v, done := MappedView(base, spec, i), {};
      MappingFromMapped(base, spec, i, done);
      assert realm.value.clients.ids.Keys == v.clients.Keys;
      if cs.clientId !in uuids {
        return Failed;
      }
      outcome, done := ApplyMappersOf(v, cs.clientId, uuids[cs.clientId], WantedMappers(cs));
      MappingFromMapped(base, spec, i, done);
      if outcome.CutOff? {
        MappingOnTheWay(base, spec, i, done);
      } else {
        ClientMappersEnd(base, spec, i);
      }
    }

    /** One client of applyClaimMappers; the wanted mappers are posted in any order. */
    method ApplyMappersOf(ghost v: View, ghost clientId: string, uuid: Id, wanted: map<string, Mapper>)
      returns (outcome: Outcome, ghost done: set<string>)
      requires Holds(v) && clientId in v.clients
      requires clientId in realm.value.clients.ids && uuid == realm.value.clients.ids[clientId]
      modifies this`budget, this`realm
      ensures !outcome.Failed? && (outcome.CutOff? ==> budget == 0)
      ensures realm.Some? && realm.value.clients.ids == old(realm.value.clients.ids)
      ensures Holds(WithMappers(v, clientId, Merged(wanted, v.clients[clientId].mappers, done)))
      ensures outcome.Finished? ==> done == wanted.Keys
      ensures budget <= old(budget) <= budget + 1 + |wanted|
    {
      done := {};
      MergedLies(wanted, v.clients[clientId].mappers, {});
      assert WithMappers(v, clientId, v.clients[clientId].mappers) == v;
      var listed := Get();
      if !listed {
        return CutOff, done;
      }
      assert realm.value.clients.rows[uuid] == v.clients[clientId];
      outcome, done := PostMappers(v, clientId, uuid, wanted, realm.value.clients.rows[uuid].mappers.Keys);
    }

    method PostMappers(ghost v: View, ghost clientId: string, uuid: Id, wanted: map<string, Mapper>, have: set<string>)
      returns (outcome: Outcome, ghost done: set<string>)
      requires clientId in v.clients && have == v.clients[clientId].mappers.Keys
      requires Holds(WithMappers(v, clientId, Merged(wanted, v.clients[clientId].mappers, {})))
      requires clientId in realm.value.clients.ids && uuid == realm.value.clients.ids[clientId]
      modifies this`budget, this`realm
      ensures !outcome.Failed? && (outcome.CutOff? ==> budget == 0)
      ensures realm.Some? && realm.value.clients.ids == old(realm.value.clients.ids)
      ensures Holds(WithMappers(v, clientId, Merged(wanted, v.clients[clientId].mappers, done)))
      ensures outcome.Finished? ==> done == wanted.Keys
      ensures budget <= old(budget) <= budget + |wanted|
    {
      ghost var before := v.clients[clientId].mappers;
      var names := AnyOrder(wanted.Keys);
      done := {};
      for i := 0 to |names|
        invariant done == Members(names[..i])
        invariant Holds(WithMappers(v, clientId, Merged(wanted, before, done)))
        invariant realm.value.clients.ids == old(realm.value.clients.ids)
        invariant budget <= old(budget) <= budget + i
      {
        PrefixGrows(names, i);
        NextMapper(wanted, before, done, names[i]);
        var posted := EnsureMapper(WithMappers(v, clientId, Merged(wanted, before, done)), clientId, uuid,
                                   have, names[i], wanted[names[i]]);
        if !posted {
          return CutOff, done;
        }
        PostMapperEffect(v, clientId, Merged(wanted, before, done), uuid, names[i], wanted[names[i]]);
        done := done + {names[i]};
      }
      assert names[..|names|] == names;
      return Finished, done;
    }

    /**
     * One run. However it ends, the goal is where it was, nothing of the realm is lost and nothing is half-written;
     * a run that is not cut off leaves the realm at that goal, and a run that starts there changes and creates nothing.
     */
    method EnsureRealm(spec: RealmSpec) returns (outcome: Outcome, result: RealmResult)
      requires Valid() && WellFormed(spec)
      modifies this`budget, this`realm
      ensures Valid() && (old(realm).Some? ==> realm.Some?)
      ensures Goal(Start(spec), spec) == old(Goal(Start(spec), spec))
      ensures realm.Some? ==> OnTheWay(spec, old(Start(spec)))
      ensures outcome.CutOff? ==> old(budget) <= RequestBound(spec)
      ensures !outcome.CutOff? ==> Holds(old(Goal(Start(spec), spec)))
      ensures !outcome.CutOff? ==> (outcome.Finished? <==> old(Feasible(Start(spec), spec)))
      ensures Feasible(Start(spec), spec) == old(Feasible(Start(spec), spec))
      // The realm a finished run leaves, field by field, and when a run that is not cut off finishes.
      ensures outcome.Finished? ==>
                realm.Some? && ValidRealm(realm.value) && Delivered(ViewOf(realm.value), spec, old(Start(spec)))
      ensures outcome.Finished? && old(realm).None? ==>
                && realm.value.settings.displayName == spec.displayName
                && realm.value.settings.loginTheme == spec.loginTheme && realm.value.settings.smtp == spec.smtp
      ensures !outcome.CutOff? ==>
                (outcome.Finished?
                 <==> spec.adminGroup == ""
                      || ((spec.adminGroup in old(Start(spec)).groups || spec.adminGroup in spec.groups)
                          && "realm-management" in old(Start(spec)).clients))
      // What the result lists.
      ensures result.realmCreated <==> old(realm).None? && realm.Some?
      ensures CreatedFits(result, spec, old(Start(spec)), outcome)
      ensures forall g :: g in result.groupsCreated ==> g in spec.groups && g !in old(Start(spec)).groups
      ensures forall id :: id in result.clientsCreated ==>
                id in ClientIds(spec.clients) && id !in old(Start(spec)).clients
      ensures old(realm.Some? && Start(spec) == Goal(Start(spec), spec)) ==>
                Holds(old(Start(spec))) && result == RealmResult(false, [], [])
    {
      ghost var base := Start(spec);
      outcome, result := Run(spec, base);
      forall g | g in result.groupsCreated ensures g in spec.groups && g !in base.groups {
        MissingMeans(spec.groups, base.groups.Keys, g);
      }
      forall id | id in result.clientsCreated ensures id in ClientIds(spec.clients) && id !in base.clients {
        MissingMeans(ClientIds(spec.clients), base.clients.Keys, id);
      }
      if outcome.Finished? {
        GoalDelivers(base, spec);
      }
      if realm.Some? {
        GoalIsStable(base, ViewOf(realm.value), spec);
        if base == Goal(base, spec) {
          NothingMissing(base, spec);
          GoalIsFixed(base, ViewOf(realm.value), spec);
        }
      }
    }

    /** The steps in the source's order. */
    method Run(spec: RealmSpec, ghost base: View) returns (outcome: Outcome, result: RealmResult)
      requires Valid() && WellFormed(spec) && base == Start(spec)
      modifies this`budget, this`realm
      ensures Valid() && (old(realm).Some? ==> realm.Some?)
      ensures realm.Some? ==> OnTheWay(spec, base)
      ensures realm.None? ==> outcome.CutOff?
      ensures outcome.CutOff? ==> old(budget) <= RequestBound(spec)
      ensures !outcome.CutOff? ==> Holds(Goal(base, spec)) && (outcome.Finished? <==> Feasible(base, spec))
      ensures result.realmCreated <==> old(realm).None? && realm.Some?
      ensures CreatedFits(result, spec, base, outcome)
    {
      var created: bool;
      outcome, created := EnsureSettings(spec, base);
      result := RealmResult(created, [], []);
      if outcome.CutOff? {
        return;
      }
      var groups: seq<string>;
      outcome, groups := EnsureGroups(spec, base);
      result := result.(groupsCreated := groups);
      if outcome.CutOff? {
        return;
      }
      outcome := GrantTeamManagement(spec, base);
      if outcome.CutOff? {
        return;
      }
      if outcome.Failed? {
        GrantedIsBetween(base, spec);
        return;
      }
      var clients: seq<string>;
      outcome, clients := EnsureClients(spec, base);
      result := result.(clientsCreated := clients);
      if outcome.CutOff? {
        return;
      }
      outcome := ApplyClaimMappers(spec, base);
    }

    /** Runs cut off at arbitrary requests, one after another, and then a last one. */
    method RunRepeatedly(spec: RealmSpec, cuts: seq<nat>, last: nat) returns (outcome: Outcome)
      requires Valid() && WellFormed(spec)
      modifies this`budget, this`realm
      ensures Valid()
      ensures Goal(Start(spec), spec) == old(Goal(Start(spec), spec))
      ensures last > RequestBound(spec) ==> !outcome.CutOff?
      ensures !outcome.CutOff? ==> Holds(old(Goal(Start(spec), spec)))
      ensures outcome.Finished? ==>
                realm.Some? && ValidRealm(realm.value) && Delivered(ViewOf(realm.value), spec, old(Start(spec)))
    {
      ghost var base := Start(spec);
      for i := 0 to |cuts|
        invariant Valid() && Goal(Start(spec), spec) == old(Goal(Start(spec), spec))
        invariant Feasible(Start(spec), spec) == old(Feasible(Start(spec), spec))
      {
        budget := cuts[i];
        var cut, partial := EnsureRealm(spec);
      }
      budget := last;
      var result: RealmResult;
      outcome, result := EnsureRealm(spec);
      if outcome.Finished? {
        GoalDelivers(base, spec);
      }
    }
  }
}
