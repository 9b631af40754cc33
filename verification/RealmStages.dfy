/** The realm after each request of an EnsureRealm run, and that every one of these lies on the way to the goal. */
module RealmStages {
  import opened Text
  import opened Keycloak
  import opened RealmGoal

  /** After the settings and the first k groups. */
  ghost function GroupsAt(base: View, spec: RealmSpec, k: nat): View
    requires k <= |spec.groups|
  {
    base.(settings := GoalSettings(base.settings, spec),
          groups := map g | g in base.groups.Keys + Members(spec.groups[..k]) :: RolesOf(base, g))
  }

  lemma SettingsAreBetween(base: View, spec: RealmSpec)
    requires WellFormed(spec)
    ensures var themed := base.settings.(loginTheme := GoalSettings(base.settings, spec).loginTheme);
            Between(base, base.(settings := themed), Goal(base, spec))
    ensures GroupsAt(base, spec, 0) == base.(settings := GoalSettings(base.settings, spec))
  {
    StartIsBetween(base, spec);
    assert spec.groups[..0] == [];
    assert GroupsAt(base, spec, 0).groups == base.groups;
  }

  lemma GroupsAreBetween(base: View, spec: RealmSpec, k: nat)
    requires WellFormed(spec) && k <= |spec.groups|
    ensures Between(base, GroupsAt(base, spec, k), Goal(base, spec))
  {
    StartIsBetween(base, spec);
    assert forall g :: g in spec.groups[..k] ==> g in spec.groups;
  }

  lemma GroupKeysGrow(base: View, spec: RealmSpec, k: nat)
    requires WellFormed(spec) && k < |spec.groups|
    ensures GroupsAt(base, spec, k + 1).groups.Keys == GroupsAt(base, spec, k).groups.Keys + {spec.groups[k]}
  {
    PrefixGrows(spec.groups, k);
  }

  lemma GroupRoles(base: View, spec: RealmSpec, k: nat, g: string)
    requires k <= |spec.groups| && g in GroupsAt(base, spec, k).groups
    ensures GroupsAt(base, spec, k).groups[g] == RolesOf(base, g)
  {
  }

  lemma GroupsGrow(base: View, spec: RealmSpec, k: nat)
    requires WellFormed(spec) && k < |spec.groups|
    ensures var name := spec.groups[k];
            GroupsAt(base, spec, k + 1).groups == GroupsAt(base, spec, k).groups[name := RolesOf(base, name)]
  {
    var name := spec.groups[k];
    var v, next := GroupsAt(base, spec, k).groups, GroupsAt(base, spec, k + 1).groups;
    GroupKeysGrow(base, spec, k);
    GroupRoles(base, spec, k + 1, name);
    forall g | g in v && g != name ensures next[g] == v[g] {
      GroupRoles(base, spec, k, g);
      GroupRoles(base, spec, k + 1, g);
    }
    OneMoreEntry(v, next, name, RolesOf(base, name));
  }

  lemma NextGroup(base: View, spec: RealmSpec, k: nat)
    requires WellFormed(spec) && k < |spec.groups|
    ensures var v := GroupsAt(base, spec, k);
            var name := spec.groups[k];
            if name in base.groups then GroupsAt(base, spec, k + 1) == v
            else name !in v.groups && Effect(v, name, PostGroup(name)) == GroupsAt(base, spec, k + 1)
  {
    var name := spec.groups[k];
    var v := GroupsAt(base, spec, k);
    GroupsGrow(base, spec, k);
    PrefixGrows(spec.groups, k);
    if name in base.groups {
      assert v.groups[name] == RolesOf(base, name);
      assert v.groups[name := v.groups[name]] == v.groups;
    }
  }

  /** After the admin group's grant. */
  ghost function GrantedView(base: View, spec: RealmSpec): View {
    base.(settings := GoalSettings(base.settings, spec), groups := GoalGroups(base, spec))
  }

  lemma GrantedIsBetween(base: View, spec: RealmSpec)
    requires WellFormed(spec)
    ensures Between(base, GrantedView(base, spec), Goal(base, spec))
    ensures !Feasible(base, spec) ==> GrantedView(base, spec) == Goal(base, spec)
  {
    StartIsBetween(base, spec);
  }

  lemma GrantStep(base: View, spec: RealmSpec)
    requires WellFormed(spec)
    ensures var v := GroupsAt(base, spec, |spec.groups|);
            && v.groups.Keys == base.groups.Keys + Members(spec.groups)
            && if GrantsAdmin(base, spec) && spec.adminGroup in v.groups
               then v.(groups := v.groups[spec.adminGroup := RolesOf(base, spec.adminGroup)
                                                             + (ADMIN_GROUP_ROLES * v.managementRoles)])
                    == GrantedView(base, spec)
               else v == GrantedView(base, spec)
  {
    assert spec.groups[..|spec.groups|] == spec.groups;
    var v := GroupsAt(base, spec, |spec.groups|);
    if GrantsAdmin(base, spec) && spec.adminGroup in v.groups {
      assert v.groups[spec.adminGroup := RolesOf(base, spec.adminGroup) + (ADMIN_GROUP_ROLES * v.managementRoles)]
          == GoalGroups(base, spec);
    } else {
      assert v.groups == GoalGroups(base, spec);
    }
  }

  /** Posting just the missing roles completes the grant, and with none missing it is complete. */
  lemma GrantCompletes(base: View, spec: RealmSpec, gid: Id, missing: set<string>)
    requires WellFormed(spec) && GrantsAdmin(base, spec)
    requires spec.adminGroup in GroupsAt(base, spec, |spec.groups|).groups
    requires missing == ADMIN_GROUP_ROLES * base.managementRoles - RolesOf(base, spec.adminGroup)
    ensures Effect(GroupsAt(base, spec, |spec.groups|), spec.adminGroup, PostRoles(gid, missing))
         == GrantedView(base, spec)
    ensures missing == {} ==> GroupsAt(base, spec, |spec.groups|) == GrantedView(base, spec)
  {
    var v := GroupsAt(base, spec, |spec.groups|);
    var roles := RolesOf(base, spec.adminGroup);
    GrantStep(base, spec);
    assert roles + missing == roles + (ADMIN_GROUP_ROLES * v.managementRoles);
    if missing == {} {
      assert roles + missing == roles;
      assert v.groups[spec.adminGroup := roles] == v.groups;
    }
  }

  /** After the first k clients have been written: bodies are final, mappers untouched. */
  ghost function WrittenClients(base: View, spec: RealmSpec, k: nat): map<string, Client>
    requires k <= |spec.clients|
  {
    map id | id in base.clients.Keys + Members(ClientIds(spec.clients)[..k]) ::
      if id in ClientIds(spec.clients)[..k] then Client(Body(SpecFor(spec, id)), MappersOf(base, id))
      else base.clients[id]
  }

  lemma WrittenAreBetween(base: View, spec: RealmSpec, k: nat)
    requires WellFormed(spec) && Feasible(base, spec) && k <= |spec.clients|
    ensures ClientsBetween(base.clients, WrittenClients(base, spec, k), GoalClients(base, spec))
  {
    var ids := ClientIds(spec.clients);
    var c, goal := WrittenClients(base, spec, k), GoalClients(base, spec);
    assert forall id :: id in ids[..k] ==> id in ids;
    assert base.clients.Keys <= c.Keys <= goal.Keys;
    forall n | n in c
      ensures c[n].body == goal[n].body || (n in base.clients && c[n].body == base.clients[n].body)
      ensures SubMap(c[n].mappers, goal[n].mappers)
      ensures n in base.clients ==> SubMap(base.clients[n].mappers, c[n].mappers)
    {
      WrittenIsBetween(base, spec, k, n);
    }
  }

  lemma WrittenIsBetween(base: View, spec: RealmSpec, k: nat, n: string)
    requires WellFormed(spec) && Feasible(base, spec) && k <= |spec.clients|
    requires n in WrittenClients(base, spec, k) && n in GoalClients(base, spec)
    requires n in ClientIds(spec.clients)[..k] ==> n in ClientIds(spec.clients)
    ensures var c, goal := WrittenClients(base, spec, k)[n], GoalClients(base, spec)[n];
            && (c.body == goal.body || (n in base.clients && c.body == base.clients[n].body))
            && SubMap(c.mappers, goal.mappers) && (n in base.clients ==> SubMap(base.clients[n].mappers, c.mappers))
  {
  }

  lemma PrefixGrows(names: seq<string>, k: nat)
    requires Distinct(names) && k < |names|
    ensures Members(names[..k + 1]) == Members(names[..k]) + {names[k]}
    ensures names[k] !in names[..k]
    ensures forall n :: n in names[..k + 1] <==> n in names[..k] || n == names[k]
  {
    assert names[..k + 1] == names[..k] + [names[k]];
  }

  lemma WrittenElsewhere(base: View, spec: RealmSpec, k: nat, n: string)
    requires WellFormed(spec) && k < |spec.clients|
    requires n in WrittenClients(base, spec, k) && n != spec.clients[k].clientId
    ensures n in WrittenClients(base, spec, k + 1)
    ensures WrittenClients(base, spec, k + 1)[n] == WrittenClients(base, spec, k)[n]
  {
    PrefixGrows(ClientIds(spec.clients), k);
    assert n in ClientIds(spec.clients)[..k + 1] <==> n in ClientIds(spec.clients)[..k];
  }

  lemma WrittenHere(base: View, spec: RealmSpec, k: nat)
    requires WellFormed(spec) && k < |spec.clients|
    ensures var id := spec.clients[k].clientId;
            && (id in WrittenClients(base, spec, k) <==> id in base.clients)
            && (id in base.clients ==> WrittenClients(base, spec, k)[id] == base.clients[id])
            && WrittenClients(base, spec, k + 1).Keys == WrittenClients(base, spec, k).Keys + {id}
            && WrittenClients(base, spec, k + 1)[id] == Client(Body(spec.clients[k]), MappersOf(base, id))
  {
    SpecForIndex(spec, k);
    PrefixGrows(ClientIds(spec.clients), k);
    assert spec.clients[k].clientId == ClientIds(spec.clients)[k];
  }

  lemma OneMoreEntry<V>(a: map<string, V>, b: map<string, V>, k: string, v: V)
    requires b.Keys == a.Keys + {k} && b[k] == v && forall n :: n in a && n != k ==> b[n] == a[n]
    ensures b == a[k := v]
  {
  }

  lemma NextClient(base: View, spec: RealmSpec, k: nat)
    requires WellFormed(spec) && k < |spec.clients|
    ensures var c := WrittenClients(base, spec, k);
            var id := spec.clients[k].clientId;
            && (id in c <==> id in base.clients)
            && WrittenClients(base, spec, k + 1)
               == c[id := Client(Body(spec.clients[k]), if id in c then c[id].mappers else map[])]
  {
    var c, next := WrittenClients(base, spec, k), WrittenClients(base, spec, k + 1);
    var id := spec.clients[k].clientId;
    WrittenHere(base, spec, k);
    forall n | n in c && n != id ensures n in next && next[n] == c[n] {
      WrittenElsewhere(base, spec, k, n);
    }
    OneMoreEntry(c, next, id, Client(Body(spec.clients[k]), MappersOf(base, id)));
  }

  lemma FirstClients(base: View, spec: RealmSpec)
    ensures WrittenClients(base, spec, 0) == base.clients
  {
    assert ClientIds(spec.clients)[..0] == [];
  }

  /** A client's old mappers and those wanted ones, named in `done`, that it lacked. */
  ghost function Merged(wanted: map<string, Mapper>, before: map<string, Mapper>, done: set<string>)
    : map<string, Mapper>
  {
    map n | n in before.Keys + (wanted.Keys * done) :: if n in before then before[n] else wanted[n]
  }

  lemma NextMapper(wanted: map<string, Mapper>, before: map<string, Mapper>, done: set<string>, name: string)
    requires name in wanted && name !in done
    ensures if name in before then Merged(wanted, before, done + {name}) == Merged(wanted, before, done)
            else name !in Merged(wanted, before, done)
                 && Merged(wanted, before, done + {name}) == Merged(wanted, before, done)[name := wanted[name]]
  {
  }

  lemma MergedLies(wanted: map<string, Mapper>, before: map<string, Mapper>, done: set<string>)
    ensures SubMap(before, Merged(wanted, before, done))
    ensures SubMap(Merged(wanted, before, done), wanted + before)
    ensures Merged(wanted, before, {}) == before
    ensures Merged(wanted, before, wanted.Keys) == wanted + before
  {
  }

  /** After the mappers of the first k clients. */
  ghost function MappedClients(base: View, spec: RealmSpec, k: nat): map<string, Client>
    requires k <= |spec.clients|
  {
    map id | id in base.clients.Keys + Members(ClientIds(spec.clients)) ::
      if id in ClientIds(spec.clients)[..k] then GoalClient(base, spec, id)
      else if id in ClientIds(spec.clients) then Client(Body(SpecFor(spec, id)), MappersOf(base, id))
      else base.clients[id]
  }

  ghost function MappedView(base: View, spec: RealmSpec, k: nat): View
    requires k <= |spec.clients|
  {
    GrantedView(base, spec).(clients := MappedClients(base, spec, k))
  }

  /** And after those mappers of client k that `done` names. */
  ghost function MappingClient(base: View, spec: RealmSpec, k: nat, done: set<string>): map<string, Client>
    requires k < |spec.clients|
  {
    var cs := spec.clients[k];
    MappedClients(base, spec, k)[cs.clientId :=
      Client(Body(cs), Merged(WantedMappers(cs), MappersOf(base, cs.clientId), done))]
  }

  lemma MappersStart(base: View, spec: RealmSpec)
    requires WellFormed(spec)
    ensures MappedClients(base, spec, 0) == WrittenClients(base, spec, |spec.clients|)
  {
    var ids := ClientIds(spec.clients);
    assert ids[..0] == [] && ids[..|ids|] == ids;
    var a, b := MappedClients(base, spec, 0), WrittenClients(base, spec, |spec.clients|);
    assert a.Keys == b.Keys;
    forall n | n in a ensures a[n] == b[n] {
    }
  }

  lemma MappersDone(base: View, spec: RealmSpec)
    requires WellFormed(spec) && Feasible(base, spec)
    ensures MappedClients(base, spec, |spec.clients|) == GoalClients(base, spec)
  {
    var ids := ClientIds(spec.clients);
    assert ids[..|ids|] == ids;
    var a, b := MappedClients(base, spec, |spec.clients|), GoalClients(base, spec);
    assert a.Keys == b.Keys;
    forall n | n in a ensures a[n] == b[n] {
    }
  }

  lemma ClientMappersStart(base: View, spec: RealmSpec, k: nat)
    requires WellFormed(spec) && k < |spec.clients|
    ensures MappingClient(base, spec, k, {}) == MappedClients(base, spec, k)
  {
    var cs := spec.clients[k];
    SpecForIndex(spec, k);
    PrefixGrows(ClientIds(spec.clients), k);
    MergedLies(WantedMappers(cs), MappersOf(base, cs.clientId), {});
    assert MappedClients(base, spec, k)[cs.clientId] == Client(Body(cs), MappersOf(base, cs.clientId));
  }

  /** Mapping one more client changes that client only. */
  lemma MappedElsewhere(base: View, spec: RealmSpec, k: nat, n: string)
    requires WellFormed(spec) && k < |spec.clients|
    requires n in MappedClients(base, spec, k) && n != spec.clients[k].clientId
    ensures MappedClients(base, spec, k + 1)[n] == MappedClients(base, spec, k)[n]
  {
    PrefixGrows(ClientIds(spec.clients), k);
    assert n in ClientIds(spec.clients)[..k + 1] <==> n in ClientIds(spec.clients)[..k];
  }

  lemma MappedHere(base: View, spec: RealmSpec, k: nat)
    requires WellFormed(spec) && k < |spec.clients|
    ensures var cs := spec.clients[k];
            cs.clientId in MappedClients(base, spec, k + 1)
            && MappedClients(base, spec, k + 1)[cs.clientId]
               == Client(Body(cs), Merged(WantedMappers(cs), MappersOf(base, cs.clientId), WantedMappers(cs).Keys))
  {
    var cs := spec.clients[k];
    SpecForIndex(spec, k);
    PrefixGrows(ClientIds(spec.clients), k);
    MergedLies(WantedMappers(cs), MappersOf(base, cs.clientId), {});
  }

  lemma OneEntryApart<V>(a: map<string, V>, b: map<string, V>, k: string)
    requires k in a && b.Keys == a.Keys && forall n :: n in a && n != k ==> b[n] == a[n]
    ensures a[k := b[k]] == b
  {
  }

  lemma ClientMappersEnd(base: View, spec: RealmSpec, k: nat)
    requires WellFormed(spec) && k < |spec.clients|
    ensures MappingClient(base, spec, k, WantedMappers(spec.clients[k]).Keys) == MappedClients(base, spec, k + 1)
  {
    var id := spec.clients[k].clientId;
    var a, b := MappedClients(base, spec, k), MappedClients(base, spec, k + 1);
    MappedHere(base, spec, k);
    assert b.Keys == a.Keys;
    forall n | n in a && n != id ensures b[n] == a[n] {
      MappedElsewhere(base, spec, k, n);
    }
    OneEntryApart(a, b, id);
  }

  /** A client without claims is passed over. */
  lemma NothingToMap(base: View, spec: RealmSpec, k: nat)
    requires WellFormed(spec) && k < |spec.clients|
    requires |spec.clients[k].hardcodedClaims| == 0 && !spec.clients[k].groupsClaim
    ensures MappedClients(base, spec, k + 1) == MappedClients(base, spec, k)
  {
    assert WantedMappers(spec.clients[k]).Keys == {};
    ClientMappersStart(base, spec, k);
    ClientMappersEnd(base, spec, k);
  }

  ghost function WithMappers(v: View, id: string, mappers: map<string, Mapper>): View
    requires id in v.clients
  {
    v.(clients := v.clients[id := v.clients[id].(mappers := mappers)])
  }

  lemma PostMapperEffect(v: View, id: string, mappers: map<string, Mapper>, uuid: Id, name: string, mapper: Mapper)
    requires id in v.clients
    ensures Effect(WithMappers(v, id, mappers), id, PostMapper(uuid, name, mapper))
         == WithMappers(v, id, mappers[name := mapper])
  {
  }

  lemma MappingFromMapped(base: View, spec: RealmSpec, k: nat, done: set<string>)
    requires WellFormed(spec) && k < |spec.clients|
    ensures var cs := spec.clients[k];
            var v := MappedView(base, spec, k);
            && cs.clientId in v.clients
            && WithMappers(v, cs.clientId, Merged(WantedMappers(cs), v.clients[cs.clientId].mappers, done))
               == v.(clients := MappingClient(base, spec, k, done))
  {
    SpecForIndex(spec, k);
    PrefixGrows(ClientIds(spec.clients), k);
  }

  lemma MappedAreBetween(base: View, spec: RealmSpec, k: nat)
    requires WellFormed(spec) && Feasible(base, spec) && k <= |spec.clients|
    ensures ClientsBetween(base.clients, MappedClients(base, spec, k), GoalClients(base, spec))
  {
    var c, goal := MappedClients(base, spec, k), GoalClients(base, spec);
    assert forall id :: id in ClientIds(spec.clients)[..k] ==> id in ClientIds(spec.clients);
    assert c.Keys == goal.Keys;
    forall n | n in c ensures c[n].body == goal[n].body && SubMap(c[n].mappers, goal[n].mappers) {
    }
    forall n | n in base.clients ensures SubMap(base.clients[n].mappers, c[n].mappers) {
    }
  }

  lemma RewriteIsBetween(a: map<string, Client>, c: map<string, Client>, b: map<string, Client>, id: string,
                         now: Client)
    requires ClientsBetween(a, c, b) && id in c && now.body == b[id].body
    requires SubMap(now.mappers, b[id].mappers) && (id in a ==> SubMap(a[id].mappers, now.mappers))
    ensures ClientsBetween(a, c[id := now], b)
  {
  }

  lemma MappingIsBetween(base: View, spec: RealmSpec, k: nat, done: set<string>)
    requires WellFormed(spec) && Feasible(base, spec) && k < |spec.clients|
    ensures ClientsBetween(base.clients, MappingClient(base, spec, k, done), GoalClients(base, spec))
  {
    var cs := spec.clients[k];
    var now := Client(Body(cs), Merged(WantedMappers(cs), MappersOf(base, cs.clientId), done));
    MappedAreBetween(base, spec, k);
    SpecForIndex(spec, k);
    MergedLies(WantedMappers(cs), MappersOf(base, cs.clientId), done);
    RewriteIsBetween(base.clients, MappedClients(base, spec, k), GoalClients(base, spec), cs.clientId, now);
  }

  /** Once the grant is through, only the clients matter. */
  lemma ClientsSuffice(base: View, spec: RealmSpec, clients: map<string, Client>)
    requires WellFormed(spec) && ClientsBetween(base.clients, clients, GoalClients(base, spec))
    ensures Between(base, GrantedView(base, spec).(clients := clients), Goal(base, spec))
  {
    GrantedIsBetween(base, spec);
  }

  lemma WrittenOnTheWay(base: View, spec: RealmSpec, k: nat)
    requires WellFormed(spec) && Feasible(base, spec) && k <= |spec.clients|
    ensures Between(base, GrantedView(base, spec).(clients := WrittenClients(base, spec, k)), Goal(base, spec))
  {
    WrittenAreBetween(base, spec, k);
    ClientsSuffice(base, spec, WrittenClients(base, spec, k));
  }

  lemma MappedOnTheWay(base: View, spec: RealmSpec, k: nat)
    requires WellFormed(spec) && Feasible(base, spec) && k <= |spec.clients|
    ensures Between(base, MappedView(base, spec, k), Goal(base, spec))
  {
    MappedAreBetween(base, spec, k);
    ClientsSuffice(base, spec, MappedClients(base, spec, k));
  }

  lemma MappingOnTheWay(base: View, spec: RealmSpec, k: nat, done: set<string>)
    requires WellFormed(spec) && Feasible(base, spec) && k < |spec.clients|
    ensures Between(base, GrantedView(base, spec).(clients := MappingClient(base, spec, k, done)), Goal(base, spec))
  {
    MappingIsBetween(base, spec, k, done);
    ClientsSuffice(base, spec, MappingClient(base, spec, k, done));
  }

  lemma MappedIsGoal(base: View, spec: RealmSpec)
    requires WellFormed(spec) && Feasible(base, spec)
    ensures MappedView(base, spec, |spec.clients|) == Goal(base, spec)
    ensures Between(base, Goal(base, spec), Goal(base, spec))
  {
    MappersDone(base, spec);
    GoalIsBetween(base, spec);
  }
}
