/**
 * What a finished run of EnsureRealm leaves on the server, field by field (internal/keycloak/reconcile.go): the goal
 * spelled out, without the functions the run is built from.
 */
module RealmContent {
  import opened Text
  import opened Keycloak
  import opened RealmGoal

  /** One client of the spec as the realm holds it; `before` are the mappers it had. */
  ghost predicate ClientDelivered(c: Client, cs: ClientSpec, before: map<string, Mapper>) {
    && c.body.publicClient == cs.publicClient
    && c.body.serviceAccounts == !cs.publicClient
    && c.body.redirectUris == cs.redirectUris
    && (cs.webOrigins.Some? ==> c.body.webOrigins == cs.webOrigins.value)
    && (cs.webOrigins.None? ==> c.body.webOrigins == ["+"])
    && MappersDelivered(c.mappers, cs, before)
  }

  /** The mappers it had, as they were, and of the wanted ones those whose names were free; no others. */
  ghost predicate MappersDelivered(now: map<string, Mapper>, cs: ClientSpec, before: map<string, Mapper>) {
    && (forall n :: n in before ==> n in now && now[n] == before[n])
    && (forall claim :: claim in cs.hardcodedClaims && "mksrv-" + claim !in before ==>
          "mksrv-" + claim in now && now["mksrv-" + claim] == HardcodedClaim(claim, cs.hardcodedClaims[claim]))
    && (cs.groupsClaim && "mksrv-groups" !in before ==> "mksrv-groups" in now && now["mksrv-groups"] == GroupMembership)
    && (forall n :: n in now && n !in before ==>
          || (cs.groupsClaim && n == "mksrv-groups")
          || exists claim :: claim in cs.hardcodedClaims && n == "mksrv-" + claim)
  }

  ghost predicate SettingsDelivered(now: Settings, spec: RealmSpec, before: Settings) {
    && now.displayName == before.displayName
    && now.loginTheme == (if spec.loginTheme != "" then spec.loginTheme else before.loginTheme)
    && (spec.smtp.Some? ==> now.smtp == spec.smtp && now.resetPassword)
    && (spec.smtp.None? ==> now.smtp == before.smtp && now.resetPassword == before.resetPassword)
  }

  /** Which roles of the realm-management client a group has. */
  ghost predicate GroupDelivered(now: set<string>, group: string, spec: RealmSpec, before: set<string>,
                                 offered: set<string>) {
    forall role :: role in now <==>
      role in before
      || (group == spec.adminGroup && group != "" && role in offered
          && (role == "manage-users" || role == "query-users" || role == "query-groups" || role == "view-users"))
  }

  /** The whole realm. */
  ghost predicate Delivered(v: View, spec: RealmSpec, base: View) {
    && SettingsDelivered(v.settings, spec, base.settings)
    && (forall g :: g in v.groups <==> g in base.groups || g in spec.groups)
    && (forall g :: g in v.groups ==>
          GroupDelivered(v.groups[g], g, spec, if g in base.groups then base.groups[g] else {}, base.managementRoles))
    && (forall id :: id in v.clients <==> id in base.clients || exists cs :: cs in spec.clients && cs.clientId == id)
    && (forall cs :: cs in spec.clients ==>
          cs.clientId in v.clients
          && ClientDelivered(v.clients[cs.clientId], cs,
                             if cs.clientId in base.clients then base.clients[cs.clientId].mappers else map[]))
    && (forall id :: id in base.clients && (forall cs :: cs in spec.clients ==> cs.clientId != id) ==>
          v.clients[id] == base.clients[id])
  }

  lemma WantedMappersAre(cs: ClientSpec, before: map<string, Mapper>)
    requires cs.groupsClaim ==> "groups" !in cs.hardcodedClaims
    ensures MappersDelivered(WantedMappers(cs) + before, cs, before)
  {
    var now := WantedMappers(cs) + before;
    forall claim | claim in cs.hardcodedClaims && "mksrv-" + claim !in before
      ensures "mksrv-" + claim in now && now["mksrv-" + claim] == HardcodedClaim(claim, cs.hardcodedClaims[claim])
    {
      HardcodedMapperIsWanted(cs, claim);
      assert MapperName(claim) == "mksrv-" + claim;
    }
    forall n | n in now && n !in before && !(cs.groupsClaim && n == "mksrv-groups")
      ensures exists claim :: claim in cs.hardcodedClaims && n == "mksrv-" + claim
    {
      var claim :| claim in cs.hardcodedClaims && n == MapperName(claim);
      assert n == "mksrv-" + claim;
    }
  }

  lemma GoalDeliversGroups(base: View, spec: RealmSpec)
    requires Feasible(base, spec)
    ensures forall g :: g in GoalGroups(base, spec) <==> g in base.groups || g in spec.groups
    ensures forall g :: g in GoalGroups(base, spec) ==>
              GroupDelivered(GoalGroups(base, spec)[g], g, spec, if g in base.groups then base.groups[g] else {},
                             base.managementRoles)
  {
    assert forall g :: g in Members(spec.groups) <==> g in spec.groups;
  }

  lemma SpecForIs(spec: RealmSpec, cs: ClientSpec)
    requires WellFormed(spec) && cs in spec.clients
    ensures cs.clientId in ClientIds(spec.clients) && SpecFor(spec, cs.clientId) == cs
  {
    var i :| 0 <= i < |spec.clients| && spec.clients[i] == cs;
    SpecForIndex(spec, i);
  }

  lemma ClientIdIff(spec: RealmSpec, id: string)
    ensures id in ClientIds(spec.clients) <==> exists cs :: cs in spec.clients && cs.clientId == id
  {
    if id in ClientIds(spec.clients) {
      var i :| 0 <= i < |spec.clients| && ClientIds(spec.clients)[i] == id;
      assert spec.clients[i] in spec.clients;
    }
    if cs :| cs in spec.clients && cs.clientId == id {
      var i :| 0 <= i < |spec.clients| && spec.clients[i] == cs;
      assert ClientIds(spec.clients)[i] == id;
    }
  }

  lemma GoalDeliversClient(base: View, spec: RealmSpec, cs: ClientSpec)
    requires WellFormed(spec) && Feasible(base, spec) && cs in spec.clients
    ensures cs.clientId in GoalClients(base, spec)
    ensures ClientDelivered(GoalClients(base, spec)[cs.clientId], cs,
                            if cs.clientId in base.clients then base.clients[cs.clientId].mappers else map[])
  {
    SpecForIs(spec, cs);
    WantedMappersAre(cs, MappersOf(base, cs.clientId));
    assert cs.clientId in Members(ClientIds(spec.clients));
  }

  /** The goal of a feasible run is what the spec asks for, no more and no less. */
  lemma GoalDelivers(base: View, spec: RealmSpec)
    requires WellFormed(spec) && Feasible(base, spec)
    ensures Delivered(Goal(base, spec), spec, base)
  {
    var v := Goal(base, spec);
    GoalDeliversGroups(base, spec);
    forall cs | cs in spec.clients
      ensures cs.clientId in v.clients
      ensures ClientDelivered(v.clients[cs.clientId], cs,
                              if cs.clientId in base.clients then base.clients[cs.clientId].mappers else map[])
    {
      GoalDeliversClient(base, spec, cs);
    }
    forall id ensures id in ClientIds(spec.clients) <==> exists cs :: cs in spec.clients && cs.clientId == id {
      ClientIdIff(spec, id);
    }
    assert forall id :: id in Members(ClientIds(spec.clients)) <==> id in ClientIds(spec.clients);
  }
}
