/** PostgREST host ports (internal/cli/postgrest.go) and the ports the roster announces (internal/cli/tenant.go). */
module Ports {
  import opened Text
  import MeshPolicy

  const BASE_PORT := 3010

  /** What the modelled code reads of a tenant; `postgrest` is None where the workspace leaves the setting out. */
  datatype Tenant = Tenant(stacks: seq<string>, postgrest: Option<bool>)

  /** `PostgRESTEnabled`. */
  predicate PostgRESTEnabled(t: Tenant): (r: bool)
    ensures r <==> t.postgrest != Some(false)
  {
    match t.postgrest
    case None => true
    case Some(enabled) => enabled
  }

  predicate IsConsumer(t: Tenant) {
    "database" in t.stacks && PostgRESTEnabled(t)
  }

  function Consumers(tenants: map<string, Tenant>): set<string> {
    set id | id in tenants && "database" in tenants[id].stacks && tenants[id].postgrest != Some(false)
  }

  /** `postgrestConsumerIDs`, over whatever order the map is walked in. */
  method PostgrestConsumerIDs(tenants: map<string, Tenant>) returns (ids: seq<string>)
    ensures IsSorted(ids) && Distinct(ids) && Members(ids) == Consumers(tenants)
  {
    var names := AnyOrder(tenants.Keys);
    ids := [];
    for i := 0 to |names|
      invariant Distinct(ids)
      invariant forall id :: id in ids <==> id in names[..i] && id in tenants && IsConsumer(tenants[id])
    {
      PrefixStep(names, i);
      var id := names[i];
      assert id in Members(names);
      if IsConsumer(tenants[id]) {
        assert id !in names[..i];
        ids := ids + [id];
      }
    }
    assert names[..|names|] == names;
    forall id ensures id in Members(ids) <==> id in Consumers(tenants) {
      assert id in Members(names) <==> id in tenants;
    }
    SortDistinct(ids);
    ids := Sorted(ids);
  }

  lemma SortDistinct(ids: seq<string>)
    requires Distinct(ids)
    ensures IsSorted(Sorted(ids)) && Distinct(Sorted(ids)) && Members(Sorted(ids)) == Members(ids)
  {
    SortedIsSorted(ids);
    SameMembers(Sorted(ids), ids);
    DistinctIsCounted(ids);
    assert Members(Sorted(ids)) == Members(ids);
    CountedIsDistinct(Sorted(ids));
  }

  lemma {:induction false} DistinctIsCounted(s: seq<string>)
    requires Distinct(s)
    ensures |Members(s)| == |s|
    decreases |s|
  {
    if s != [] {
      assert Members(s) == {s[0]} + Members(s[1..]);
      DistinctIsCounted(s[1..]);
    }
  }

  /** `slices.Index`. */
  function Index(ids: seq<string>, id: string): (i: int)
    ensures -1 <= i < |ids|
    ensures i >= 0 ==> ids[i] == id && id !in ids[..i]
    ensures i < 0 ==> id !in ids
  {
    if ids == [] then -1
    else if ids[0] == id then 0
    else
      var i := Index(ids[1..], id);
      assert ids == [ids[0]] + ids[1..];
      assert i >= 0 ==> ids[..i + 1] == [ids[0]] + ids[1..][..i];
      if i < 0 then -1 else i + 1
  }

  /** `postgrestPort`. */
  function PostgrestPort(sortedIDs: seq<string>, id: string): int {
    var i := Index(sortedIDs, id);
    if i < 0 then 0 else BASE_PORT + i
  }

  function Before(ids: set<string>, id: string): set<string> {
    set x | x in ids && Less(x, id)
  }

  /** How many of the ids sort before this one. */
  function Rank(ids: set<string>, id: string): nat {
    |Before(ids, id)|
  }

  lemma PrefixIsBefore(ids: seq<string>, i: nat)
    requires IsSorted(ids) && Distinct(ids) && i < |ids|
    ensures Before(Members(ids), ids[i]) == Members(ids[..i])
  {
    var id := ids[i];
    forall x ensures x in Before(Members(ids), id) <==> x in ids[..i] {
      if x in ids {
        var j :| 0 <= j < |ids| && ids[j] == x;
        LessEqTotal(x, id);
        assert j < i ==> ids[..i][j] == x;
        assert j > i ==> LessEq(id, x);
      }
    }
  }

  /** A port is 3010 and the number of listed ids that sort before the tenant's. */
  lemma PortIsRank(ids: seq<string>, id: string)
    requires IsSorted(ids) && Distinct(ids)
    ensures PostgrestPort(ids, id) == if id in ids then 3010 + Rank(Members(ids), id) else 0
  {
    if id in ids {
      var i := Index(ids, id);
      PrefixIsBefore(ids, i);
      DistinctIsCounted(ids[..i]);
    }
  }

  ghost predicate IsConsumerList(tenants: map<string, Tenant>, ids: seq<string>) {
    IsSorted(ids) && Distinct(ids) && Members(ids) == Consumers(tenants)
  }

  /** Some consumer has the port. */
  ghost predicate IsPort(tenants: map<string, Tenant>, ids: seq<string>, port: int) {
    exists id :: id in Consumers(tenants) && PostgrestPort(ids, id) == port
  }

  /** Consumers get each port from 3010 on, one apiece and with none left out; nobody else gets a port. */
  lemma PortsAreConsecutive(tenants: map<string, Tenant>, ids: seq<string>)
    requires IsConsumerList(tenants, ids)
    ensures |ids| == |Consumers(tenants)|
    ensures forall id :: PostgrestPort(ids, id) != 0 <==> id in Consumers(tenants)
    ensures forall a, b :: a in Consumers(tenants) && b in Consumers(tenants) && a != b
                           ==> PostgrestPort(ids, a) != PostgrestPort(ids, b)
    ensures forall port :: IsPort(tenants, ids, port) <==> 3010 <= port < 3010 + |Consumers(tenants)|
  {
    DistinctIsCounted(ids);
    forall id ensures id in Consumers(tenants) <==> id in ids {
      assert id in Members(ids) <==> id in ids;
    }
    forall port ensures IsPort(tenants, ids, port) <==> BASE_PORT <= port < BASE_PORT + |ids| {
      if BASE_PORT <= port < BASE_PORT + |ids| {
        var id := ids[port - BASE_PORT];
        assert PostgrestPort(ids, id) == port;
      }
    }
  }

  /** Two workspaces with the same consumers give every tenant the same port, whatever their other tenants. */
  lemma OthersMoveNoPort(tenants: map<string, Tenant>, ids: seq<string>, changed: map<string, Tenant>,
                         newIds: seq<string>)
    requires IsConsumerList(tenants, ids) && IsConsumerList(changed, newIds)
    requires Consumers(tenants) == Consumers(changed)
    ensures forall id :: PostgrestPort(ids, id) == PostgrestPort(newIds, id)
  {
    forall id ensures PostgrestPort(ids, id) == PostgrestPort(newIds, id) {
      PortIsRank(ids, id);
      PortIsRank(newIds, id);
      assert id in Members(ids) <==> id in Members(newIds);
    }
  }

  /** Adding or dropping a tenant moves no port exactly when that tenant is no consumer, or is the last of them. */
  lemma TenantMovesNoPortIff(tenants: map<string, Tenant>, ids: seq<string>, id: string, t: Tenant, newIds: seq<string>)
    requires id !in tenants && IsConsumerList(tenants, ids) && IsConsumerList(tenants[id := t], newIds)
    ensures (forall other :: other in tenants ==> PostgrestPort(ids, other) == PostgrestPort(newIds, other))
       <==> !IsConsumer(t) || forall other :: other in Consumers(tenants) ==> Less(other, id)
  {
    var more := tenants[id := t];
    assert Consumers(more) == if IsConsumer(t) then Consumers(tenants) + {id} else Consumers(tenants);
    forall other | other in tenants
      ensures PostgrestPort(ids, other) == PostgrestPort(newIds, other)
         <==> !IsConsumer(t) || other !in Consumers(tenants) || Less(other, id) {
      PortAfterAdding(Consumers(tenants), ids, id, IsConsumer(t), newIds, other);
    }
  }

  lemma PortAfterAdding(
    consumers: set<string>, ids: seq<string>, id: string, joins: bool, newIds: seq<string>, other: string)
    requires IsSorted(ids) && Distinct(ids) && Members(ids) == consumers
    requires IsSorted(newIds) && Distinct(newIds)
    requires Members(newIds) == if joins then consumers + {id} else consumers
    requires id !in consumers && other != id
    ensures PostgrestPort(ids, other) == PostgrestPort(newIds, other)
       <==> !joins || other !in consumers || Less(other, id)
  {
    PortIsRank(ids, other);
    PortIsRank(newIds, other);
    assert other in ids <==> other in consumers by { assert other in Members(ids) <==> other in ids; }
    assert other in newIds <==> other in consumers by { assert other in Members(newIds) <==> other in newIds; }
    LessEqTotal(other, id);
    if joins && other in consumers {
      if Less(id, other) {
        assert Before(Members(newIds), other) == Before(consumers, other) + {id};
      } else {
        assert Before(Members(newIds), other) == Before(consumers, other);
      }
    }
  }

  /** The mesh rules open every consumer's port exactly when there are at most ten consumers. */
  lemma AclCoversPortsIff(tenants: map<string, Tenant>, ids: seq<string>)
    requires IsConsumerList(tenants, ids)
    ensures (forall id :: id in Consumers(tenants) ==> MeshPolicy.FleetPort(PostgrestPort(ids, id)))
       <==> |Consumers(tenants)| <= 10
  {
    PortsAreConsecutive(tenants, ids);
    var n := |Consumers(tenants)|;
    if n <= 10 {
      forall id | id in Consumers(tenants) ensures MeshPolicy.FleetPort(PostgrestPort(ids, id)) {
        assert BASE_PORT <= PostgrestPort(ids, id) < BASE_PORT + n;
        MeshPolicy.FleetPorts(PostgrestPort(ids, id));
      }
    } else {
      var port := BASE_PORT + 10;
      assert IsPort(tenants, ids, port);
      var id :| id in Consumers(tenants) && PostgrestPort(ids, id) == port;
      MeshPolicy.FleetPorts(port);
    }
  }

  /** The tenants that push a roster port up: those before the tenant that have no PostgREST container. */
  function OthersBefore(tenants: map<string, Tenant>, id: string): set<string> {
    Before(tenants.Keys, id) - Consumers(tenants)
  }

  /** A tenant that lists the database stack is announced its place among all the tenants. */
  function RosterPort(tenants: map<string, Tenant>, id: string): int
    requires id in tenants
  {
    if "database" in tenants[id].stacks then 3010 + Rank(tenants.Keys, id) else 0
  }

  /** The port loop of `reconcileConfigd`: it indexes into every tenant id, not into the consumers. */
  method RosterPorts(tenants: map<string, Tenant>) returns (ports: map<string, int>)
    ensures ports.Keys == tenants.Keys
    ensures forall id :: id in ports ==> ports[id] == RosterPort(tenants, id)
  {
    var sortedIDs := SortedKeys(tenants.Keys);
    CountedIsDistinct(sortedIDs);
    ports := map[];
    for i := 0 to |sortedIDs|
      invariant ports.Keys == Members(sortedIDs[..i])
      invariant forall id :: id in ports ==> id in tenants && ports[id] == RosterPort(tenants, id)
    {
      PrefixStep(sortedIDs, i);
      var id := sortedIDs[i];
      assert id in Members(sortedIDs);
      var restPort := 0;
      if "database" in tenants[id].stacks {
        restPort := PostgrestPort(sortedIDs, id);
        PortIsRank(sortedIDs, id);
      }
      ports := ports[id := restPort];
    }
    assert sortedIDs[..|sortedIDs|] == sortedIDs;
  }

  /**
   * The announced port of a consumer is its container's port plus the number of tenants before it that have no
   * container.
   */
  lemma RosterPortIsOff(tenants: map<string, Tenant>, ids: seq<string>, id: string)
    requires IsConsumerList(tenants, ids) && id in Consumers(tenants)
    ensures RosterPort(tenants, id) == PostgrestPort(ids, id) + |OthersBefore(tenants, id)|
  {
    PortIsRank(ids, id);
    assert id in ids by { assert id in Members(ids); }
    var others, consumers := OthersBefore(tenants, id), Before(Consumers(tenants), id);
    assert Before(tenants.Keys, id) == others + consumers;
    assert |others + consumers| == |others| + |consumers|;
  }

  /**
   * A tenant is announced the port its container has (or no port where it has no container) exactly when it does not
   * list the database stack, or is a consumer with none but consumers before it.
   */
  lemma RosterAgreesIff(tenants: map<string, Tenant>, ids: seq<string>, id: string)
    requires IsConsumerList(tenants, ids) && id in tenants
    ensures RosterPort(tenants, id) == PostgrestPort(ids, id)
       <==> "database" !in tenants[id].stacks || (id in Consumers(tenants) && OthersBefore(tenants, id) == {})
  {
    PortIsRank(ids, id);
    assert id in ids <==> id in Consumers(tenants) by { assert id in ids <==> id in Members(ids); }
    if id in Consumers(tenants) {
      RosterPortIsOff(tenants, ids, id);
    }
  }
}
