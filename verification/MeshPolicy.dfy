/**
 * The mesh ACL `Policy` renders (internal/headscale/headscale.go) for the roster `policyTenants` builds
 * (internal/cli/tenant.go), and what a packet filter that obeys it lets through.
 */
module MeshPolicy {
  import opened Text

  const FLEET_USER := "mksrv-fleet"

  datatype WebEndpoint = WebEndpoint(target: string)

  datatype Tenant = Tenant(meshRoutes: seq<string>, web: seq<WebEndpoint>)

  datatype PolicyTenant = PolicyTenant(id: string, routes: seq<string>, webPorts: seq<string>)

  /** One entry of a port list: a range, or a number as the workspace spells it. */
  datatype PortSpec = Range(lo: nat, hi: nat) | Spelled(digits: string)

  datatype Ports = AnyPort | Listed(specs: seq<PortSpec>)

  /** `<user>@` owns the destination, or `<cidr>` covers its address. */
  datatype Destination = NodesOf(user: string) | Subnet(cidr: string)

  /** `{ "action": "accept", "src": ["<src>@"], "dst": ["<dst>:<ports>"] }`. */
  datatype Rule = Accept(src: string, dst: Destination, ports: Ports)

  /** `22,80,443,3000,3010-3019,5050,5432,6379,8090,8200,9090`. */
  const FLEET_PORTS := [Range(22, 22), Range(80, 80), Range(443, 443), Range(3000, 3000), Range(3010, 3019),
                        Range(5050, 5050), Range(5432, 5432), Range(6379, 6379), Range(8090, 8090), Range(8200, 8200),
                        Range(9090, 9090)]

  function SpellAll(digits: seq<string>): (r: seq<PortSpec>)
    ensures |r| == |digits| && forall i :: 0 <= i < |r| ==> r[i] == Spelled(digits[i])
  {
    seq(|digits|, i requires 0 <= i < |digits| => Spelled(digits[i]))
  }

  function RouteRules(id: string, routes: seq<string>): (r: seq<Rule>)
    ensures |r| == |routes| && forall i :: 0 <= i < |r| ==> r[i] == Accept(id, Subnet(routes[i]), AnyPort)
  {
    seq(|routes|, i requires 0 <= i < |routes| => Accept(id, Subnet(routes[i]), AnyPort))
  }

  function WebRules(t: PolicyTenant): seq<Rule> {
    if t.webPorts == [] then [] else [Accept(FLEET_USER, NodesOf(t.id), Listed(SpellAll(t.webPorts)))]
  }

  function TenantRules(t: PolicyTenant): seq<Rule> {
    [Accept(t.id, NodesOf(t.id), AnyPort), Accept(t.id, NodesOf(FLEET_USER), Listed(FLEET_PORTS))]
    + RouteRules(t.id, t.routes) + WebRules(t)
  }

  function Rules(tenants: seq<PolicyTenant>): seq<Rule> {
    if tenants == [] then [Accept(FLEET_USER, NodesOf(FLEET_USER), AnyPort)]
    else Rules(tenants[..|tenants| - 1]) + TenantRules(tenants[|tenants| - 1])
  }

  /** One turn of the loop of `Policy`. */
  method AppendTenant(before: seq<Rule>, t: PolicyTenant) returns (rules: seq<Rule>)
    ensures rules == before + TenantRules(t)
  {
    ghost var own := [Accept(t.id, NodesOf(t.id), AnyPort), Accept(t.id, NodesOf(FLEET_USER), Listed(FLEET_PORTS))];
    rules := before
      + [Accept(t.id, NodesOf(t.id), AnyPort), Accept(t.id, NodesOf(FLEET_USER), Listed(FLEET_PORTS))];
    ghost var routes := RouteRules(t.id, t.routes);
    for j := 0 to |t.routes|
      invariant rules == before + own + routes[..j]
    {
      rules := rules + [Accept(t.id, Subnet(t.routes[j]), AnyPort)];
    }
    assert routes[..|t.routes|] == routes;
    Regroup(before, own, routes);
    Regroup(before, own + routes, WebRules(t));
    if |t.webPorts| > 0 {
      rules := rules + [Accept(FLEET_USER, NodesOf(t.id), Listed(SpellAll(t.webPorts)))];
    }
  }

  /** `Policy`, before its rules are printed. */
  method Policy(tenants: seq<PolicyTenant>) returns (rules: seq<Rule>)
    ensures rules == Rules(tenants)
  {
    rules := [Accept(FLEET_USER, NodesOf(FLEET_USER), AnyPort)];
    for i := 0 to |tenants|
      invariant rules == Rules(tenants[..i])
    {
      rules := AppendTenant(rules, tenants[i]);
      PrefixStep(tenants, i);
    }
    assert tenants[..|tenants|] == tenants;
  }

  predicate IsNumber(digits: string) {
    digits != "" && forall i :: 0 <= i < |digits| ==> '0' <= digits[i] <= '9'
  }

  function Number(digits: string): nat
    requires forall i :: 0 <= i < |digits| ==> '0' <= digits[i] <= '9'
  {
    if digits == "" then 0
    else Number(digits[..|digits| - 1]) * 10 + (digits[|digits| - 1] as int - '0' as int)
  }

  /** A number as it is written. */
  function Decimal(n: nat): (s: string)
    ensures s != "" && forall i :: 0 <= i < |s| ==> '0' <= s[i] <= '9'
  {
    if n < 10 then [('0' as int + n) as char] else Decimal(n / 10) + [('0' as int + n % 10) as char]
  }

  /** A port of the workspace is read as the number it spells. */
  lemma {:induction false} DecimalReads(n: nat)
    ensures IsNumber(Decimal(n)) && Number(Decimal(n)) == n
  {
    if n < 10 {
      assert Number(Decimal(n)[..0]) == 0;
    } else {
      DecimalReads(n / 10);
      assert Decimal(n)[..|Decimal(n)| - 1] == Decimal(n / 10);
    }
  }

  predicate Opens(spec: PortSpec, port: nat) {
    match spec
    case Range(lo, hi) => lo <= port <= hi
    case Spelled(digits) => IsNumber(digits) && Number(digits) == port
  }

  predicate Admits(ports: Ports, port: nat) {
    ports.AnyPort? || exists i :: 0 <= i < |ports.specs| && Opens(ports.specs[i], port)
  }

  /**
   * A connection from a node of user `src` to an address and port. `owner` is the user of the node that has the
   * address; None is an address behind a subnet router.
   */
  datatype Packet = Packet(src: string, owner: Option<string>, address: nat, port: nat)

  /** Which addresses a CIDR covers. */
  type Cover = (string, nat) -> bool

  predicate Permits(covers: Cover, rule: Rule, p: Packet) {
    && rule.src == p.src && Admits(rule.ports, p.port)
    && match rule.dst
       case NodesOf(user) => p.owner == Some(user)
       case Subnet(cidr) => covers(cidr, p.address)
  }

  /** The filter accepts what some rule permits and nothing else. */
  predicate Accepts(covers: Cover, rules: seq<Rule>, p: Packet) {
    exists i :: 0 <= i < |rules| && Permits(covers, rules[i], p)
  }

  lemma AcceptsAppend(covers: Cover, a: seq<Rule>, b: seq<Rule>, p: Packet)
    ensures Accepts(covers, a + b, p) <==> Accepts(covers, a, p) || Accepts(covers, b, p)
  {
    if Accepts(covers, a, p) {
      var i :| 0 <= i < |a| && Permits(covers, a[i], p);
      assert (a + b)[i] == a[i];
    }
    if Accepts(covers, b, p) {
      var i :| 0 <= i < |b| && Permits(covers, b[i], p);
      assert (a + b)[|a| + i] == b[i];
    }
  }

  lemma AcceptsOne(covers: Cover, rule: Rule, p: Packet)
    ensures Accepts(covers, [rule], p) <==> Permits(covers, rule, p)
  {
    if Permits(covers, rule, p) {
      assert Permits(covers, [rule][0], p);
    }
  }

  /** One of the tenant's routes covers the address. */
  predicate Routed(covers: Cover, routes: seq<string>, address: nat) {
    exists i :: 0 <= i < |routes| && covers(routes[i], address)
  }

  lemma RoutesAccept(covers: Cover, id: string, routes: seq<string>, p: Packet)
    ensures Accepts(covers, RouteRules(id, routes), p) <==> p.src == id && Routed(covers, routes, p.address)
  {
    var rules := RouteRules(id, routes);
    if p.src == id && Routed(covers, routes, p.address) {
      var i :| 0 <= i < |routes| && covers(routes[i], p.address);
      assert Permits(covers, rules[i], p);
    }
  }

  predicate OpensWeb(t: PolicyTenant, port: nat) {
    exists i :: 0 <= i < |t.webPorts| && Opens(Spelled(t.webPorts[i]), port)
  }

  lemma WebAccept(covers: Cover, t: PolicyTenant, p: Packet)
    ensures Accepts(covers, WebRules(t), p)
       <==> p.src == FLEET_USER && p.owner == Some(t.id) && OpensWeb(t, p.port)
  {
    if t.webPorts != [] {
      var specs := SpellAll(t.webPorts);
      AcceptsOne(covers, Accept(FLEET_USER, NodesOf(t.id), Listed(specs)), p);
      if OpensWeb(t, p.port) {
        var i :| 0 <= i < |t.webPorts| && Opens(Spelled(t.webPorts[i]), p.port);
        assert Opens(specs[i], p.port);
      }
    }
  }

  predicate FleetPort(port: nat) {
    Admits(Listed(FLEET_PORTS), port)
  }

  /** What the tenant's rules let its own nodes reach. */
  predicate TenantMay(covers: Cover, t: PolicyTenant, p: Packet) {
    || p.owner == Some(t.id) || (p.owner == Some("mksrv-fleet") && FleetPort(p.port))
    || Routed(covers, t.routes, p.address)
  }

  lemma TenantAccept(covers: Cover, t: PolicyTenant, p: Packet)
    ensures Accepts(covers, TenantRules(t), p)
       <==> (p.src == t.id && TenantMay(covers, t, p))
            || (p.src == FLEET_USER && p.owner == Some(t.id) && OpensWeb(t, p.port))
  {
    var own, fleet := Accept(t.id, NodesOf(t.id), AnyPort), Accept(t.id, NodesOf(FLEET_USER), Listed(FLEET_PORTS));
    assert TenantRules(t) == [own] + [fleet] + RouteRules(t.id, t.routes) + WebRules(t);
    AcceptsAppend(covers, [own] + [fleet] + RouteRules(t.id, t.routes), WebRules(t), p);
    AcceptsAppend(covers, [own] + [fleet], RouteRules(t.id, t.routes), p);
    AcceptsAppend(covers, [own], [fleet], p);
    AcceptsOne(covers, own, p);
    AcceptsOne(covers, fleet, p);
    RoutesAccept(covers, t.id, t.routes, p);
    WebAccept(covers, t, p);
  }

  predicate TenantAccepts(covers: Cover, t: PolicyTenant, p: Packet) {
    Accepts(covers, TenantRules(t), p)
  }

  ghost predicate SomeTenantAccepts(covers: Cover, tenants: seq<PolicyTenant>, p: Packet) {
    exists i :: 0 <= i < |tenants| && TenantAccepts(covers, tenants[i], p)
  }

  lemma OneMoreTenant(covers: Cover, init: seq<PolicyTenant>, t: PolicyTenant, p: Packet)
    ensures SomeTenantAccepts(covers, init + [t], p)
       <==> SomeTenantAccepts(covers, init, p) || TenantAccepts(covers, t, p)
  {
    if SomeTenantAccepts(covers, init, p) {
      var i :| 0 <= i < |init| && TenantAccepts(covers, init[i], p);
      assert (init + [t])[i] == init[i];
    }
    assert (init + [t])[|init|] == t;
  }

  lemma {:induction false} RulesAccept(covers: Cover, tenants: seq<PolicyTenant>, p: Packet)
    ensures Accepts(covers, Rules(tenants), p)
       <==> (p.src == FLEET_USER && p.owner == Some(FLEET_USER)) || SomeTenantAccepts(covers, tenants, p)
    decreases |tenants|
  {
    if tenants == [] {
      AcceptsOne(covers, Accept(FLEET_USER, NodesOf(FLEET_USER), AnyPort), p);
    } else {
      var n := |tenants| - 1;
      var init := tenants[..n];
      RulesAccept(covers, init, p);
      AcceptsAppend(covers, Rules(init), TenantRules(tenants[n]), p);
      OneMoreTenant(covers, init, tenants[n], p);
      assert tenants == init + [tenants[n]];
    }
  }

  /** A roster the workspace can hold: one entry an id, and no tenant under the fleet's own name. */
  ghost predicate IsRoster(tenants: seq<PolicyTenant>) {
    && (forall i, j :: 0 <= i < j < |tenants| ==> tenants[i].id != tenants[j].id)
    && forall i :: 0 <= i < |tenants| ==> tenants[i].id != "mksrv-fleet"
  }

  /** A tenant reaches its own nodes, the fleet on the listed ports, its own routes, and nothing else. */
  lemma TenantReaches(covers: Cover, tenants: seq<PolicyTenant>, k: nat, p: Packet)
    requires IsRoster(tenants) && k < |tenants| && p.src == tenants[k].id
    ensures Accepts(covers, Rules(tenants), p) <==> TenantMay(covers, tenants[k], p)
  {
    RulesAccept(covers, tenants, p);
    forall i | 0 <= i < |tenants|
      ensures Accepts(covers, TenantRules(tenants[i]), p) <==> i == k && TenantMay(covers, tenants[k], p) {
      TenantAccept(covers, tenants[i], p);
    }
  }

  /** The fleet reaches the fleet, and a tenant's nodes on that tenant's web ports, and nothing else. */
  lemma FleetReaches(covers: Cover, tenants: seq<PolicyTenant>, p: Packet)
    requires IsRoster(tenants) && p.src == "mksrv-fleet"
    ensures Accepts(covers, Rules(tenants), p)
       <==> p.owner == Some("mksrv-fleet")
            || exists i :: 0 <= i < |tenants| && p.owner == Some(tenants[i].id) && OpensWeb(tenants[i], p.port)
  {
    RulesAccept(covers, tenants, p);
    forall i | 0 <= i < |tenants|
      ensures Accepts(covers, TenantRules(tenants[i]), p)
         <==> p.owner == Some(tenants[i].id) && OpensWeb(tenants[i], p.port) {
      TenantAccept(covers, tenants[i], p);
    }
  }

  /** A user outside the roster reaches nothing. */
  lemma StrangerReachesNothing(covers: Cover, tenants: seq<PolicyTenant>, p: Packet)
    requires p.src != "mksrv-fleet" && forall i :: 0 <= i < |tenants| ==> tenants[i].id != p.src
    ensures !Accepts(covers, Rules(tenants), p)
  {
    RulesAccept(covers, tenants, p);
    forall i | 0 <= i < |tenants| ensures !Accepts(covers, TenantRules(tenants[i]), p) {
      TenantAccept(covers, tenants[i], p);
    }
  }

  /**
   * Tenants cannot reach each other, with one exception the rules do not rule out: a route is matched by address alone,
   * so a tenant reaches another tenant's node exactly when one of its own routes covers that node's address.
   */
  lemma TenantsAreApartIff(covers: Cover, tenants: seq<PolicyTenant>, a: nat, b: nat, p: Packet)
    requires IsRoster(tenants) && a < |tenants| && b < |tenants| && a != b
    requires p.src == tenants[a].id && p.owner == Some(tenants[b].id)
    ensures Accepts(covers, Rules(tenants), p) <==> Routed(covers, tenants[a].routes, p.address)
  {
    TenantReaches(covers, tenants, a, p);
  }

  /** Without the roster's condition on names: a tenant called like the fleet reaches the fleet on every port. */
  lemma FleetNameGivesAllPorts(covers: Cover, tenants: seq<PolicyTenant>, k: nat, p: Packet)
    requires k < |tenants| && tenants[k].id == "mksrv-fleet"
    requires p.src == tenants[k].id && p.owner == Some("mksrv-fleet")
    ensures Accepts(covers, Rules(tenants), p)
  {
    RulesAccept(covers, tenants, p);
  }

  lemma FleetPorts(port: nat)
    ensures FleetPort(port)
       <==> port in {22, 80, 443, 3000, 5050, 5432, 6379, 8090, 8200, 9090} || 3010 <= port <= 3019
  {
    var specs := Listed(FLEET_PORTS).specs;
    assert |specs| == 11;
    assert Opens(specs[0], port) <==> port == 22;
    assert Opens(specs[1], port) <==> port == 80;
    assert Opens(specs[2], port) <==> port == 443;
    assert Opens(specs[3], port) <==> port == 3000;
    assert Opens(specs[4], port) <==> 3010 <= port <= 3019;
    assert Opens(specs[5], port) <==> port == 5050;
    assert Opens(specs[6], port) <==> port == 5432;
    assert Opens(specs[7], port) <==> port == 6379;
    assert Opens(specs[8], port) <==> port == 8090;
    assert Opens(specs[9], port) <==> port == 8200;
    assert Opens(specs[10], port) <==> port == 9090;
  }

  /** The last place of a character, or -1. */
  function LastIndex(s: string, c: char): (i: int)
    ensures -1 <= i < |s|
    ensures i >= 0 ==> s[i] == c && c !in s[i + 1..]
    ensures i < 0 ==> c !in s
  {
    if s == "" then -1
    else if s[|s| - 1] == c then |s| - 1
    else
      var i := LastIndex(s[..|s| - 1], c);
      assert s == s[..|s| - 1] + [s[|s| - 1]];
      assert i >= 0 ==> s[i + 1..] == s[..|s| - 1][i + 1..] + [s[|s| - 1]];
      i
  }

  /** The first place of a character, or -1. */
  function FirstIndex(s: string, c: char): (i: int)
    ensures -1 <= i < |s|
    ensures i >= 0 ==> s[i] == c && c !in s[..i]
    ensures i < 0 ==> c !in s
  {
    if s == "" then -1
    else if s[0] == c then 0
    else
      var i := FirstIndex(s[1..], c);
      assert s == [s[0]] + s[1..];
      assert i >= 0 ==> s[..i + 1] == [s[0]] + s[1..][..i];
      if i < 0 then -1 else i + 1
  }

  /** The port `net.SplitHostPort` finds; None is its error. */
  function PortOf(target: string): Option<string> {
    var i := LastIndex(target, ':');
    if i < 0 then None
    else if target[0] == '[' then
      var end := FirstIndex(target, ']');
      if end < 0 || end + 1 != i || '[' in target[1..] || ']' in target[end + 1..] then None
      else Some(target[i + 1..])
    else if ':' in target[..i] || '[' in target || ']' in target then None
    else Some(target[i + 1..])
  }

  predicate Unbracketed(s: string) {
    '[' !in s && ']' !in s
  }

  /** `<host>:<port>`, or `[<host>]:<port>` for a host that holds colons. */
  predicate Spells(target: string, host: string, port: string) {
    && Unbracketed(host) && Unbracketed(port) && ':' !in port
    && ((target == host + ":" + port && ':' !in host) || target == "[" + host + "]:" + port)
  }

  lemma LastIndexIs(s: string, a: string, b: string, c: char)
    requires s == a + [c] + b && c !in b
    ensures LastIndex(s, c) == |a|
  {
    var i := LastIndex(s, c);
    assert s[|a|] == c;
    assert forall k :: |a| < k < |s| ==> s[k] == b[k - |a| - 1];
  }

  lemma FirstIndexIs(s: string, a: string, b: string, c: char)
    requires s == a + [c] + b && c !in a
    ensures FirstIndex(s, c) == |a|
  {
    var i := FirstIndex(s, c);
    assert s[|a|] == c;
    assert forall k :: 0 <= k < |a| ==> s[k] == a[k];
  }

  lemma BracketColon(target: string, host: string, port: string)
    requires ':' !in port && target == "[" + host + "]:" + port
    ensures LastIndex(target, ':') == |host| + 2 && target[|host| + 3..] == port
  {
    var head := "[" + host + "]";
    assert target == head + [':'] + port;
    LastIndexIs(target, head, port, ':');
  }

  lemma BracketEnd(target: string, host: string, port: string)
    requires ']' !in host && target == "[" + host + "]:" + port
    ensures FirstIndex(target, ']') == |host| + 1 && target[0] == '['
    ensures target[1..] == host + "]:" + port && target[|host| + 2..] == ":" + port
  {
    assert target == ("[" + host) + [']'] + (":" + port);
    FirstIndexIs(target, "[" + host, ":" + port, ']');
  }

  lemma BracketedPort(target: string, host: string, port: string)
    requires Unbracketed(host) && Unbracketed(port) && ':' !in port && target == "[" + host + "]:" + port
    ensures PortOf(target) == Some(port)
  {
    BracketColon(target, host, port);
    BracketEnd(target, host, port);
  }

  lemma PlainPort(target: string, host: string, port: string)
    requires Unbracketed(host) && Unbracketed(port) && ':' !in port && ':' !in host && target == host + ":" + port
    ensures PortOf(target) == Some(port)
  {
    assert target == host + [':'] + port;
    LastIndexIs(target, host, port, ':');
    assert target[..|host|] == host && target[|host| + 1..] == port;
    assert target[0] != '[' by { if host != "" { assert target[0] == host[0]; } }
  }

  lemma PortIsSpelled(target: string) returns (host: string)
    requires PortOf(target).Some?
    ensures Spells(target, host, PortOf(target).value)
  {
    var i := LastIndex(target, ':');
    var port := target[i + 1..];
    if target[0] == '[' {
      host := target[1..i - 1];
      assert target == "[" + host + "]:" + port;
      assert forall c :: c in host ==> c in target[1..] && c in target[..i - 1];
      assert forall c :: c in port ==> c in target[1..] && c in target[i..];
    } else {
      host := target[..i];
      assert target == host + ":" + port;
    }
  }

  /** The port is found exactly on targets of the two forms. */
  lemma PortOfIff(target: string, port: string)
    ensures PortOf(target) == Some(port) <==> exists host :: Spells(target, host, port)
  {
    if PortOf(target) == Some(port) {
      var host := PortIsSpelled(target);
    }
    if host :| Spells(target, host, port) {
      if target == "[" + host + "]:" + port {
        BracketedPort(target, host, port);
      } else {
        PlainPort(target, host, port);
      }
    }
  }

  /** The origin ports: what some target names after its colon. */
  ghost predicate IsOriginPort(web: seq<WebEndpoint>, port: string) {
    IsNamed(web, |web|, port)
  }

  ghost predicate IsNamed(web: seq<WebEndpoint>, n: nat, port: string)
    requires n <= |web|
  {
    port != "" && exists i :: 0 <= i < n && PortOf(web[i].target) == Some(port)
  }

  /** `webOriginPorts`. */
  method WebOriginPorts(web: seq<WebEndpoint>) returns (ports: seq<string>)
    ensures IsSorted(ports) && |ports| == |Members(ports)|
    ensures forall port :: port in ports <==> IsOriginPort(web, port)
  {
    var found: set<string> := {};
    for i := 0 to |web|
      invariant forall port :: port in found <==> IsNamed(web, i, port)
    {
      var port := PortOf(web[i].target);
      assert forall q :: IsNamed(web, i + 1, q) <==> IsNamed(web, i, q) || (q != "" && port == Some(q));
      if port.Some? && port.value != "" {
        found := found + {port.value};
      }
    }
    ports := SortedKeys(found);
    assert forall port :: port in ports <==> port in Members(ports);
  }

  /** The roster `policyTenants` hands to `Policy`: every tenant once, in the order of the ids. */
  ghost predicate IsPolicyRoster(tenants: map<string, Tenant>, roster: seq<PolicyTenant>) {
    && (forall i, j :: 0 <= i < j < |roster| ==> roster[i].id != roster[j].id && LessEq(roster[i].id, roster[j].id))
    && (forall i :: 0 <= i < |roster| ==> IsPolicyEntry(tenants, roster[i]))
    && forall id :: id in tenants ==> exists i :: 0 <= i < |roster| && roster[i].id == id
  }

  ghost predicate IsPolicyEntry(tenants: map<string, Tenant>, t: PolicyTenant) {
    && t.id in tenants && t.routes == tenants[t.id].meshRoutes
    && forall port :: port in t.webPorts <==> IsOriginPort(tenants[t.id].web, port)
  }

  lemma ListedIsRoster(tenants: map<string, Tenant>, ids: seq<string>, roster: seq<PolicyTenant>)
    requires Members(ids) == tenants.Keys && |roster| == |ids|
    requires forall i, j :: 0 <= i < j < |ids| ==> ids[i] != ids[j] && LessEq(ids[i], ids[j])
    requires forall i :: 0 <= i < |ids| ==> roster[i].id == ids[i] && IsPolicyEntry(tenants, roster[i])
    ensures IsPolicyRoster(tenants, roster)
  {
    forall id | id in tenants ensures exists i :: 0 <= i < |roster| && roster[i].id == id {
      assert id in Members(ids);
      var i :| 0 <= i < |ids| && ids[i] == id;
      assert roster[i].id == id;
    }
  }

  /** `policyTenants`. */
  method PolicyTenants(tenants: map<string, Tenant>) returns (roster: seq<PolicyTenant>)
    ensures IsPolicyRoster(tenants, roster)
  {
    roster := [];
    var ids := SortedKeys(tenants.Keys);
    CountedIsDistinct(ids);
    for i := 0 to |ids|
      invariant |roster| == i
      invariant forall j :: 0 <= j < i ==> roster[j].id == ids[j] && IsPolicyEntry(tenants, roster[j])
    {
      assert ids[i] in Members(ids);
      var t := tenants[ids[i]];
      var ports := WebOriginPorts(t.web);
      roster := roster + [PolicyTenant(ids[i], t.meshRoutes, ports)];
    }
    ListedIsRoster(tenants, ids, roster);
  }

  /**
   * Every roster `policyTenants` builds is one the reachability results apply to, unless a tenant has the fleet's name.
   */
  lemma PolicyRosterIsRoster(tenants: map<string, Tenant>, roster: seq<PolicyTenant>)
    requires IsPolicyRoster(tenants, roster)
    ensures IsRoster(roster) <==> "mksrv-fleet" !in tenants
  {
    if FLEET_USER in tenants {
      var i :| 0 <= i < |roster| && roster[i].id == FLEET_USER;
    } else {
      assert forall i :: 0 <= i < |roster| ==> IsPolicyEntry(tenants, roster[i]);
    }
  }
}
