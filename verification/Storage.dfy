/** Dedicated volumes: `checkHostStorage` (internal/workspace/semantic.go) and `hostVolumes` (internal/cli/infra.go). */
module Storage {
  import opened Text
  import opened Catalog

  datatype Host = Host(provider: string, stacks: seq<string>)

  datatype Request = Request(stack: string, name: string)

  function StackRequests(stack: string, volumes: seq<Volume>): (r: seq<Request>)
    ensures |r| == |volumes| && forall i :: 0 <= i < |r| ==> r[i] == Request(stack, volumes[i].name)
  {
    seq(|volumes|, i requires 0 <= i < |volumes| => Request(stack, volumes[i].name))
  }

  /** The volumes the stacks of a host ask for, in order. */
  function Requests(stacks: seq<string>, catalog: Catalog): seq<Request> {
    if stacks == [] then []
    else
      var last := stacks[|stacks| - 1];
      Requests(stacks[..|stacks| - 1], catalog) + StackRequests(last, Lookup(catalog, last).storage)
  }

  datatype Issue = NameCollision(owner: string, stack: string, name: string) | Count(total: nat)

  ghost predicate DistinctNames(requests: seq<Request>) {
    forall i, j :: 0 <= i < j < |requests| ==> requests[i].name != requests[j].name
  }

  ghost predicate Asked(requests: seq<Request>, name: string) {
    exists i :: 0 <= i < |requests| && requests[i].name == name
  }

  /** The stack that asked for the name first. */
  ghost function FirstOwner(requests: seq<Request>, name: string): string
    requires Asked(requests, name)
  {
    if requests[0].name == name then requests[0].stack
    else
      assert Asked(requests[1..], name) by {
        var i :| 0 <= i < |requests| && requests[i].name == name;
        assert requests[1..][i - 1].name == name;
      }
      FirstOwner(requests[1..], name)
  }

  /** One issue for each request whose name was asked for before, naming the first owner. */
  ghost function Collisions(requests: seq<Request>): seq<Issue> {
    if requests == [] then []
    else
      var n := |requests| - 1;
      var before, r := requests[..n], requests[n];
      Collisions(before)
      + if Asked(before, r.name) then [NameCollision(FirstOwner(before, r.name), r.stack, r.name)] else []
  }

  lemma CollisionsStep(requests: seq<Request>, r: Request)
    ensures Collisions(requests + [r]) == Collisions(requests)
         + if Asked(requests, r.name) then [NameCollision(FirstOwner(requests, r.name), r.stack, r.name)] else []
  {
    assert (requests + [r])[..|requests|] == requests;
  }

  lemma AskedMore(requests: seq<Request>, r: Request, name: string)
    ensures Asked(requests + [r], name) <==> Asked(requests, name) || name == r.name
  {
    if Asked(requests, name) {
      var i :| 0 <= i < |requests| && requests[i].name == name;
      assert (requests + [r])[i].name == name;
    }
    assert (requests + [r])[|requests|] == r;
  }

  lemma {:induction false} FirstOwnerStays(requests: seq<Request>, r: Request, name: string)
    requires Asked(requests, name) && Asked(requests + [r], name)
    ensures FirstOwner(requests + [r], name) == FirstOwner(requests, name)
    decreases |requests|
  {
    assert (requests + [r])[0] == requests[0];
    if requests[0].name != name {
      assert (requests + [r])[1..] == requests[1..] + [r];
      AskedMore(requests[1..], r, name);
      var i :| 0 <= i < |requests| && requests[i].name == name;
      assert requests[1..][i - 1].name == name;
      FirstOwnerStays(requests[1..], r, name);
    }
  }

  lemma {:induction false} FirstOwnerNew(requests: seq<Request>, r: Request)
    requires !Asked(requests, r.name) && Asked(requests + [r], r.name)
    ensures FirstOwner(requests + [r], r.name) == r.stack
    decreases |requests|
  {
    if requests != [] {
      assert (requests + [r])[0] == requests[0] && (requests + [r])[1..] == requests[1..] + [r];
      AskedMore(requests[1..], r, r.name);
      assert forall i :: 0 <= i < |requests[1..]| ==> requests[1..][i] == requests[i + 1];
      FirstOwnerNew(requests[1..], r);
    }
  }

  /** `seen`: the first owner of each name. */
  ghost predicate IsSeen(requests: seq<Request>, seen: map<string, string>) {
    && (forall name :: name in seen <==> Asked(requests, name))
    && forall name :: name in seen ==> seen[name] == FirstOwner(requests, name)
  }

  lemma SeenMore(requests: seq<Request>, r: Request, seen: map<string, string>)
    requires IsSeen(requests, seen)
    ensures IsSeen(requests + [r], if r.name in seen then seen else seen[r.name := r.stack])
  {
    var after := if r.name in seen then seen else seen[r.name := r.stack];
    forall name ensures name in after <==> Asked(requests + [r], name) {
      AskedMore(requests, r, name);
    }
    forall name | name in after ensures after[name] == FirstOwner(requests + [r], name) {
      if name in seen {
        FirstOwnerStays(requests, r, name);
      } else {
        FirstOwnerNew(requests, r);
      }
    }
  }

  /** One turn of the inner loop of `checkHostStorage`. */
  method CheckRequest(ghost requests: seq<Request>, r: Request, seen: map<string, string>, issues: seq<Issue>)
    returns (seen': map<string, string>, issues': seq<Issue>)
    requires IsSeen(requests, seen) && issues == Collisions(requests)
    ensures IsSeen(requests + [r], seen') && issues' == Collisions(requests + [r])
  {
    seen', issues' := seen, issues;
    SeenMore(requests, r, seen);
    CollisionsStep(requests, r);
    if r.name in seen {
      issues' := issues + [NameCollision(seen[r.name], r.stack, r.name)];
    } else {
      seen' := seen[r.name := r.stack];
    }
  }

  lemma DistinctStep(before: seq<Request>, r: Request)
    ensures DistinctNames(before + [r]) <==> DistinctNames(before) && !Asked(before, r.name)
  {
    var all := before + [r];
    assert forall i :: 0 <= i < |before| ==> all[i] == before[i];
    if Asked(before, r.name) {
      var i :| 0 <= i < |before| && before[i].name == r.name;
      assert all[i].name == all[|before|].name;
    }
  }

  /** No collision is reported exactly when the names are distinct. */
  lemma {:induction false} NoCollisionIff(requests: seq<Request>)
    ensures Collisions(requests) == [] <==> DistinctNames(requests)
    decreases |requests|
  {
    if requests != [] {
      var n := |requests| - 1;
      var before := requests[..n];
      NoCollisionIff(before);
      DistinctStep(before, requests[n]);
      assert requests == before + [requests[n]];
    }
  }

  ghost function Names(requests: seq<Request>): set<string> {
    set r | r in requests :: r.name
  }

  /** Each repetition of a name is reported once: as many collisions as requests beyond the first of their name. */
  lemma {:induction false} CollisionsCount(requests: seq<Request>)
    ensures |Collisions(requests)| + |Names(requests)| == |requests|
    decreases |requests|
  {
    if requests != [] {
      var n := |requests| - 1;
      var before, r := requests[..n], requests[n];
      CollisionsCount(before);
      assert requests == before + [r];
      assert Names(requests) == Names(before) + {r.name};
      assert Asked(before, r.name) <==> r.name in Names(before);
    }
  }

  /** The request is the first to ask for its name. */
  ghost predicate AsksFirst(requests: seq<Request>, i: nat) {
    i < |requests| && forall j :: 0 <= j < i ==> requests[j].name != requests[i].name
  }

  lemma {:induction false} FirstOwnerAsksFirst(requests: seq<Request>, i: nat)
    requires AsksFirst(requests, i) && Asked(requests, requests[i].name)
    ensures FirstOwner(requests, requests[i].name) == requests[i].stack
    decreases i
  {
    if i > 0 {
      assert requests[1..][i - 1] == requests[i];
      assert Asked(requests[1..], requests[i].name);
      FirstOwnerAsksFirst(requests[1..], i - 1);
    }
  }

  lemma {:induction false} SomeoneAsksFirst(requests: seq<Request>, name: string) returns (i: nat)
    requires Asked(requests, name)
    ensures AsksFirst(requests, i) && requests[i].name == name
    decreases |requests|
  {
    if requests[0].name == name {
      i := 0;
    } else {
      var j :| 0 <= j < |requests| && requests[j].name == name;
      assert requests[1..][j - 1].name == name;
      i := SomeoneAsksFirst(requests[1..], name);
      assert forall k :: 0 < k <= i ==> requests[k].name != name by {
        assert forall k :: 0 < k <= i ==> requests[k] == requests[1..][k - 1];
      }
      i := i + 1;
    }
  }

  /** The issue is about the k-th request, whose name the i-th was the first to ask for. */
  ghost predicate Repeats(requests: seq<Request>, i: nat, k: nat, issue: Issue) {
    && AsksFirst(requests, i) && i < k < |requests| && requests[k].name == requests[i].name
    && issue == NameCollision(requests[i].stack, requests[k].stack, requests[k].name)
  }

  lemma RepeatsMore(requests: seq<Request>, i: nat, k: nat, issue: Issue)
    requires requests != [] && k < |requests| - 1
    ensures Repeats(requests, i, k, issue) <==> Repeats(requests[..|requests| - 1], i, k, issue)
  {
  }

  lemma RepeatsLast(requests: seq<Request>, i: nat, issue: Issue)
    requires requests != [] && Repeats(requests, i, |requests| - 1, issue)
    ensures var n := |requests| - 1;
            Asked(requests[..n], requests[n].name)
            && issue == NameCollision(FirstOwner(requests[..n], requests[n].name), requests[n].stack, requests[n].name)
  {
    var before := requests[..|requests| - 1];
    assert before[i] == requests[i] && AsksFirst(before, i);
    FirstOwnerAsksFirst(before, i);
  }

  /** Read off by places: what is reported is each request whose name was asked for before, with the first to ask. */
  lemma {:induction false} CollisionIff(requests: seq<Request>, issue: Issue)
    ensures issue in Collisions(requests) <==> exists i: nat, k: nat :: Repeats(requests, i, k, issue)
    decreases |requests|
  {
    if requests != [] {
      var n := |requests| - 1;
      var before := requests[..n];
      CollisionIff(before, issue);
      if i: nat, k: nat :| Repeats(before, i, k, issue) {
        RepeatsMore(requests, i, k, issue);
      } else if i: nat, k: nat :| Repeats(requests, i, k, issue) {
        if k < n { RepeatsMore(requests, i, k, issue); } else { RepeatsLast(requests, i, issue); }
      } else if Asked(before, requests[n].name) {
        var i := SomeoneAsksFirst(before, requests[n].name);
        FirstOwnerAsksFirst(before, i);
        assert AsksFirst(requests, i);
        assert !Repeats(requests, i, n, issue);
      }
    }
  }

  lemma RequestsStep(stacks: seq<string>, i: nat, catalog: Catalog)
    requires i < |stacks|
    ensures Requests(stacks[..i + 1], catalog)
         == Requests(stacks[..i], catalog) + StackRequests(stacks[i], Lookup(catalog, stacks[i]).storage)
  {
    PrefixStep(stacks, i);
  }

  lemma RequestStep(before: seq<Request>, more: seq<Request>, j: nat)
    requires j < |more|
    ensures before + more[..j + 1] == before + more[..j] + [more[j]]
  {
  }

  /** The inner loop of `checkHostStorage`: the volumes of one stack, after those of the stacks before it. */
  method CheckStack(
    ghost before: seq<Request>, stack: string, storage: seq<Volume>, seen: map<string, string>, issues: seq<Issue>,
    total: nat)
    returns (seen': map<string, string>, issues': seq<Issue>, total': nat)
    requires IsSeen(before, seen) && issues == Collisions(before) && total == |before|
    ensures IsSeen(before + StackRequests(stack, storage), seen')
    ensures issues' == Collisions(before + StackRequests(stack, storage))
    ensures total' == |before| + |storage|
  {
    ghost var more := StackRequests(stack, storage);
    seen', issues', total' := seen, issues, total;
    assert before + more[..0] == before;
    for j := 0 to |storage|
      invariant total' == |before| + j
      invariant IsSeen(before + more[..j], seen') && issues' == Collisions(before + more[..j])
    {
      total' := total' + 1;
      RequestStep(before, more, j);
      seen', issues' := CheckRequest(before + more[..j], Request(stack, storage[j].name), seen', issues');
    }
    assert more[..|storage|] == more;
  }

  /** What `checkHostStorage` reports. */
  ghost function Report(h: Host, catalog: Catalog): seq<Issue> {
    var requests := Requests(h.stacks, catalog);
    if h.provider == "existing" then []
    else Collisions(requests) + if |requests| > 10 then [Count(|requests|)] else []
  }

  /** `checkHostStorage`. */
  method CheckHostStorage(h: Host, catalog: Catalog) returns (issues: seq<Issue>)
    ensures issues == Report(h, catalog)
  {
    issues := [];
    if h.provider == "existing" {
      return;
    }
    var seen: map<string, string> := map[];
    var total := 0;
    for i := 0 to |h.stacks|
      invariant total == |Requests(h.stacks[..i], catalog)|
      invariant IsSeen(Requests(h.stacks[..i], catalog), seen) && issues == Collisions(Requests(h.stacks[..i], catalog))
    {
      var stackName := h.stacks[i];
      RequestsStep(h.stacks, i, catalog);
      seen, issues, total := CheckStack(
        Requests(h.stacks[..i], catalog), stackName, Lookup(catalog, stackName).storage, seen, issues, total);
    }
    assert h.stacks[..|h.stacks|] == h.stacks;
    if total > 10 {
      issues := issues + [Count(total)];
    }
  }

  /**
   * Nothing is reported exactly for a host mksrv does not create, or one whose volumes have distinct names and number
   * at most ten.
   */
  lemma NothingReportedIff(h: Host, catalog: Catalog)
    ensures Report(h, catalog) == []
       <==> h.provider == "existing"
            || (DistinctNames(Requests(h.stacks, catalog)) && |Requests(h.stacks, catalog)| <= 10)
  {
    NoCollisionIff(Requests(h.stacks, catalog));
  }

  datatype HostVolume = HostVolume(name: string, device: string)

  /** A device letter is a byte counted up from `g`. */
  function Device(dev: nat): string {
    "/dev/sd" + [(dev % 256) as char]
  }

  function Placed(requests: seq<Request>): (r: seq<HostVolume>)
    ensures |r| == |requests|
    ensures forall i :: 0 <= i < |r| ==> r[i] == HostVolume(requests[i].name, Device('g' as nat + i))
  {
    seq(|requests|, i requires 0 <= i < |requests| => HostVolume(requests[i].name, Device('g' as nat + i)))
  }

  lemma PlacedStep(requests: seq<Request>, r: Request)
    ensures Placed(requests + [r]) == Placed(requests) + [HostVolume(r.name, Device('g' as nat + |requests|))]
  {
  }

  /** `dev++` on a byte. */
  function NextByte(dev: nat): (r: nat)
    ensures forall n: nat :: dev == n % 256 ==> r == (n + 1) % 256
  {
    (dev + 1) % 256
  }

  /** The inner loop of `hostVolumes`: the volumes of one stack, after those of the stacks before it. */
  method PlaceStack(ghost before: seq<Request>, stack: string, storage: seq<Volume>, sofar: seq<HostVolume>, first: nat)
    returns (volumes: seq<HostVolume>, dev: nat)
    requires sofar == Placed(before) && first == ('g' as nat + |before|) % 256
    ensures volumes == Placed(before + StackRequests(stack, storage))
    ensures dev == ('g' as nat + |before| + |storage|) % 256
  {
    ghost var more := StackRequests(stack, storage);
    volumes, dev := sofar, first;
    assert before + more[..0] == before;
    for j := 0 to |storage|
      invariant volumes == Placed(before + more[..j]) && dev == ('g' as nat + |before| + j) % 256
    {
      RequestStep(before, more, j);
      PlacedStep(before + more[..j], more[j]);
      volumes := volumes + [HostVolume(storage[j].name, "/dev/sd" + [dev as char])];
      dev := NextByte(dev);
    }
    assert more[..|storage|] == more;
  }

  /** The volumes of one host. */
  method PlaceVolumes(stacks: seq<string>, catalog: Catalog) returns (volumes: seq<HostVolume>)
    ensures volumes == Placed(Requests(stacks, catalog))
  {
    volumes := [];
    var dev: nat := 'g' as nat;
    for i := 0 to |stacks|
      invariant volumes == Placed(Requests(stacks[..i], catalog))
      invariant dev == ('g' as nat + |Requests(stacks[..i], catalog)|) % 256
    {
      var storage := Lookup(catalog, stacks[i]).storage;
      RequestsStep(stacks, i, catalog);
      volumes, dev := PlaceStack(Requests(stacks[..i], catalog), stacks[i], storage, volumes, dev);
    }
    assert stacks[..|stacks|] == stacks;
  }

  /** A host mksrv creates, with a volume. */
  predicate HasVolumes(h: Host, catalog: Catalog) {
    h.provider != "existing" && Requests(h.stacks, catalog) != []
  }

  /** `hostVolumes`: an entry for each host mksrv creates that has volumes, and for no other. */
  method HostVolumes(hosts: map<string, Host>, catalog: Catalog) returns (out: map<string, seq<HostVolume>>)
    ensures forall name :: name in out <==> name in hosts && HasVolumes(hosts[name], catalog)
    ensures forall name :: name in out ==> out[name] == Placed(Requests(hosts[name].stacks, catalog))
  {
    out := map[];
    var names := AnyOrder(hosts.Keys);
    for i := 0 to |names|
      invariant forall name :: name in out <==> name in names[..i] && name in hosts && HasVolumes(hosts[name], catalog)
      invariant forall name :: name in out ==> out[name] == Placed(Requests(hosts[name].stacks, catalog))
    {
      PrefixStep(names, i);
      assert names[i] in Members(names);
      var h := hosts[names[i]];
      if h.provider == "existing" {
        continue;
      }
      var volumes := PlaceVolumes(h.stacks, catalog);
      if volumes != [] {
        out := out[names[i] := volumes];
      }
    }
    assert names[..|names|] == names;
    forall name | name in hosts ensures name in names {
      assert name in Members(names);
    }
  }

  predicate InDeviceRange(v: HostVolume) {
    exists c: char :: 'g' <= c <= 'p' && v.device == "/dev/sd" + [c]
  }

  lemma DeviceLetter(a: nat, b: nat)
    ensures Device(a) == Device(b) <==> a % 256 == b % 256
  {
    assert Device(a)[7] == (a % 256) as char && Device(b)[7] == (b % 256) as char;
  }

  /** Every device lies in /dev/sdg to /dev/sdp exactly when there are at most ten volumes. */
  lemma DevicesFitIff(requests: seq<Request>)
    ensures (forall i :: 0 <= i < |requests| ==> InDeviceRange(Placed(requests)[i])) <==> |requests| <= 10
  {
    var placed := Placed(requests);
    if |requests| <= 10 {
      forall i | 0 <= i < |requests| ensures InDeviceRange(placed[i]) {
        var c := ('g' as nat + i) as char;
        assert 'g' <= c <= 'p' && placed[i].device == "/dev/sd" + [c];
      }
    } else {
      assert placed[10].device[7] == 'q';
      assert !InDeviceRange(placed[10]);
    }
  }

  /**
   * Where the check reports nothing, the host's volumes have distinct names and distinct devices in the guest range.
   */
  lemma CheckedVolumesAreApart(requests: seq<Request>)
    requires DistinctNames(requests) && |requests| <= 10
    ensures forall i, j :: 0 <= i < j < |requests| ==>
              Placed(requests)[i].name != Placed(requests)[j].name
              && Placed(requests)[i].device != Placed(requests)[j].device
    ensures forall i :: 0 <= i < |requests| ==> InDeviceRange(Placed(requests)[i])
  {
    DevicesFitIff(requests);
    forall i, j | 0 <= i < j < |requests|
      ensures Placed(requests)[i].name != Placed(requests)[j].name
           && Placed(requests)[i].device != Placed(requests)[j].device {
      DeviceLetter('g' as nat + i, 'g' as nat + j);
    }
  }
}
