/**
 * The Caddy fragments of one tenant on the edge: their names, the glob that lists them, and what one
 * reconciliation makes of them (internal/cli/web.go, internal/cli/mail_hosting.go).
 */
module Fragments {
  import opened Text

  type Files = map<string, string>

  datatype Kind = Web | MtaSts

  function Stem(kind: Kind): string {
    match kind
    case Web => "/var/lib/mksrv/caddy.d/25-web-"
    case MtaSts => "/var/lib/mksrv/caddy.d/16-mta-sts-"
  }

  const SUFFIX := ".caddy"

  function FragmentPath(kind: Kind, id: string, name: string): string {
    Stem(kind) + id + "-" + name + SUFFIX
  }

  /** What the shell's `*` leaves between the prefix and the suffix of the glob. */
  function Middle(kind: Kind, id: string, path: string): string
    requires |path| >= |Stem(kind)| + |id| + 1 + |SUFFIX|
  {
    path[|Stem(kind)| + |id| + 1..|path| - |SUFFIX|]
  }

  /** `ls <stem>'<id>'-*.caddy` lists the path: `*` stands for any characters but `/`. */
  predicate GlobMatches(kind: Kind, id: string, path: string) {
    && |path| >= |Stem(kind)| + |id| + 1 + |SUFFIX|
    && path == FragmentPath(kind, id, Middle(kind, id, path))
    && '/' !in Middle(kind, id, path)
  }

  lemma OwnPathMatches(kind: Kind, id: string, name: string)
    ensures GlobMatches(kind, id, FragmentPath(kind, id, name)) <==> '/' !in name
  {
    assert Middle(kind, id, FragmentPath(kind, id, name)) == name;
  }

  /** One id, followed by a dash, begins the other. */
  predicate Clash(a: string, b: string) {
    a + "-" <= b || b + "-" <= a
  }

  lemma HeadOfPath(stem: string, id: string, name: string, path: string)
    requires path == stem + id + "-" + name + SUFFIX
    ensures id + "-" <= path[|stem|..]
  {
    assert path == stem + (id + "-" + (name + SUFFIX));
    assert path[|stem|..] == id + "-" + (name + SUFFIX);
  }

  lemma HeadsClash(a: string, b: string, rest: string)
    requires a + "-" <= rest && b + "-" <= rest
    ensures a == b || Clash(a, b)
  {
    if |a| < |b| {
      assert b == rest[..|b|] && a + "-" == rest[..|a| + 1];
      assert a + "-" <= b;
    } else if |b| < |a| {
      assert a == rest[..|a|] && b + "-" == rest[..|b| + 1];
      assert b + "-" <= a;
    } else {
      assert a == rest[..|a|] == b;
    }
  }

  lemma SharedPathClashes(kind: Kind, a: string, b: string, path: string)
    requires GlobMatches(kind, a, path) && GlobMatches(kind, b, path)
    ensures a == b || Clash(a, b)
  {
    HeadOfPath(Stem(kind), a, Middle(kind, a, path), path);
    HeadOfPath(Stem(kind), b, Middle(kind, b, path), path);
    HeadsClash(a, b, path[|Stem(kind)|..]);
  }

  /** When b begins with a and a dash, every fragment of b is listed as one of a. */
  lemma ClashSwallows(kind: Kind, a: string, b: string, path: string)
    requires a + "-" <= b && '/' !in b && GlobMatches(kind, b, path)
    ensures GlobMatches(kind, a, path)
  {
    var rest := b[|a| + 1..];
    assert b == a + "-" + rest;
    var name := rest + "-" + Middle(kind, b, path);
    var middle := "-" + Middle(kind, b, path);
    Regroup(Stem(kind) + b, "-", Middle(kind, b, path));
    Regroup(rest, "-", Middle(kind, b, path));
    Regroup(Stem(kind), a + "-", rest);
    Regroup(Stem(kind), a, "-");
    Regroup(Stem(kind) + a + "-", rest, middle);
    assert path == FragmentPath(kind, a, name);
    assert '/' !in rest by { assert forall c :: c in rest ==> c in b; }
    OwnPathMatches(kind, a, name);
  }

  /** Two tenants' globs share a path exactly when one id, followed by a dash, begins the other. */
  lemma GlobsMeetIffClash(kind: Kind, a: string, b: string)
    requires a != b && '/' !in a && '/' !in b
    ensures (exists path :: GlobMatches(kind, a, path) && GlobMatches(kind, b, path)) <==> Clash(a, b)
  {
    forall path | GlobMatches(kind, a, path) && GlobMatches(kind, b, path) ensures Clash(a, b) {
      SharedPathClashes(kind, a, b, path);
    }
    if a + "-" <= b {
      OwnPathMatches(kind, b, "");
      ClashSwallows(kind, a, b, FragmentPath(kind, b, ""));
    } else if b + "-" <= a {
      OwnPathMatches(kind, a, "");
      ClashSwallows(kind, b, a, FragmentPath(kind, a, ""));
    }
  }

  const DIRECTORY := "/var/lib/mksrv/caddy.d/"

  lemma KindShows(kind: Kind, id: string, path: string)
    requires GlobMatches(kind, id, path)
    ensures path[|DIRECTORY|] == if kind.Web? then '2' else '1'
  {
    assert path[|DIRECTORY|] == FragmentPath(kind, id, Middle(kind, id, path))[|DIRECTORY|];
  }

  /** Web and MTA-STS fragments never share a glob. */
  lemma KindsAreApart(a: string, b: string, path: string)
    ensures !(GlobMatches(Web, a, path) && GlobMatches(MtaSts, b, path))
  {
    if GlobMatches(Web, a, path) { KindShows(Web, a, path); }
    if GlobMatches(MtaSts, b, path) { KindShows(MtaSts, b, path); }
  }

  /** The fragments on the edge that the tenant's glob lists. */
  function Listed(files: Files, kind: Kind, id: string): Files {
    map p | p in files && GlobMatches(kind, id, p) :: files[p]
  }

  /** Listed fragments that are not wanted go; wanted ones are written. */
  function Reconciled(files: Files, kind: Kind, id: string, want: Files): Files {
    (map p | p in files && !(GlobMatches(kind, id, p) && p !in want) :: files[p]) + want
  }

  /** A run over the selected tenants, in the order given. */
  function ReconcileAll(files: Files, kind: Kind, wants: map<string, Files>, ids: seq<string>): Files
    requires forall id :: id in ids ==> id in wants
  {
    if ids == [] then files
    else Reconciled(ReconcileAll(files, kind, wants, ids[..|ids| - 1]), kind, ids[|ids| - 1], wants[ids[|ids| - 1]])
  }

  /** Each tenant wants only paths its own glob lists. */
  ghost predicate Fits(kind: Kind, wants: map<string, Files>) {
    forall id, p :: id in wants && p in wants[id] ==> GlobMatches(kind, id, p)
  }

  ghost predicate NoClash(ids: set<string>) {
    forall a, b :: a in ids && b in ids && a != b ==> !Clash(a, b)
  }

  /** One tenant's pass: a listing that fails reads as empty, so strays stay. */
  function Handled(files: Files, kind: Kind, id: string, want: Files, heard: bool): Files {
    if heard then Reconciled(files, kind, id, want) else files + want
  }

  /** A run in which the listing of tenant i came back exactly when `heard[i]`. */
  function HandleAll(files: Files, kind: Kind, wants: map<string, Files>, ids: seq<string>, heard: seq<bool>): Files
    requires |heard| == |ids| && forall id :: id in ids ==> id in wants
    decreases |ids|
  {
    if ids == [] then files
    else
      var n := |ids| - 1;
      Handled(HandleAll(files, kind, wants, ids[..n], heard[..n]), kind, ids[n], wants[ids[n]], heard[n])
  }

  /** Some listing of the tenant came back. */
  ghost predicate Heard(ids: seq<string>, heard: seq<bool>, id: string)
    requires |heard| == |ids|
  {
    exists i :: 0 <= i < |ids| && ids[i] == id && heard[i]
  }

  lemma HeardStep(ids: seq<string>, heard: seq<bool>, n: nat, id: string)
    requires |heard| == |ids| == n + 1
    ensures Heard(ids, heard, id) <==> Heard(ids[..n], heard[..n], id) || (ids[n] == id && heard[n])
  {
    if Heard(ids, heard, id) {
      var i :| 0 <= i < |ids| && ids[i] == id && heard[i];
      assert i < n ==> ids[..n][i] == id && heard[..n][i];
    }
    if Heard(ids[..n], heard[..n], id) {
      var i :| 0 <= i < n && ids[..n][i] == id && heard[..n][i];
      assert ids[i] == id && heard[i];
    }
  }

  /** What a pass leaves at a path its own glob lists, and at any other path. */
  lemma HandledAt(files: Files, kind: Kind, id: string, want: Files, heard: bool, p: string)
    requires p in want ==> GlobMatches(kind, id, p)
    ensures var r := Handled(files, kind, id, want, heard);
            if !GlobMatches(kind, id, p) then SameAt(r, files, p)
            else if p in want then p in r && r[p] == want[p]
            else if heard then p !in r
            else SameAt(r, files, p)
  {
  }

  /** What a run leaves at one path that a selected tenant's glob lists. */
  ghost predicate LeftAt(r: Files, files: Files, want: Files, heard: bool, p: string) {
    if p in want then p in r && r[p] == want[p]
    else if heard then p !in r
    else SameAt(r, files, p)
  }

  /** No glob of these tenants lists the path. */
  ghost predicate Spared(kind: Kind, ids: seq<string>, p: string) {
    forall id :: id in ids ==> !GlobMatches(kind, id, p)
  }

  lemma SparedLess(kind: Kind, ids: seq<string>, n: nat, p: string)
    requires |ids| == n + 1 && Spared(kind, ids, p)
    ensures Spared(kind, ids[..n], p) && !GlobMatches(kind, ids[n], p)
  {
    assert ids[n] in ids && forall id :: id in ids[..n] ==> id in ids;
  }

  lemma HandledElsewhere(files: Files, kind: Kind, wants: map<string, Files>, id: string, heard: bool, p: string)
    requires Fits(kind, wants) && id in wants && !GlobMatches(kind, id, p)
    ensures SameAt(Handled(files, kind, id, wants[id], heard), files, p)
  {
    HandledAt(files, kind, id, wants[id], heard, p);
  }

  lemma {:induction false} HandleAllElsewhere(
    files: Files, kind: Kind, wants: map<string, Files>, ids: seq<string>, heard: seq<bool>, p: string)
    requires |heard| == |ids| && forall id :: id in ids ==> id in wants
    requires Fits(kind, wants) && Spared(kind, ids, p)
    ensures SameAt(HandleAll(files, kind, wants, ids, heard), files, p)
    decreases |ids|
  {
    if ids != [] {
      var n := |ids| - 1;
      SparedLess(kind, ids, n, p);
      HandleAllElsewhere(files, kind, wants, ids[..n], heard[..n], p);
      HandledElsewhere(HandleAll(files, kind, wants, ids[..n], heard[..n]), kind, wants, ids[n], heard[n], p);
    }
  }

  lemma LeftTwice(r: Files, between: Files, files: Files, want: Files, a: bool, b: bool, p: string)
    requires LeftAt(between, files, want, a, p) || (!a && SameAt(between, files, p))
    requires LeftAt(r, between, want, b, p)
    ensures LeftAt(r, files, want, a || b, p)
  {
  }

  /** The last pass of a run, at a path the tenant's glob lists. */
  lemma LastPassAt(files: Files, kind: Kind, wants: map<string, Files>, id: string, last: string, heard: bool,
                   p: string)
    requires Fits(kind, wants) && NoClash(wants.Keys) && id in wants && last in wants && GlobMatches(kind, id, p)
    ensures var r := Handled(files, kind, last, wants[last], heard);
            if id == last then LeftAt(r, files, wants[id], heard, p) else SameAt(r, files, p)
  {
    HandledAt(files, kind, last, wants[last], heard, p);
    if GlobMatches(kind, last, p) {
      SharedPathClashes(kind, id, last, p);
    }
  }

  /** ... and a whole run, at that path: untouched without a pass over that tenant. */
  lemma {:induction false} HandleAllAt(
    files: Files, kind: Kind, wants: map<string, Files>, ids: seq<string>, heard: seq<bool>, id: string, p: string)
    requires |heard| == |ids| && forall i :: i in ids ==> i in wants
    requires Fits(kind, wants) && NoClash(wants.Keys) && id in wants && GlobMatches(kind, id, p)
    ensures var r := HandleAll(files, kind, wants, ids, heard);
            if id in ids then LeftAt(r, files, wants[id], Heard(ids, heard, id), p)
            else SameAt(r, files, p) && !Heard(ids, heard, id)
    decreases |ids|
  {
    if ids != [] {
      var n := |ids| - 1;
      var before := HandleAll(files, kind, wants, ids[..n], heard[..n]);
      InPrefixOrLast(ids, n, id);
      HeardStep(ids, heard, n, id);
      HandleAllAt(files, kind, wants, ids[..n], heard[..n], id, p);
      LastPassAt(before, kind, wants, id, ids[n], heard[n], p);
      if id == ids[n] {
        LeftTwice(HandleAll(files, kind, wants, ids, heard), before, files, wants[id],
                  Heard(ids[..n], heard[..n], id), heard[n], p);
      }
    }
  }

  lemma InPrefixOrLast(ids: seq<string>, n: nat, id: string)
    requires |ids| == n + 1
    ensures id in ids <==> id in ids[..n] || id == ids[n]
    ensures forall i :: i in ids[..n] ==> i in ids
  {
    assert ids == ids[..n] + [ids[n]];
  }

  function AllHeard(n: nat): (r: seq<bool>)
    ensures |r| == n && forall i :: 0 <= i < n ==> r[i]
  {
    seq(n, i => true)
  }

  lemma AllHeardStep(n: nat)
    ensures AllHeard(n + 1) == AllHeard(n) + [true]
  {
  }

  /** With every listing back, the run is the reconciliation of every tenant. */
  lemma {:induction false} HeardRunReconciles(files: Files, kind: Kind, wants: map<string, Files>, ids: seq<string>)
    requires forall id :: id in ids ==> id in wants
    ensures HandleAll(files, kind, wants, ids, AllHeard(|ids|)) == ReconcileAll(files, kind, wants, ids)
    decreases |ids|
  {
    if ids != [] {
      var n := |ids| - 1;
      assert AllHeard(|ids|)[..n] == AllHeard(n);
      HeardRunReconciles(files, kind, wants, ids[..n]);
    }
  }

  lemma AllAreHeard(ids: seq<string>, id: string)
    requires id in ids
    ensures Heard(ids, AllHeard(|ids|), id)
  {
    var i :| 0 <= i < |ids| && ids[i] == id;
    assert AllHeard(|ids|)[i];
  }

  /** What a run leaves at one path. */
  lemma RunAtPath(files: Files, kind: Kind, wants: map<string, Files>, ids: seq<string>, p: string)
    requires forall id :: id in ids ==> id in wants
    requires Fits(kind, wants) && NoClash(wants.Keys)
    ensures var r := ReconcileAll(files, kind, wants, ids);
            && (forall id :: id in ids && GlobMatches(kind, id, p) ==> SameAt(r, wants[id], p))
            && (Spared(kind, ids, p) ==> SameAt(r, files, p))
  {
    HeardRunReconciles(files, kind, wants, ids);
    forall id | id in ids && GlobMatches(kind, id, p)
      ensures SameAt(ReconcileAll(files, kind, wants, ids), wants[id], p) {
      HandleAllAt(files, kind, wants, ids, AllHeard(|ids|), id, p);
      AllAreHeard(ids, id);
    }
    if Spared(kind, ids, p) {
      HandleAllElsewhere(files, kind, wants, ids, AllHeard(|ids|), p);
    }
  }

  lemma SameListing(a: Files, b: Files, kind: Kind, id: string)
    requires forall p :: GlobMatches(kind, id, p) ==> SameAt(a, b, p)
    ensures Listed(a, kind, id) == Listed(b, kind, id)
  {
    assert Listed(a, kind, id).Keys == Listed(b, kind, id).Keys by {
      forall p ensures p in Listed(a, kind, id) <==> p in Listed(b, kind, id) {
        if GlobMatches(kind, id, p) { assert SameAt(a, b, p); }
      }
    }
    forall p | p in Listed(a, kind, id) ensures Listed(a, kind, id)[p] == Listed(b, kind, id)[p] {
      assert SameAt(a, b, p);
    }
  }

  /** A selected tenant ends with exactly the fragments it wants. */
  lemma RunSettlesSelected(files: Files, kind: Kind, wants: map<string, Files>, ids: seq<string>, id: string)
    requires (forall i :: i in ids ==> i in wants) && id in ids
    requires Fits(kind, wants) && NoClash(wants.Keys)
    ensures Listed(ReconcileAll(files, kind, wants, ids), kind, id) == wants[id]
  {
    var r := ReconcileAll(files, kind, wants, ids);
    forall p | GlobMatches(kind, id, p) ensures SameAt(r, wants[id], p) {
      RunAtPath(files, kind, wants, ids, p);
    }
    SameListing(r, wants[id], kind, id);
    assert Listed(wants[id], kind, id) == wants[id];
  }

  /** A tenant that is not selected, and every fragment of the other kind, is untouched. */
  lemma RunLeavesOthers(files: Files, kind: Kind, wants: map<string, Files>, ids: seq<string>, other: Kind, id: string)
    requires forall i :: i in ids ==> i in wants
    requires Fits(kind, wants) && NoClash(wants.Keys)
    requires other != kind || (id in wants && id !in ids)
    ensures Listed(ReconcileAll(files, kind, wants, ids), other, id) == Listed(files, other, id)
  {
    var r := ReconcileAll(files, kind, wants, ids);
    forall p | GlobMatches(other, id, p) ensures SameAt(r, files, p) {
      forall mine | mine in ids ensures !GlobMatches(kind, mine, p) {
        if GlobMatches(kind, mine, p) {
          if other == kind {
            SharedPathClashes(kind, id, mine, p);
          } else {
            KindsAreApart(if kind.Web? then mine else id, if kind.Web? then id else mine, p);
          }
        }
      }
      RunAtPath(files, kind, wants, ids, p);
    }
    SameListing(r, files, other, id);
  }

  /** Any order, and any repetition, of the same selection leaves the same files. */
  lemma RunIgnoresOrder(files: Files, kind: Kind, wants: map<string, Files>, a: seq<string>, b: seq<string>)
    requires forall id :: id in a <==> id in b
    requires forall id :: id in a ==> id in wants
    requires Fits(kind, wants) && NoClash(wants.Keys)
    ensures ReconcileAll(files, kind, wants, a) == ReconcileAll(files, kind, wants, b)
  {
    var r, s := ReconcileAll(files, kind, wants, a), ReconcileAll(files, kind, wants, b);
    forall p ensures SameAt(r, s, p) {
      RunAtPath(files, kind, wants, a, p);
      RunAtPath(files, kind, wants, b, p);
      if id :| id in a && GlobMatches(kind, id, p) {
        assert id in b;
        assert SameAt(r, wants[id], p) && SameAt(s, wants[id], p);
      } else {
        assert SameAt(r, files, p) && SameAt(s, files, p);
      }
    }
    SameFiles(r, s);
  }

  lemma SameFiles(a: Files, b: Files)
    requires forall p :: SameAt(a, b, p)
    ensures a == b
  {
    assert a.Keys == b.Keys by {
      forall p ensures p in a <==> p in b { assert SameAt(a, b, p); }
    }
    forall p | p in a ensures a[p] == b[p] { assert SameAt(a, b, p); }
  }

  /** A second run changes nothing, tenant by tenant. */
  lemma SecondRunIsIdle(files: Files, kind: Kind, wants: map<string, Files>, ids: seq<string>, id: string)
    requires (forall i :: i in ids ==> i in wants) && id in ids
    requires Fits(kind, wants) && NoClash(wants.Keys)
    ensures var r := ReconcileAll(files, kind, wants, ids);
            Reconciled(r, kind, id, wants[id]) == r
  {
    var r := ReconcileAll(files, kind, wants, ids);
    forall p ensures SameAt(Reconciled(r, kind, id, wants[id]), r, p) {
      RunAtPath(files, kind, wants, ids, p);
      IdleAt(r, kind, id, wants[id], p);
    }
    SameFiles(Reconciled(r, kind, id, wants[id]), r);
  }

  lemma IdleAt(r: Files, kind: Kind, id: string, want: Files, p: string)
    requires p in want ==> GlobMatches(kind, id, p)
    requires GlobMatches(kind, id, p) ==> SameAt(r, want, p)
    ensures SameAt(Reconciled(r, kind, id, want), r, p)
  {
  }

  /** Whatever two tenants want and wherever they start, running both leaves each its own fragments. */
  ghost predicate RunsTogether(kind: Kind, a: string, b: string) {
    forall files, wants: map<string, Files> {:trigger ReconcileAll(files, kind, wants, [a, b])} ::
      wants.Keys == {a, b} && Fits(kind, wants) ==>
        && Listed(ReconcileAll(files, kind, wants, [a, b]), kind, a) == wants[a]
        && Listed(ReconcileAll(files, kind, wants, [a, b]), kind, b) == wants[b]
  }

  lemma ClashShares(kind: Kind, a: string, b: string) returns (short: string, long: string, path: string)
    requires a != b && '/' !in a && '/' !in b && Clash(a, b)
    ensures {short, long} == {a, b} && short != long && GlobMatches(kind, short, path) && GlobMatches(kind, long, path)
  {
    long := if a + "-" <= b then b else a;
    short := if a + "-" <= b then a else b;
    path := FragmentPath(kind, long, "");
    OwnPathMatches(kind, long, "");
    ClashSwallows(kind, short, long, path);
  }

  lemma NoFilesFitBoth(r: Files, kind: Kind, short: string, long: string, mine: Files, yours: Files, path: string)
    requires GlobMatches(kind, short, path) && GlobMatches(kind, long, path) && path !in mine && path in yours
    ensures Listed(r, kind, short) != mine || Listed(r, kind, long) != yours
  {
    assert path in r ==> path in Listed(r, kind, short);
    assert path !in r ==> path !in Listed(r, kind, long);
  }

  lemma TogetherAt(kind: Kind, a: string, b: string, wants: map<string, Files>)
    requires RunsTogether(kind, a, b) && wants.Keys == {a, b} && Fits(kind, wants)
    ensures Listed(ReconcileAll(map[], kind, wants, [a, b]), kind, a) == wants[a]
    ensures Listed(ReconcileAll(map[], kind, wants, [a, b]), kind, b) == wants[b]
  {
  }

  lemma OneSiteFits(kind: Kind, short: string, long: string, path: string, wants: map<string, Files>)
    requires short != long && GlobMatches(kind, long, path)
    requires wants == map[short := map[], long := map[path := ""]]
    ensures wants.Keys == {short, long} && Fits(kind, wants) && path !in wants[short] && path in wants[long]
  {
  }

  lemma ClashBreaks(kind: Kind, a: string, b: string)
    requires a != b && '/' !in a && '/' !in b && Clash(a, b)
    ensures !RunsTogether(kind, a, b)
  {
    var short, long, path := ClashShares(kind, a, b);
    var wants: map<string, Files> := map[short := map[], long := map[path := ""]];
    OneSiteFits(kind, short, long, path, wants);
    if RunsTogether(kind, a, b) {
      TogetherAt(kind, a, b, wants);
      NoFilesFitBoth(ReconcileAll(map[], kind, wants, [a, b]), kind, short, long, wants[short], wants[long], path);
    }
  }

  /** Two tenants can be reconciled side by side exactly when neither id, followed by a dash, begins the other. */
  lemma RunsTogetherIffNoClash(kind: Kind, a: string, b: string)
    requires a != b && '/' !in a && '/' !in b
    ensures RunsTogether(kind, a, b) <==> !Clash(a, b)
  {
    if Clash(a, b) {
      ClashBreaks(kind, a, b);
    } else {
      forall files, wants: map<string, Files> | wants.Keys == {a, b} && Fits(kind, wants)
        ensures Listed(ReconcileAll(files, kind, wants, [a, b]), kind, a) == wants[a]
        ensures Listed(ReconcileAll(files, kind, wants, [a, b]), kind, b) == wants[b]
      {
        RunSettlesSelected(files, kind, wants, [a, b], a);
        RunSettlesSelected(files, kind, wants, [a, b], b);
      }
    }
  }

  /** The tenant has a fragment it does not want. */
  ghost predicate HasStray(files: Files, kind: Kind, id: string, want: Files) {
    exists p :: p in Listed(files, kind, id) && p !in want
  }

  /**
   * A run ends reconciled exactly when every selected tenant's listing came back or the tenant had no stray fragment.
   */
  lemma RunReconcilesIff(files: Files, kind: Kind, wants: map<string, Files>, ids: seq<string>, heard: seq<bool>)
    requires |heard| == |ids| && forall id :: id in ids ==> id in wants
    requires Fits(kind, wants) && NoClash(wants.Keys)
    ensures HandleAll(files, kind, wants, ids, heard) == ReconcileAll(files, kind, wants, ids)
       <==> forall id :: id in ids ==> Heard(ids, heard, id) || !HasStray(files, kind, id, wants[id])
  {
    var r, s := HandleAll(files, kind, wants, ids, heard), HandleAll(files, kind, wants, ids, AllHeard(|ids|));
    HeardRunReconciles(files, kind, wants, ids);
    if id :| id in ids && !Heard(ids, heard, id) && HasStray(files, kind, id, wants[id]) {
      var p :| p in Listed(files, kind, id) && p !in wants[id];
      HandleAllAt(files, kind, wants, ids, heard, id, p);
      HandleAllAt(files, kind, wants, ids, AllHeard(|ids|), id, p);
      AllAreHeard(ids, id);
      assert p in r && p !in s;
    } else {
      forall p ensures SameAt(r, s, p) {
        if id :| id in ids && GlobMatches(kind, id, p) {
          HandleAllAt(files, kind, wants, ids, heard, id, p);
          HandleAllAt(files, kind, wants, ids, AllHeard(|ids|), id, p);
          AllAreHeard(ids, id);
          assert p in files && p !in wants[id] ==> p in Listed(files, kind, id);
        } else {
          HandleAllElsewhere(files, kind, wants, ids, heard, p);
          HandleAllElsewhere(files, kind, wants, ids, AllHeard(|ids|), p);
        }
      }
      SameFiles(r, s);
    }
  }
}
