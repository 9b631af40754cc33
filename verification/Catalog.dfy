/** The stack catalog and its dependency graph. */
module Catalog {

  datatype Volume = Volume(name: string)

  /** The descriptor fields the modelled code reads. */
  datatype Stack = Stack(dependsOn: seq<string>, minRamMB: int, storage: seq<Volume>)

  type Catalog = map<string, Stack>

  /** Go reads a missing catalog entry as the zero Stack. */
  function Lookup(c: Catalog, name: string): Stack {
    if name in c then c[name] else Stack([], 0, [])
  }

  /** A dependency edge between two stacks the catalog holds. */
  predicate KnownEdge(c: Catalog, from: string, to: string) {
    from in c && to in c && to in c[from].dependsOn
  }

  predicate Link(c: Catalog, p: seq<string>, i: nat)
    requires i + 1 < |p|
  {
    KnownEdge(c, p[i], p[i + 1])
  }

  ghost predicate IsPath(c: Catalog, p: seq<string>) {
    forall i: nat | i + 1 < |p| :: Link(c, p, i)
  }

  ghost predicate IsCycle(c: Catalog, p: seq<string>) {
    |p| >= 2 && IsPath(c, p) && p[0] == p[|p| - 1]
  }

  ghost predicate HasCycle(c: Catalog) {
    exists p :: IsCycle(c, p)
  }

  lemma PathSlice(c: Catalog, p: seq<string>, lo: nat, hi: nat)
    requires IsPath(c, p) && lo <= hi <= |p|
    ensures IsPath(c, p[lo..hi])
  {
    forall i: nat | i + 1 < hi - lo ensures Link(c, p[lo..hi], i) {
      assert Link(c, p, lo + i);
    }
  }

  lemma PathExtend(c: Catalog, p: seq<string>, next: string)
    requires IsPath(c, p) && p != [] && KnownEdge(c, p[|p| - 1], next)
    ensures IsPath(c, p + [next])
  {
    forall i: nat | i + 1 < |p| + 1 ensures Link(c, p + [next], i) {
      if i + 1 < |p| { assert Link(c, p, i); }
    }
  }

  /** A path that revisits one of its nodes holds a cycle. */
  lemma RevisitIsCycle(c: Catalog, p: seq<string>, i: nat)
    requires IsPath(c, p) && i + 1 < |p| && p[i] == p[|p| - 1]
    ensures HasCycle(c)
  {
    PathSlice(c, p, i, |p|);
    assert IsCycle(c, p[i..|p|]);
  }

  /** A finish order: every known dependency stands before its dependent. */
  ghost predicate Ranked(c: Catalog, order: seq<string>) {
    forall i, d :: 0 <= i < |order| && KnownEdge(c, order[i], d) ==> d in order[..i]
  }

  lemma {:induction false} PathDescends(c: Catalog, order: seq<string>, p: seq<string>, i: nat) returns (j: nat)
    requires Ranked(c, order) && IsPath(c, p) && p != []
    requires i < |order| && order[i] == p[0]
    ensures j <= i && order[j] == p[|p| - 1]
    ensures |p| > 1 ==> j < i
    decreases |p|
  {
    if |p| == 1 {
      j := i;
    } else {
      assert Link(c, p, 0);
      var k :| 0 <= k < i && order[..i][k] == p[1];
      PathSlice(c, p, 1, |p|);
      j := PathDescends(c, order, p[1..|p|], k);
    }
  }

  lemma {:induction false} NoCycleFrom(c: Catalog, order: seq<string>, p: seq<string>, i: nat)
    requires Ranked(c, order) && i < |order|
    requires IsCycle(c, p) && order[i] == p[0]
    ensures false
    decreases i
  {
    var j := PathDescends(c, order, p, i);
    NoCycleFrom(c, order, p, j);
  }

  /** A finish order over the whole catalog rules out every cycle. */
  lemma RankedIsAcyclic(c: Catalog, order: seq<string>)
    requires Ranked(c, order)
    requires forall n :: n in c ==> n in order
    ensures !HasCycle(c)
  {
    if HasCycle(c) {
      var p :| IsCycle(c, p);
      assert Link(c, p, 0);
      assert p[0] in order;
      var i :| 0 <= i < |order| && order[i] == p[0];
      NoCycleFrom(c, order, p, i);
    }
  }
}
