/** `orderedStacks` (internal/cli/hosts.go): the deploy order of one host's stacks. */
module StackOrder {
  import opened Text
  import opened Catalog

  /** The two variables the recursive closure shares. */
  datatype Walk = Walk(seen: set<string>, order: seq<string>)

  /** The walk after visiting `names` in turn. */
  function VisitAll(c: Catalog, want: set<string>, w: Walk, names: seq<string>): (r: Walk)
    ensures w.seen <= r.seen
    decreases want - w.seen, |names|
  {
    if names == [] then w
    else VisitAll(c, want, VisitOne(c, want, w, names[0], |names|), names[1..])
  }

  function VisitOne(c: Catalog, want: set<string>, w: Walk, name: string, ghost rank: nat): (r: Walk)
    requires rank > 0
    ensures w.seen <= r.seen
    decreases want - w.seen, rank - 1, 0
  {
    if name in w.seen || name !in want then w
    else
      var entered := w.(seen := w.seen + {name});
      assert name in want - w.seen && name !in want - entered.seen;
      var inner := VisitAll(c, want, entered, Lookup(c, name).dependsOn);
      inner.(order := inner.order + [name])
  }

  /** What `orderedStacks` returns. */
  function Ordered(c: Catalog, stacks: seq<string>): seq<string> {
    VisitAll(c, Members(stacks), Walk({}, []), Sorted(stacks)).order
  }

  class OrderWalk {
    const catalog: Catalog
    var want: set<string>
    var seen: set<string>
    var order: seq<string>

    constructor (catalog: Catalog)
      ensures this.catalog == catalog && want == {} && State() == Walk({}, [])
    {
      this.catalog := catalog;
      want, seen, order := {}, {}, [];
    }

    function State(): Walk
      reads this
    {
      Walk(seen, order)
    }

    method Visit(name: string)
      modifies this`seen, this`order
      ensures State() == VisitOne(catalog, want, old(State()), name, 1)
      decreases want - seen
    {
      if name in seen || name !in want {
        return;
      }
      assert name in want - seen;
      seen := seen + {name};
      assert name !in want - seen;
      var deps := Lookup(catalog, name).dependsOn;
      ghost var entered := State();
      for i := 0 to |deps|
        invariant entered.seen <= seen
        invariant VisitAll(catalog, want, entered, deps) == VisitAll(catalog, want, State(), deps[i..])
      {
        assert deps[i..][0] == deps[i] && deps[i..][1..] == deps[i + 1..];
        RankIsIdle(catalog, want, State(), deps[i], 1, |deps[i..]|);
        Visit(deps[i]);
      }
      order := order + [name];
    }
  }

  /** The rank only orders the recursion. */
  lemma RankIsIdle(c: Catalog, want: set<string>, w: Walk, name: string, a: nat, b: nat)
    requires a > 0 && b > 0
    ensures VisitOne(c, want, w, name, a) == VisitOne(c, want, w, name, b)
  {
  }

  method OrderedStacks(catalog: Catalog, stacks: seq<string>) returns (order: seq<string>)
    ensures order == Ordered(catalog, stacks)
  {
    var walk := new OrderWalk(catalog);
    for i := 0 to |stacks|
      invariant walk.want == Members(stacks[..i])
      invariant walk.catalog == catalog && walk.State() == Walk({}, [])
    {
      walk.want := walk.want + {stacks[i]};
    }
    assert stacks[..|stacks|] == stacks;
    var names := Sorted(stacks);
    for i := 0 to |names|
      invariant walk.catalog == catalog && walk.want == Members(stacks)
      invariant VisitAll(catalog, walk.want, Walk({}, []), names)
             == VisitAll(catalog, walk.want, walk.State(), names[i..])
    {
      assert names[i..][0] == names[i] && names[i..][1..] == names[i + 1..];
      RankIsIdle(catalog, walk.want, walk.State(), names[i], 1, |names[i..]|);
      walk.Visit(names[i]);
    }
    order := walk.order;
  }

  /** Nothing is emitted twice, and everything emitted has been entered. */
  ghost predicate Emitted(w: Walk) {
    Distinct(w.order) && forall n :: n in w.order ==> n in w.seen
  }

  /** A visit emits exactly the names it enters, and enters every wanted name it is given. */
  lemma {:induction false} VisitEmitsWhatItEnters(c: Catalog, want: set<string>, w: Walk, names: seq<string>)
    requires Emitted(w)
    ensures var r := VisitAll(c, want, w, names);
            && Emitted(r)
            && r.seen <= w.seen + want
            && (forall n :: n in r.order <==> n in w.order || (n in r.seen && n !in w.seen))
            && (forall n :: n in names && n in want ==> n in r.seen)
    decreases want - w.seen, |names|
  {
    if names != [] {
      var name := names[0];
      var next := VisitOne(c, want, w, name, |names|);
      if name !in w.seen && name in want {
        var entered := w.(seen := w.seen + {name});
        assert name in want - w.seen && name !in want - entered.seen;
        VisitEmitsWhatItEnters(c, want, entered, Lookup(c, name).dependsOn);
      }
      VisitEmitsWhatItEnters(c, want, next, names[1..]);
    }
  }

  /** Each assigned stack is listed exactly once, and nothing else is, on every catalog, cyclic or not. */
  lemma OrderedListsEachOnce(c: Catalog, stacks: seq<string>)
    ensures Distinct(Ordered(c, stacks))
    ensures forall n :: n in Ordered(c, stacks) <==> n in stacks
  {
    VisitEmitsWhatItEnters(c, Members(stacks), Walk({}, []), Sorted(stacks));
    SameMembers(stacks, Sorted(stacks));
  }

  /** The arrangement of the assigned stacks does not matter. */
  lemma OrderedIgnoresArrangement(c: Catalog, a: seq<string>, b: seq<string>)
    requires multiset(a) == multiset(b)
    ensures Ordered(c, a) == Ordered(c, b)
  {
    SortedIgnoresArrangement(a, b);
    SameMembers(a, b);
    assert Members(a) == Members(b);
  }

  /** Every wanted direct dependency stands before its dependent. */
  ghost predicate DependenciesFirst(c: Catalog, want: set<string>, order: seq<string>) {
    forall i, d :: 0 <= i < |order| && d in Lookup(c, order[i]).dependsOn && d in want ==> d in order[..i]
  }

  /** The names entered but not yet emitted are the recursion chain, a real path. */
  ghost predicate OnChain(c: Catalog, w: Walk, chain: seq<string>) {
    IsPath(c, chain) && forall n :: n in chain <==> n in w.seen && n !in w.order
  }

  lemma {:induction false} VisitKeepsDependenciesFirst(c: Catalog, want: set<string>, w: Walk, names: seq<string>,
                                                       chain: seq<string>)
    requires !HasCycle(c)
    requires Emitted(w) && DependenciesFirst(c, want, w.order) && OnChain(c, w, chain)
    requires chain != [] ==> forall d :: d in names ==> d in Lookup(c, chain[|chain| - 1]).dependsOn
    ensures var r := VisitAll(c, want, w, names);
            && DependenciesFirst(c, want, r.order)
            && forall d :: d in names && d in want ==> d in r.order
    decreases want - w.seen, |names|
  {
    if names != [] {
      var name := names[0];
      assert name in names && forall d :: d in names[1..] ==> d in names;
      VisitEmitsWhatItEnters(c, want, w, names);
      var next := VisitOne(c, want, w, name, |names|);
      if name in w.seen && name in want && name !in w.order {
        CloseChain(c, chain, name);
      } else if name !in w.seen && name in want {
        EmitAfterDependencies(c, want, w, names, chain);
      }
      VisitKeepsDependenciesFirst(c, want, next, names[1..], chain);
      VisitEmitsWhatItEnters(c, want, next, names[1..]);
    }
  }

  /** Meeting a name of the chain again closes a cycle of known edges. */
  lemma CloseChain(c: Catalog, chain: seq<string>, name: string)
    requires IsPath(c, chain) && name in chain
    requires name in Lookup(c, chain[|chain| - 1]).dependsOn
    ensures HasCycle(c)
  {
    var i :| 0 <= i < |chain| && chain[i] == name;
    if i + 1 < |chain| { assert Link(c, chain, i); }
    PathExtend(c, chain, name);
    RevisitIsCycle(c, chain + [name], i);
  }

  lemma {:induction false} EmitAfterDependencies(c: Catalog, want: set<string>, w: Walk, names: seq<string>,
                                                 chain: seq<string>)
    requires !HasCycle(c)
    requires Emitted(w) && DependenciesFirst(c, want, w.order) && OnChain(c, w, chain)
    requires names != [] && names[0] !in w.seen && names[0] in want
    requires chain != [] ==> names[0] in Lookup(c, chain[|chain| - 1]).dependsOn
    ensures var next := VisitOne(c, want, w, names[0], |names|);
            && Emitted(next) && DependenciesFirst(c, want, next.order) && OnChain(c, next, chain)
            && names[0] in next.order
    decreases want - w.seen, |names|, 0
  {
    var name := names[0];
    var deps := Lookup(c, name).dependsOn;
    var entered := w.(seen := w.seen + {name});
    assert name in want - w.seen && name !in want - entered.seen;
    if deps != [] {
      if chain != [] {
        PathExtend(c, chain, name);
      }
      VisitKeepsDependenciesFirst(c, want, entered, deps, chain + [name]);
    }
    VisitEmitsWhatItEnters(c, want, entered, deps);
    var inner := VisitAll(c, want, entered, deps);
    var order := inner.order + [name];
    forall i, d | 0 <= i < |order| && d in Lookup(c, order[i]).dependsOn && d in want ensures d in order[..i] {
      assert order[..i] == inner.order[..i];
      if i == |inner.order| { assert inner.order[..i] == inner.order; }
    }
  }

  /** The catalog as far as the walk looks at it: the assigned stacks only. */
  function Within(c: Catalog, want: set<string>): Catalog {
    map n | n in c && n in want :: c[n]
  }

  /** The walk never looks beyond the assigned stacks. */
  lemma {:induction false} WalkStaysWithin(c: Catalog, want: set<string>, w: Walk, names: seq<string>)
    ensures VisitAll(Within(c, want), want, w, names) == VisitAll(c, want, w, names)
    decreases want - w.seen, |names|
  {
    if names != [] {
      var name := names[0];
      if name !in w.seen && name in want {
        var entered := w.(seen := w.seen + {name});
        assert name in want - w.seen && name !in want - entered.seen;
        assert Lookup(Within(c, want), name) == Lookup(c, name);
        WalkStaysWithin(c, want, entered, Lookup(c, name).dependsOn);
      }
      WalkStaysWithin(c, want, VisitOne(c, want, w, name, |names|), names[1..]);
    }
  }

  /** A cycle that stays within the assigned stacks is a cycle of the catalog. */
  lemma CycleWithin(c: Catalog, want: set<string>)
    ensures HasCycle(Within(c, want)) ==> HasCycle(c)
  {
    if HasCycle(Within(c, want)) {
      var p :| IsCycle(Within(c, want), p);
      forall i: nat | i + 1 < |p| ensures Link(c, p, i) {
        assert Link(Within(c, want), p, i);
      }
      assert IsCycle(c, p);
    }
  }

  lemma RankedWithin(c: Catalog, stacks: seq<string>)
    requires DependenciesFirst(c, Members(stacks), Ordered(c, stacks))
    ensures Ranked(Within(c, Members(stacks)), Ordered(c, stacks))
  {
  }

  /** The order is topological exactly when no cycle of known dependencies stays within the assigned stacks. */
  lemma OrderedIsTopologicalIff(c: Catalog, stacks: seq<string>)
    ensures DependenciesFirst(c, Members(stacks), Ordered(c, stacks)) <==> !HasCycle(Within(c, Members(stacks)))
  {
    var want, order := Members(stacks), Ordered(c, stacks);
    var mine := Within(c, want);
    OrderedListsEachOnce(c, stacks);
    if DependenciesFirst(c, want, order) {
      RankedWithin(c, stacks);
      RankedIsAcyclic(mine, order);
    }
    if !HasCycle(mine) {
      WalkStaysWithin(c, want, Walk({}, []), Sorted(stacks));
      VisitKeepsDependenciesFirst(mine, want, Walk({}, []), Sorted(stacks), []);
      assert forall n :: n in order ==> n in want && Lookup(mine, n) == Lookup(c, n);
    }
  }

  /** After a clean cycle check, no assigned stack precedes a direct dependency that is assigned too. */
  lemma OrderedIsTopological(c: Catalog, stacks: seq<string>)
    requires !HasCycle(c)
    ensures DependenciesFirst(c, Members(stacks), Ordered(c, stacks))
  {
    CycleWithin(c, Members(stacks));
    OrderedIsTopologicalIff(c, stacks);
  }

  /** ... nor any longer chain of dependencies, as long as every stack of it is assigned. */
  lemma PathsWithinAreOrdered(c: Catalog, stacks: seq<string>, p: seq<string>, i: nat) returns (j: nat)
    requires !HasCycle(Within(c, Members(stacks)))
    requires |p| > 1 && IsPath(c, p) && forall n :: n in p ==> n in stacks
    requires i < |Ordered(c, stacks)| && Ordered(c, stacks)[i] == p[0]
    ensures j < i && Ordered(c, stacks)[j] == p[|p| - 1]
  {
    var mine := Within(c, Members(stacks));
    OrderedIsTopologicalIff(c, stacks);
    RankedWithin(c, stacks);
    forall k: nat | k + 1 < |p| ensures Link(mine, p, k) {
      assert Link(c, p, k) && p[k] in p && p[k + 1] in p;
    }
    j := PathDescends(mine, Ordered(c, stacks), p, i);
  }

  // ---- Nothing is moved ahead of the alphabet without need ----

  /** Assigned stacks, each a dependency of the one before it. */
  ghost predicate IsNeedChain(c: Catalog, want: set<string>, p: seq<string>) {
    && p != [] && (forall n :: n in p ==> n in want)
    && forall i :: 0 <= i < |p| - 1 ==> p[i + 1] in Lookup(c, p[i]).dependsOn
  }

  /** The stack is one of the roots, or a root needs it. */
  ghost predicate Needed(c: Catalog, want: set<string>, roots: seq<string>, name: string) {
    exists p :: IsNeedChain(c, want, p) && p[0] in roots && p[|p| - 1] == name
  }

  lemma RootIsNeeded(c: Catalog, want: set<string>, roots: seq<string>, name: string)
    requires name in roots && name in want
    ensures Needed(c, want, roots, name)
  {
    assert IsNeedChain(c, want, [name]);
  }

  lemma NeededThrough(c: Catalog, want: set<string>, roots: seq<string>, root: string, name: string)
    requires root in roots && root in want && Needed(c, want, Lookup(c, root).dependsOn, name)
    ensures Needed(c, want, roots, name)
  {
    var p :| IsNeedChain(c, want, p) && p[0] in Lookup(c, root).dependsOn && p[|p| - 1] == name;
    var longer := [root] + p;
    forall i | 0 <= i < |longer| - 1 ensures longer[i + 1] in Lookup(c, longer[i]).dependsOn {
      assert i > 0 ==> longer[i] == p[i - 1];
    }
    assert IsNeedChain(c, want, longer) && longer[|longer| - 1] == name;
  }

  lemma NeededByMore(c: Catalog, want: set<string>, roots: seq<string>, more: seq<string>, name: string)
    requires Needed(c, want, roots, name) && forall r :: r in roots ==> r in more
    ensures Needed(c, want, more, name)
  {
    var p :| IsNeedChain(c, want, p) && p[0] in roots && p[|p| - 1] == name;
    assert p[0] in more;
  }

  /** A walk enters only what its names need, and only adds to the order. */
  lemma {:induction false} WalkEntersNeeded(c: Catalog, want: set<string>, w: Walk, names: seq<string>)
    ensures var r := VisitAll(c, want, w, names);
            w.order <= r.order && forall n :: n in r.seen && n !in w.seen ==> Needed(c, want, names, n)
    decreases want - w.seen, |names|
  {
    if names != [] {
      var name, next := names[0], VisitOne(c, want, w, names[0], |names|);
      if name !in w.seen && name in want {
        var entered := w.(seen := w.seen + {name});
        var deps := Lookup(c, name).dependsOn;
        assert name in want - w.seen && name !in want - entered.seen;
        WalkEntersNeeded(c, want, entered, deps);
        forall n | n in next.seen && n !in w.seen ensures Needed(c, want, names, n) {
          if n == name { RootIsNeeded(c, want, names, n); } else { NeededThrough(c, want, names, name, n); }
        }
      }
      WalkEntersNeeded(c, want, next, names[1..]);
      forall n | n in VisitAll(c, want, w, names).seen && n !in next.seen ensures Needed(c, want, names, n) {
        NeededByMore(c, want, names[1..], names, n);
      }
    }
  }

  lemma {:induction false} VisitInTwo(c: Catalog, want: set<string>, w: Walk, a: seq<string>, b: seq<string>)
    ensures VisitAll(c, want, w, a + b) == VisitAll(c, want, VisitAll(c, want, w, a), b)
    decreases |a|
  {
    if a == [] {
      assert a + b == b;
    } else {
      assert (a + b)[1..] == a[1..] + b;
      RankIsIdle(c, want, w, a[0], |a|, |a + b|);
      VisitInTwo(c, want, VisitOne(c, want, w, a[0], |a|), a[1..], b);
    }
  }

  /** Whatever stands ahead of a root is needed by it or by a root before it. */
  lemma AheadOfRoot(c: Catalog, want: set<string>, names: seq<string>, m: nat, i: nat, j: nat)
    requires m < |names| && names[m] in want
    requires var order := VisitAll(c, want, Walk({}, []), names).order;
             i < j < |order| && order[j] == names[m]
    ensures Needed(c, want, names[..m + 1], VisitAll(c, want, Walk({}, []), names).order[i])
  {
    var w, first, rest := Walk({}, []), names[..m + 1], names[m + 1..];
    var half, whole := VisitAll(c, want, w, first), VisitAll(c, want, w, names);
    assert names == first + rest && first[m] == names[m];
    VisitInTwo(c, want, w, first, rest);
    VisitEmitsWhatItEnters(c, want, w, first);
    VisitEmitsWhatItEnters(c, want, w, names);
    WalkEntersNeeded(c, want, w, first);
    WalkEntersNeeded(c, want, half, rest);
    AheadInHalf(half.order, whole.order, i, j);
  }

  /**
   * A stack stands ahead of another only if it sorts before that one, or one that does, or that one itself, needs it:
   * on every catalog.
   */
  lemma AheadOnlyIfNeeded(c: Catalog, stacks: seq<string>, i: nat, j: nat) returns (p: seq<string>)
    requires i < j < |Ordered(c, stacks)|
    ensures IsNeedChain(c, Members(stacks), p) && LessEq(p[0], Ordered(c, stacks)[j])
    ensures p[|p| - 1] == Ordered(c, stacks)[i]
  {
    var names, order := Sorted(stacks), Ordered(c, stacks);
    OrderedListsEachOnce(c, stacks);
    SameMembers(stacks, names);
    assert order[j] in names;
    var m :| 0 <= m < |names| && names[m] == order[j];
    AheadOfRoot(c, Members(stacks), names, m, i, j);
    p :| IsNeedChain(c, Members(stacks), p) && p[0] in names[..m + 1] && p[|p| - 1] == order[i];
    RootIsAtMost(stacks, p[0], m);
  }

  lemma RootIsAtMost(stacks: seq<string>, root: string, m: nat)
    requires m < |Sorted(stacks)| && root in Sorted(stacks)[..m + 1]
    ensures LessEq(root, Sorted(stacks)[m])
  {
    var names := Sorted(stacks);
    SortedIsSorted(stacks);
    var k :| 0 <= k <= m && names[..m + 1][k] == root;
    LessEqTotal(root, root);
    assert k < m ==> LessEq(names[k], names[m]);
  }

  lemma AheadInHalf(half: seq<string>, order: seq<string>, i: nat, j: nat)
    requires half <= order && Distinct(order) && i < j < |order| && order[j] in half
    ensures order[i] in half
  {
    var k :| 0 <= k < |half| && half[k] == order[j];
    assert order[k] == order[j];
    assert k == j && half[i] == order[i];
  }

  const LINKED: Catalog := map["a" := Stack(["b"], 0, []), "b" := Stack(["c"], 0, []), "c" := Stack([], 0, [])]

  lemma LinkedIsAcyclic()
    ensures !HasCycle(LINKED) && IsPath(LINKED, ["a", "b", "c"])
  {
    var order := ["c", "b", "a"];
    forall i, d | 0 <= i < |order| && KnownEdge(LINKED, order[i], d) ensures d in order[..i] {
      assert i == 1 ==> order[..1][0] == "c";
      assert i == 2 ==> order[..2][1] == "b";
    }
    RankedIsAcyclic(LINKED, order);
  }

  lemma SortedPair()
    ensures Sorted(["c", "a"]) == ["a", "c"]
  {
    assert ["c", "a"][1..] == ["a"];
    assert Sorted(["a"]) == ["a"];
    assert !LessEq("c", "a");
  }

  /** A chain through an unassigned stack is not ordered: a -> b -> c with b unassigned deploys a before c. */
  lemma UnassignedLinkIsNotFollowed()
    ensures !HasCycle(LINKED) && IsPath(LINKED, ["a", "b", "c"])
    ensures Ordered(LINKED, ["c", "a"]) == ["a", "c"]
  {
    LinkedIsAcyclic();
    SortedPair();
    var want := Members(["c", "a"]);
    var w1, w2 := Walk({"a"}, ["a"]), Walk({"a", "c"}, ["a", "c"]);
    assert VisitAll(LINKED, want, Walk({"a"}, []), ["b"]) == Walk({"a"}, []);
    assert VisitOne(LINKED, want, Walk({}, []), "a", 2) == w1;
    assert VisitOne(LINKED, want, w1, "c", 1) == w2;
    assert ["a", "c"][1..] == ["c"];
  }
}
