/** `checkCatalogCycles` (internal/workspace/semantic.go): the three-colour search. */
module CatalogCycles {
  import opened Catalog

  /** `at` is the stack whose descriptor file the issue names. */
  datatype Issue =
    | Cycle(at: string, chain: seq<string>)
    | Unknown(at: string, dependency: string)

  /** The source's state values 1 and 2; a name it maps to 0 has no entry here. */
  datatype Mark = Visiting | Done

  ghost predicate NoCycleIssue(issues: seq<Issue>) {
    forall i :: 0 <= i < |issues| ==> !issues[i].Cycle?
  }

  /** The issue reports a chain whose last edge is this one. */
  predicate Closes(issue: Issue, n: string, d: string) {
    issue.Cycle? && |issue.chain| > 1 && issue.chain[|issue.chain| - 2] == n && issue.chain[|issue.chain| - 1] == d
  }

  ghost predicate Broken(issues: seq<Issue>, n: string, d: string) {
    exists k :: 0 <= k < |issues| && Closes(issues[k], n, d)
  }

  lemma BrokenStays(before: seq<Issue>, after: seq<Issue>)
    requires before <= after
    ensures forall n, d :: Broken(before, n, d) ==> Broken(after, n, d)
  {
    forall n, d | Broken(before, n, d) ensures Broken(after, n, d) {
      var k :| 0 <= k < |before| && Closes(before[k], n, d);
      assert Closes(after[k], n, d);
    }
  }

  /** A finish order, but for the edges reported. */
  ghost predicate RankedBut(c: Catalog, issues: seq<Issue>, order: seq<string>) {
    forall i, d :: 0 <= i < |order| && KnownEdge(c, order[i], d) ==> d in order[..i] || Broken(issues, order[i], d)
  }

  /** The dependencies of a stack without the reported edges. */
  ghost function Kept(deps: seq<string>, n: string, issues: seq<Issue>): seq<string> {
    if deps == [] then []
    else (if Broken(issues, n, deps[0]) then [] else [deps[0]]) + Kept(deps[1..], n, issues)
  }

  lemma {:induction false} KeptIff(deps: seq<string>, n: string, issues: seq<Issue>, d: string)
    ensures d in Kept(deps, n, issues) <==> d in deps && !Broken(issues, n, d)
    decreases |deps|
  {
    if deps != [] {
      KeptIff(deps[1..], n, issues, d);
      assert deps == [deps[0]] + deps[1..];
    }
  }

  /** The catalog without the last edge of every reported chain. */
  ghost function Without(c: Catalog, issues: seq<Issue>): Catalog {
    map n | n in c :: c[n].(dependsOn := Kept(c[n].dependsOn, n, issues))
  }

  lemma WithoutIsRanked(c: Catalog, issues: seq<Issue>, order: seq<string>)
    requires RankedBut(c, issues, order)
    ensures Ranked(Without(c, issues), order)
  {
    forall i, d | 0 <= i < |order| && KnownEdge(Without(c, issues), order[i], d) ensures d in order[..i] {
      KeptIff(c[order[i]].dependsOn, order[i], issues, d);
      assert KnownEdge(c, order[i], d);
    }
  }

  /** The reported chain is a real dependency path that ends where it has already been. */
  ghost predicate RealCycle(c: Catalog, issue: Issue)
    requires issue.Cycle?
  {
    && IsPath(c, issue.chain)
    && issue.chain != []
    && issue.at == issue.chain[|issue.chain| - 1]
    && issue.at in issue.chain[..|issue.chain| - 1]
  }

  lemma RealCycleIsCycle(c: Catalog, issue: Issue)
    requires issue.Cycle? && RealCycle(c, issue)
    ensures HasCycle(c)
  {
    var p := issue.chain;
    var i :| 0 <= i < |p| - 1 && p[..|p| - 1][i] == issue.at;
    RevisitIsCycle(c, p, i);
  }

  /** How often stack n lists the dependency d, when the catalog does not know d. */
  ghost function UnknownCount(c: Catalog, n: string, d: string): nat {
    if n in c && d !in c then multiset(c[n].dependsOn)[d] else 0
  }

  /** No name loses its mark or changes it. */
  ghost predicate Extends(before: map<string, Mark>, after: map<string, Mark>) {
    && before.Keys <= after.Keys
    && forall n :: n in before ==> after[n] == before[n]
  }

  lemma CountStep(deps: seq<string>, i: nat)
    requires i < |deps|
    ensures deps[..i + 1] == deps[..i] + [deps[i]]
    ensures forall d :: multiset(deps[..i + 1])[d] == multiset(deps[..i])[d] + if d == deps[i] then 1 else 0
  {
    assert deps[..i + 1] == deps[..i] + [deps[i]];
  }

  /** How often the unknown edge (n, d) has been reported. */
  ghost function Reported(issues: seq<Issue>, n: string, d: string): nat {
    multiset(issues)[Unknown(n, d)]
  }

  lemma ReportedAfter(issues: seq<Issue>, issue: Issue)
    ensures forall n, d :: Reported(issues + [issue], n, d)
                           == Reported(issues, n, d) + if issue == Unknown(n, d) then 1 else 0
  {
  }

  ghost predicate AllReal(c: Catalog, issues: seq<Issue>) {
    forall issue :: issue in issues && issue.Cycle? ==> RealCycle(c, issue)
  }

  ghost predicate Tallied(c: Catalog, state: map<string, Mark>, issues: seq<Issue>) {
    && (forall n, d :: n !in state ==> Reported(issues, n, d) == 0)
    && (forall n, d :: n in state && state[n].Done? ==> Reported(issues, n, d) == UnknownCount(c, n, d))
  }

  /** The search invariant, over the search's three variables and its finish order. */
  ghost predicate Sound(c: Catalog, state: map<string, Mark>, issues: seq<Issue>, finished: seq<string>) {
    && state.Keys <= c.Keys
    && (forall n :: n in finished <==> n in state && state[n].Done?)
    && RankedBut(c, issues, finished)
    && AllReal(c, issues)
    && Tallied(c, state, issues)
  }

  lemma UnknownKeepsSound(c: Catalog, state: map<string, Mark>, issues: seq<Issue>, finished: seq<string>,
                          name: string, d: string)
    requires Sound(c, state, issues, finished)
    requires name in state && state[name].Visiting?
    ensures Sound(c, state, issues + [Unknown(name, d)], finished)
  {
    ReportedAfter(issues, Unknown(name, d));
    BrokenStays(issues, issues + [Unknown(name, d)]);
  }

  lemma CycleKeepsSound(c: Catalog, state: map<string, Mark>, issues: seq<Issue>, finished: seq<string>,
                        chain: seq<string>, name: string)
    requires Sound(c, state, issues, finished)
    requires IsPath(c, chain + [name]) && name in chain
    ensures Sound(c, state, issues + [Cycle(name, chain + [name])], finished)
    ensures Broken(issues + [Cycle(name, chain + [name])], chain[|chain| - 1], name)
  {
    var issue := Cycle(name, chain + [name]);
    ReportedAfter(issues, issue);
    BrokenStays(issues, issues + [issue]);
    assert issue.chain[..|issue.chain| - 1] == chain;
    assert Closes((issues + [issue])[|issues|], chain[|chain| - 1], name);
  }

  lemma FinishKeepsSound(c: Catalog, state: map<string, Mark>, issues: seq<Issue>, finished: seq<string>, name: string)
    requires Sound(c, state, issues, finished)
    requires name in state && state[name].Visiting?
    requires forall d :: Reported(issues, name, d) == UnknownCount(c, name, d)
    requires forall d :: KnownEdge(c, name, d) ==> d in finished || Broken(issues, name, d)
    ensures Sound(c, state[name := Done], issues, finished + [name])
  {
    var order := finished + [name];
    forall i, d | 0 <= i < |order| && KnownEdge(c, order[i], d)
      ensures d in order[..i] || Broken(issues, order[i], d)
    {
      assert order[..i] == finished[..i];
      if i == |finished| { assert finished[..i] == finished; }
    }
  }

  /** Every known one of these dependencies of a stack is finished, or the edge to it is reported. */
  ghost predicate Settled(c: Catalog, issues: seq<Issue>, finished: seq<string>, name: string, deps: seq<string>) {
    forall d :: d in deps && d in c ==> d in finished || Broken(issues, name, d)
  }

  lemma SettledGrows(c: Catalog, before: seq<Issue>, after: seq<Issue>, past: seq<string>, now: seq<string>,
                     name: string, deps: seq<string>, d: string)
    requires Settled(c, before, past, name, deps) && before <= after && past <= now
    requires d in c ==> d in now || Broken(after, name, d)
    ensures Settled(c, after, now, name, deps + [d])
  {
    BrokenStays(before, after);
  }

  class CycleSearch {
    const catalog: Catalog
    var state: map<string, Mark>
    var issues: seq<Issue>
    ghost var finished: seq<string>

    constructor (catalog: Catalog)
      ensures Valid() && this.catalog == catalog && state == map[]
    {
      this.catalog := catalog;
      state := map[];
      issues := [];
      finished := [];
    }

    ghost predicate Valid()
      reads this
    {
      Sound(catalog, state, issues, finished)
    }

    /** The grey names are exactly the recursion chain. */
    ghost predicate OnStack(chain: seq<string>)
      reads this
    {
      forall n :: n in chain <==> n in state && state[n].Visiting?
    }

    method Visit(name: string, chain: seq<string>)
      requires Valid() && OnStack(chain)
      requires name in catalog && IsPath(catalog, chain + [name])
      modifies this
      ensures Valid() && OnStack(chain)
      ensures name in state && Extends(old(state), state)
      ensures old(issues) <= issues && old(finished) <= finished
      ensures forall n, d :: n in chain ==> Reported(issues, n, d) == Reported(old(issues), n, d)
      ensures name in finished || (chain != [] && Broken(issues, chain[|chain| - 1], name))
      decreases catalog.Keys - state.Keys, 0
    {
      if name in state {
        if state[name] == Visiting {
          CycleKeepsSound(catalog, state, issues, finished, chain, name);
          ReportedAfter(issues, Cycle(name, chain + [name]));
          issues := issues + [Cycle(name, chain + [name])];
        }
        return;
      }
      assert name in catalog.Keys - state.Keys;
      state := state[name := Visiting];
      assert name !in catalog.Keys - state.Keys;
      VisitDependencies(name, chain + [name]);
      FinishKeepsSound(catalog, state, issues, finished, name);
      state := state[name := Done];
      finished := finished + [name];
    }

    /** The loop of `visit` over one stack's dependencies. */
    method VisitDependencies(name: string, path: seq<string>)
      requires Valid() && OnStack(path) && IsPath(catalog, path)
      requires path != [] && path[|path| - 1] == name && name in catalog
      requires forall d :: Reported(issues, name, d) == 0
      modifies this
      ensures Valid() && OnStack(path) && Extends(old(state), state)
      ensures old(issues) <= issues && old(finished) <= finished
      ensures forall n, d :: n in path && n != name ==> Reported(issues, n, d) == Reported(old(issues), n, d)
      ensures forall d :: Reported(issues, name, d) == UnknownCount(catalog, name, d)
      ensures Settled(catalog, issues, finished, name, catalog[name].dependsOn)
      decreases catalog.Keys - state.Keys, 2
    {
      var deps := catalog[name].dependsOn;
      for i := 0 to |deps|
        invariant Valid() && OnStack(path) && Extends(old(state), state)
        invariant old(issues) <= issues && old(finished) <= finished
        invariant forall n, d :: n in path && n != name ==> Reported(issues, n, d) == Reported(old(issues), n, d)
        invariant forall d :: Reported(issues, name, d) == if d in catalog then 0 else multiset(deps[..i])[d]
        invariant Settled(catalog, issues, finished, name, deps[..i])
      {
        CountStep(deps, i);
        ghost var told, done := issues, finished;
        VisitDependency(name, path, deps[i]);
        SettledGrows(catalog, told, issues, done, finished, name, deps[..i], deps[i]);
      }
      assert deps[..|deps|] == deps;
    }

    /** One turn of that loop. */
    method VisitDependency(name: string, path: seq<string>, dependency: string)
      requires Valid() && OnStack(path) && IsPath(catalog, path)
      requires path != [] && path[|path| - 1] == name
      requires name in catalog && dependency in catalog[name].dependsOn
      modifies this
      ensures Valid() && OnStack(path) && Extends(old(state), state)
      ensures old(issues) <= issues && old(finished) <= finished
      ensures forall n, d :: n in path ==>
                Reported(issues, n, d) == Reported(old(issues), n, d)
                                          + if n == name && d == dependency && d !in catalog then 1 else 0
      ensures dependency in catalog ==> dependency in finished || Broken(issues, name, dependency)
      decreases catalog.Keys - state.Keys, 1
    {
      if dependency !in catalog {
        UnknownKeepsSound(catalog, state, issues, finished, name, dependency);
        ReportedAfter(issues, Unknown(name, dependency));
        issues := issues + [Unknown(name, dependency)];
      } else {
        PathExtend(catalog, path, dependency);
        Visit(dependency, path);
      }
    }
  }

  /** The roots are visited in any order: Go's map iteration order is the arbitrary choice of `name`. */
  method CheckCatalogCycles(catalog: Catalog) returns (issues: seq<Issue>)
    ensures (exists issue :: issue in issues && issue.Cycle?) <==> HasCycle(catalog)
    ensures forall issue :: issue in issues && issue.Cycle? ==> RealCycle(catalog, issue)
    ensures !HasCycle(Without(catalog, issues))
    ensures forall n, d :: Reported(issues, n, d) == UnknownCount(catalog, n, d)
  {
    var search := new CycleSearch(catalog);
    var todo := catalog.Keys;
    while todo != {}
      invariant search.Valid() && search.OnStack([]) && fresh(search) && search.catalog == catalog
      invariant todo <= catalog.Keys
      invariant forall n :: n in catalog && n !in todo ==> n in search.finished
    {
      var name :| name in todo;
      todo := todo - {name};
      search.Visit(name, []);
    }
    issues := search.issues;
    WithoutIsRanked(catalog, issues, search.finished);
    RankedIsAcyclic(Without(catalog, issues), search.finished);
    if NoCycleIssue(issues) {
      RankedIsAcyclic(catalog, search.finished);
    } else {
      var i :| 0 <= i < |issues| && issues[i].Cycle?;
      assert issues[i] in issues;
      RealCycleIsCycle(catalog, issues[i]);
    }
  }
}
