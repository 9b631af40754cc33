/**
 * `Extract` (internal/engine/engine.go): one process at a time, which may fail or be killed at any step, even in the
 * middle of a file write or of a RemoveAll that deletes in any order.
 */
module EngineCache {
  import opened Text

  /** The files of a directory by relative path. */
  type Files = map<string, string>

  const MARKER := ".complete"

  /** The cache directory CachePath gives a version. */
  function DirName(version: string): string {
    Base(if TrimSpace(version) == "" then "dev" else version)
  }

  datatype Stage =
    | Starting(version: string)
    | Preparing(version: string)
    | Copying(version: string, temp: nat, todo: set<string>)
    | Marking(version: string, temp: nat)
    | Removing(version: string, temp: nat)
    | Renaming(version: string, temp: nat)
    | Cleaning(temp: nat)
    | Failed
    | Returned(version: string)

  /** One cache directory, the temporary directories beside it, and the process at work, if any. */
  datatype State = State(destination: Option<Files>, temps: map<nat, Files>, process: Option<Stage>)

  datatype Step =
    | Begin(version: string)
    | Stat
    | StatError
    | MakeTemp(temp: nat)
    | Scribble(path: string, content: string)
    | Copied(path: string)
    | AllCopied
    | Marked
    | Delete(path: string)
    | Deleted
    | Publish
    | Abort
    | Clean(path: string)
    | Cleaned
    | Crash
    | Exit

  function Move(s: State, to: Stage): Option<State> {
    Some(s.(process := Some(to)))
  }

  function WriteTemp(s: State, temp: nat, path: string, content: string): State {
    if temp in s.temps then s.(temps := s.temps[temp := s.temps[temp][path := content]]) else s
  }

  /** `embedded` is the tree each version carries; `dir` is the directory under study. */
  function Next(embedded: string -> Files, dir: string, s: State, step: Step): Option<State> {
    match step
    case Crash => Some(s.(process := None))
    case Begin(version) =>
      if s.process.Some? || DirName(version) != dir then None else Move(s, Starting(version))
    case Exit =>
      if s.process == Some(Failed) || (s.process.Some? && s.process.value.Returned?) then Some(s.(process := None))
      else None
    case Stat =>
      (match s.process
       case Some(Starting(version)) =>
         if version != "dev" && s.destination.Some? && MARKER in s.destination.value then Move(s, Returned(version))
         else Move(s, Preparing(version))
       case _ => None)
    case StatError =>
      (match s.process
       case Some(Starting(version)) => Move(s, Preparing(version))
       case _ => None)
    case MakeTemp(temp) =>
      (match s.process
       case Some(Preparing(version)) =>
         if temp in s.temps then None
         else Move(s.(temps := s.temps[temp := map[]]), Copying(version, temp, embedded(version).Keys))
       case _ => None)
    case Scribble(path, content) =>
      (match s.process
       case Some(Copying(_, temp, todo)) => if path in todo then Some(WriteTemp(s, temp, path, content)) else None
       case Some(Marking(_, temp)) => if path == MARKER then Some(WriteTemp(s, temp, path, content)) else None
       case _ => None)
    case Copied(path) =>
      (match s.process
       case Some(Copying(version, temp, todo)) =>
         if path in todo && path in embedded(version)
         then Move(WriteTemp(s, temp, path, embedded(version)[path]), Copying(version, temp, todo - {path}))
         else None
       case _ => None)
    case AllCopied =>
      (match s.process
       case Some(Copying(version, temp, todo)) => if todo == {} then Move(s, Marking(version, temp)) else None
       case _ => None)
    case Marked =>
      (match s.process
       case Some(Marking(version, temp)) =>
         Move(WriteTemp(s, temp, MARKER, version + "\n"), Removing(version, temp))
       case _ => None)
    case Delete(path) =>
      (match s.process
       case Some(Removing(_, _)) =>
         if s.destination.Some? && path in s.destination.value
         then Some(s.(destination := Some(s.destination.value - {path}))) else None
       case _ => None)
    case Deleted =>
      (match s.process
       case Some(Removing(version, temp)) =>
         if s.destination.Some? && s.destination.value != map[] then None
         else Move(s.(destination := None), Renaming(version, temp))
       case _ => None)
    case Publish =>
      (match s.process
       case Some(Renaming(version, temp)) =>
         if s.destination.Some? || temp !in s.temps then None
         else Move(s.(destination := Some(s.temps[temp]), temps := s.temps - {temp}), Returned(version))
       case _ => None)
    case Abort =>
      (match s.process
       case Some(Starting(_)) => Move(s, Failed)
       case Some(Preparing(_)) => Move(s, Failed)
       case Some(Copying(_, temp, _)) => Move(s, Cleaning(temp))
       case Some(Marking(_, temp)) => Move(s, Cleaning(temp))
       case Some(Removing(_, temp)) => Move(s, Cleaning(temp))
       case Some(Renaming(_, temp)) => Move(s, Cleaning(temp))
       case _ => None)
    case Clean(path) =>
      (match s.process
       case Some(Cleaning(temp)) =>
         if temp in s.temps then Some(s.(temps := s.temps[temp := s.temps[temp] - {path}])) else None
       case _ => None)
    case Cleaned =>
      (match s.process
       case Some(Cleaning(temp)) => Move(s.(temps := s.temps - {temp}), Failed)
       case _ => None)
  }

  function Run(embedded: string -> Files, dir: string, s: State, steps: seq<Step>): Option<State>
    decreases |steps|
  {
    if steps == [] then Some(s)
    else
      var next := Next(embedded, dir, s, steps[0]);
      if next.None? then None else Run(embedded, dir, next.value, steps[1..])
  }

  const EMPTY := State(None, map[], None)

  /** Every version that uses the directory carries this tree, and the tree has no file named like the marker. */
  ghost predicate Carries(embedded: string -> Files, dir: string, tree: Files) {
    MARKER !in tree && forall v :: DirName(v) == dir ==> embedded(v) == tree
  }

  /** The tree, the marker, and nothing else. */
  ghost predicate Complete(files: Files, tree: Files) {
    MARKER in files && files - {MARKER} == tree
  }

  /** What the working process has built in its temporary directory. */
  ghost predicate TempOk(s: State, tree: Files) {
    match s.process
    case Some(Copying(_, temp, todo)) =>
      && temp in s.temps && todo <= tree.Keys && s.temps[temp].Keys <= tree.Keys
      && forall p :: p in tree && p !in todo ==> p in s.temps[temp] && s.temps[temp][p] == tree[p]
    case Some(Marking(_, temp)) => temp in s.temps && s.temps[temp] - {MARKER} == tree
    case Some(Removing(_, temp)) => temp in s.temps && Complete(s.temps[temp], tree)
    case Some(Renaming(_, temp)) => temp in s.temps && Complete(s.temps[temp], tree)
    case _ => true
  }

  ghost predicate HasMarker(s: State) {
    s.destination.Some? && MARKER in s.destination.value
  }

  /** A destination with the marker is the whole tree; a process past its marker check works on one without. */
  ghost predicate Safe(s: State, tree: Files) {
    && (HasMarker(s) ==> Complete(s.destination.value, tree))
    && (s.process.Some? && s.process.value.Returned? ==> HasMarker(s))
    && (s.process.Some? && Refreshing(s.process.value) ==> !HasMarker(s))
  }

  /** Past the marker check, before the end. */
  predicate Refreshing(p: Stage) {
    p.Preparing? || p.Copying? || p.Marking? || p.Removing? || p.Renaming?
  }

  ghost predicate FromHere(s: State, dir: string) {
    match s.process
    case Some(Starting(v)) => DirName(v) == dir
    case Some(Preparing(v)) => DirName(v) == dir
    case Some(Copying(v, _, _)) => DirName(v) == dir
    case Some(Marking(v, _)) => DirName(v) == dir
    case _ => true
  }

  lemma StepKeepsTemp(embedded: string -> Files, dir: string, tree: Files, s: State, step: Step)
    requires Carries(embedded, dir, tree) && FromHere(s, dir) && TempOk(s, tree)
    requires Next(embedded, dir, s, step).Some?
    ensures FromHere(Next(embedded, dir, s, step).value, dir) && TempOk(Next(embedded, dir, s, step).value, tree)
  {
    var t := Next(embedded, dir, s, step).value;
    match step
    case AllCopied =>
      var temp := s.process.value.temp;
      assert s.temps[temp] - {MARKER} == tree;
    case Marked =>
      var temp := s.process.value.temp;
      assert t.temps[temp] - {MARKER} == s.temps[temp] - {MARKER};
    case Scribble(path, content) =>
      if s.process.value.Marking? {
        var temp := s.process.value.temp;
        assert t.temps[temp] - {MARKER} == s.temps[temp] - {MARKER};
      }
    case _ =>
  }

  lemma StepKeepsSafe(embedded: string -> Files, dir: string, tree: Files, s: State, step: Step)
    requires dir != "dev" && DirName("dev") == "dev" && (step == StatError ==> !HasMarker(s))
    requires Carries(embedded, dir, tree) && FromHere(s, dir) && TempOk(s, tree) && Safe(s, tree)
    requires Next(embedded, dir, s, step).Some?
    ensures Safe(Next(embedded, dir, s, step).value, tree)
  {
  }

  lemma DevIsDev()
    ensures DirName("dev") == "dev" && DirName("") == "dev"
  {
    SplitWhole("dev", '/');
  }

  /** No marker check fails while the destination has the marker. */
  ghost predicate Guarded(embedded: string -> Files, dir: string, s: State, steps: seq<Step>)
    decreases |steps|
  {
    steps == [] ||
    (&& (steps[0] == StatError ==> !HasMarker(s))
     && var next := Next(embedded, dir, s, steps[0]);
        next.Some? ==> Guarded(embedded, dir, next.value, steps[1..]))
  }

  lemma {:induction false} RunKeepsSafe(embedded: string -> Files, dir: string, tree: Files, s: State, steps: seq<Step>)
    requires dir != "dev" && Guarded(embedded, dir, s, steps)
    requires Carries(embedded, dir, tree) && FromHere(s, dir) && TempOk(s, tree) && Safe(s, tree)
    requires Run(embedded, dir, s, steps).Some?
    ensures Safe(Run(embedded, dir, s, steps).value, tree)
    decreases |steps|
  {
    if steps != [] {
      DevIsDev();
      StepKeepsTemp(embedded, dir, tree, s, steps[0]);
      StepKeepsSafe(embedded, dir, tree, s, steps[0]);
      RunKeepsSafe(embedded, dir, tree, Next(embedded, dir, s, steps[0]).value, steps[1..]);
    }
  }

  /** The marker means the whole embedded tree and nothing else, and so does a successful return. */
  ghost predicate Whole(s: State, tree: Files) {
    && (HasMarker(s) ==> Complete(s.destination.value, tree))
    && (s.process.Some? && s.process.value.Returned? ==> s.destination.Some? && Complete(s.destination.value, tree))
  }

  /** In every state a release directory can reach, the marker means the whole tree, as long as no check of it fails. */
  lemma ReleaseCacheIsWhole(embedded: string -> Files, dir: string, tree: Files, steps: seq<Step>)
    requires dir != "dev" && Carries(embedded, dir, tree)
    requires Run(embedded, dir, EMPTY, steps).Some? && Guarded(embedded, dir, EMPTY, steps)
    ensures Whole(Run(embedded, dir, EMPTY, steps).value, tree)
  {
    RunKeepsSafe(embedded, dir, tree, EMPTY, steps);
  }

  /** The directory is whole after every run; `guarded` leaves out those in which a check of the marker fails. */
  ghost predicate AlwaysWhole(dir: string, guarded: bool) {
    forall embedded: string -> Files, tree, steps |
      Carries(embedded, dir, tree) && Run(embedded, dir, EMPTY, steps).Some?
      && (guarded ==> Guarded(embedded, dir, EMPTY, steps)) ::
      Whole(Run(embedded, dir, EMPTY, steps).value, tree)
  }

  lemma {:induction false} RunKeepsTemp(embedded: string -> Files, dir: string, tree: Files, s: State, steps: seq<Step>)
    requires Carries(embedded, dir, tree) && FromHere(s, dir) && TempOk(s, tree)
    requires Run(embedded, dir, s, steps).Some?
    ensures FromHere(Run(embedded, dir, s, steps).value, dir) && TempOk(Run(embedded, dir, s, steps).value, tree)
    decreases |steps|
  {
    if steps != [] {
      StepKeepsTemp(embedded, dir, tree, s, steps[0]);
      RunKeepsTemp(embedded, dir, tree, Next(embedded, dir, s, steps[0]).value, steps[1..]);
    }
  }

  /** Any run that publishes, development builds included, publishes the whole tree. */
  lemma PublishedIsWhole(embedded: string -> Files, dir: string, tree: Files, steps: seq<Step>)
    requires Carries(embedded, dir, tree) && Run(embedded, dir, EMPTY, steps).Some?
    requires Next(embedded, dir, Run(embedded, dir, EMPTY, steps).value, Publish).Some?
    ensures var s := Next(embedded, dir, Run(embedded, dir, EMPTY, steps).value, Publish).value;
            s.destination.Some? && Complete(s.destination.value, tree)
  {
    RunKeepsTemp(embedded, dir, tree, EMPTY, steps);
  }

  /** Only a process whose own copy is complete and marked touches the destination. */
  lemma AbortedCopyLeavesDestination(embedded: string -> Files, dir: string, tree: Files, s: State, step: Step)
    requires Carries(embedded, dir, tree) && FromHere(s, dir) && TempOk(s, tree)
    requires Next(embedded, dir, s, step).Some?
    requires Next(embedded, dir, s, step).value.destination != s.destination
    ensures s.process.Some? && (s.process.value.Removing? || s.process.value.Renaming?)
    ensures s.process.value.temp in s.temps && Complete(s.temps[s.process.value.temp], tree)
  {
  }

  lemma {:induction false} RunConcat(embedded: string -> Files, dir: string, s: State, a: seq<Step>, b: seq<Step>)
    ensures Run(embedded, dir, s, a + b)
         == if Run(embedded, dir, s, a).None? then None else Run(embedded, dir, Run(embedded, dir, s, a).value, b)
    decreases |a|
  {
    if a == [] {
      assert a + b == b;
    } else {
      assert (a + b)[0] == a[0] && (a + b)[1..] == a[1..] + b;
      if Next(embedded, dir, s, a[0]).Some? {
        RunConcat(embedded, dir, Next(embedded, dir, s, a[0]).value, a[1..], b);
      }
    }
  }

  const FILE := "infra/main.tf"
  const TREE: Files := map[FILE := "terraform"]

  function OneTree(version: string): Files {
    TREE
  }

  /** A process up to the point where its copy is complete and marked. */
  function Refresh(version: string, check: Step, temp: nat): seq<Step> {
    [Begin(version), check, MakeTemp(temp), Copied(FILE), AllCopied, Marked]
  }

  /** A run told state by state. */
  lemma {:induction false} TraceRuns(dir: string, states: seq<State>, steps: seq<Step>)
    requires |states| == |steps| + 1
    requires forall i :: 0 <= i < |steps| ==> Next(OneTree, dir, states[i], steps[i]) == Some(states[i + 1])
    ensures Run(OneTree, dir, states[0], steps) == Some(states[|steps|])
    decreases |steps|
  {
    if steps != [] {
      assert Next(OneTree, dir, states[0], steps[0]) == Some(states[1]);
      TraceRuns(dir, states[1..], steps[1..]);
    }
  }

  function MarkedTree(version: string): Files {
    TREE[MARKER := version + "\n"]
  }

  lemma RefreshSteps(dir: string, d: Option<Files>, temps: map<nat, Files>, version: string, temp: nat)
    requires temp !in temps
    ensures Next(OneTree, dir, State(d, temps, Some(Preparing(version))), MakeTemp(temp))
         == Some(State(d, temps[temp := map[]], Some(Copying(version, temp, {FILE}))))
    ensures Next(OneTree, dir, State(d, temps[temp := map[]], Some(Copying(version, temp, {FILE}))), Copied(FILE))
         == Some(State(d, temps[temp := TREE], Some(Copying(version, temp, {}))))
    ensures Next(OneTree, dir, State(d, temps[temp := TREE], Some(Marking(version, temp))), Marked)
         == Some(State(d, temps[temp := MarkedTree(version)], Some(Removing(version, temp))))
  {
    assert TREE.Keys == {FILE};
    assert {FILE} - {FILE} == {};
    assert temps[temp := map[]][temp := TREE] == temps[temp := TREE];
    assert temps[temp := TREE][temp := MarkedTree(version)] == temps[temp := MarkedTree(version)];
  }

  lemma RefreshReaches(dir: string, d: Option<Files>, temps: map<nat, Files>, version: string, check: Step, temp: nat)
    requires temp !in temps && DirName(version) == dir
    requires check == StatError || (check == Stat && (version == "dev" || d.None? || MARKER !in d.value))
    ensures Run(OneTree, dir, State(d, temps, None), Refresh(version, check, temp))
         == Some(State(d, temps[temp := MarkedTree(version)], Some(Removing(version, temp))))
  {
    var states := [
      State(d, temps, None),
      State(d, temps, Some(Starting(version))),
      State(d, temps, Some(Preparing(version))),
      State(d, temps[temp := map[]], Some(Copying(version, temp, {FILE}))),
      State(d, temps[temp := TREE], Some(Copying(version, temp, {}))),
      State(d, temps[temp := TREE], Some(Marking(version, temp))),
      State(d, temps[temp := MarkedTree(version)], Some(Removing(version, temp)))];
    RefreshSteps(dir, d, temps, version, temp);
    assert Next(OneTree, dir, states[1], check) == Some(states[2]);
    TraceRuns(dir, states, Refresh(version, check, temp));
  }

  lemma PublishReaches(dir: string, version: string)
    ensures Run(OneTree, dir, State(None, map[0 := MarkedTree(version)], Some(Removing(version, 0))),
                [Deleted, Publish, Exit])
         == Some(State(Some(MarkedTree(version)), map[], None))
  {
    var temps: map<nat, Files> := map[0 := MarkedTree(version)];
    assert temps - {0} == map[];
    TraceRuns(dir, [State(None, temps, Some(Removing(version, 0))), State(None, temps, Some(Renaming(version, 0))),
                    State(Some(MarkedTree(version)), map[], Some(Returned(version))),
                    State(Some(MarkedTree(version)), map[], None)], [Deleted, Publish, Exit]);
  }

  lemma KillReaches(dir: string, version: string, temps: map<nat, Files>)
    ensures Run(OneTree, dir, State(Some(MarkedTree(version)), temps, Some(Removing(version, 1))),
                [Delete(FILE), Crash])
         == Some(State(Some(map[MARKER := version + "\n"]), temps, None))
  {
    var left: Files := map[MARKER := version + "\n"];
    assert MarkedTree(version) - {FILE} == left;
    TraceRuns(dir, [State(Some(MarkedTree(version)), temps, Some(Removing(version, 1))),
                    State(Some(left), temps, Some(Removing(version, 1))), State(Some(left), temps, None)],
              [Delete(FILE), Crash]);
  }

  /** A first complete run, and a second one killed after its RemoveAll has deleted one file. */
  function KilledRefresh(version: string, check: Step): seq<Step> {
    Refresh(version, Stat, 0) + ([Deleted, Publish, Exit] + (Refresh(version, check, 1) + [Delete(FILE), Crash]))
  }

  lemma KilledRefreshLeavesMarker(dir: string, version: string, check: Step) returns (s: State)
    requires DirName(version) == dir
    requires check == StatError || (check == Stat && version == "dev")
    ensures Run(OneTree, dir, EMPTY, KilledRefresh(version, check)) == Some(s)
    ensures s.process.None? && s.destination == Some(map[MARKER := version + "\n"])
  {
    var first, publish := Refresh(version, Stat, 0), [Deleted, Publish, Exit];
    var second, kill := Refresh(version, check, 1), [Delete(FILE), Crash];
    var temps: map<nat, Files> := map[1 := MarkedTree(version)];
    RefreshReaches(dir, None, map[], version, Stat, 0);
    RunConcat(OneTree, dir, EMPTY, first, publish + (second + kill));
    PublishReaches(dir, version);
    RunConcat(OneTree, dir, State(None, map[0 := MarkedTree(version)], Some(Removing(version, 0))),
              publish, second + kill);
    RefreshReaches(dir, Some(MarkedTree(version)), map[], version, check, 1);
    RunConcat(OneTree, dir, State(Some(MarkedTree(version)), map[], None), second, kill);
    KillReaches(dir, version, temps);
    s := State(Some(map[MARKER := version + "\n"]), temps, None);
  }

  /**
   * The directory of development builds is outside the guarantee: a version other than "dev" that shares it, as the
   * blank version does (DevIsDev), trusts the marker a killed refresh left, and returns a tree that lacks a file.
   */
  lemma SharedDevDirectoryIsPartial(dev: string, other: string)
    requires dev == "dev" && other != dev && DirName(other) == DirName(dev)
    ensures var s := Run(OneTree, DirName(dev), EMPTY, KilledRefresh(dev, Stat) + [Begin(other), Stat]);
            && s.Some? && s.value.process == Some(Returned(other))
            && s.value.destination == Some(map[MARKER := dev + "\n"]) && !Complete(s.value.destination.value, TREE)
  {
    var dir := DirName(dev);
    var s := KilledRefreshLeavesMarker(dir, dev, Stat);
    RunConcat(OneTree, dir, EMPTY, KilledRefresh(dev, Stat), [Begin(other), Stat]);
    TraceRuns(dir, [s, s.(process := Some(Starting(other))), s.(process := Some(Returned(other)))],
              [Begin(other), Stat]);
    assert FILE !in s.destination.value - {MARKER} && FILE in TREE;
  }

  /** Any failure of the marker check counts as "no marker": a release refreshed over its own cache can lose it. */
  lemma FailedStatBreaksRelease(version: string)
    ensures var s := Run(OneTree, DirName(version), EMPTY, KilledRefresh(version, StatError));
            s.Some? && HasMarker(s.value) && !Whole(s.value, TREE)
  {
    var s := KilledRefreshLeavesMarker(DirName(version), version, StatError);
    assert FILE !in s.destination.value - {MARKER} && FILE in TREE;
  }

  lemma {:induction false} WithoutErrorsIsGuarded(dir: string, s: State, steps: seq<Step>)
    requires StatError !in steps
    ensures Guarded(OneTree, dir, s, steps)
    decreases |steps|
  {
    if steps != [] && Next(OneTree, dir, s, steps[0]).Some? {
      assert steps[0] in steps && StatError !in steps[1..];
      WithoutErrorsIsGuarded(dir, Next(OneTree, dir, s, steps[0]).value, steps[1..]);
    }
  }

  /**
   * A refresh of a development build, killed halfway: no check has failed, and the marker stands over a partial tree.
   */
  lemma KilledDevRefreshBreaks(dir: string, dev: string)
    requires dev == "dev" && DirName(dev) == dir
    ensures !AlwaysWhole(dir, true)
  {
    var steps := KilledRefresh(dev, Stat);
    var s := KilledRefreshLeavesMarker(dir, dev, Stat);
    WithoutErrorsIsGuarded(dir, EMPTY, steps);
    assert FILE !in s.destination.value - {MARKER} && FILE in TREE;
    assert Carries(OneTree, dir, TREE) && !Whole(Run(OneTree, dir, EMPTY, steps).value, TREE);
  }

  /**
   * Which directories are whole after every run in which no check of the marker fails: all but the one development
   * builds use.
   */
  lemma AlwaysWholeIff(dir: string)
    ensures AlwaysWhole(dir, true) <==> dir != "dev"
  {
    if dir == "dev" {
      DevIsDev();
      KilledDevRefreshBreaks(dir, dir);
    } else {
      forall embedded: string -> Files, tree, steps |
        Carries(embedded, dir, tree) && Run(embedded, dir, EMPTY, steps).Some? && Guarded(embedded, dir, EMPTY, steps)
        ensures Whole(Run(embedded, dir, EMPTY, steps).value, tree)
      {
        ReleaseCacheIsWhole(embedded, dir, tree, steps);
      }
    }
  }

  lemma {:induction false} UnusedStaysEmpty(embedded: string -> Files, dir: string, s: State, steps: seq<Step>)
    requires forall version :: DirName(version) != dir
    requires s.process.None? && s.destination.None? && Run(embedded, dir, s, steps).Some?
    ensures Run(embedded, dir, s, steps).value.process.None? && Run(embedded, dir, s, steps).value.destination.None?
    decreases |steps|
  {
    if steps != [] {
      UnusedStaysEmpty(embedded, dir, Next(embedded, dir, s, steps[0]).value, steps[1..]);
    }
  }

  /** With failing checks allowed no directory that any version uses is whole after every run. */
  lemma NeverWholeWithFailedChecks(dir: string)
    ensures AlwaysWhole(dir, false) <==> forall version :: DirName(version) != dir
  {
    if version :| DirName(version) == dir {
      FailedStatBreaksRelease(version);
      assert Carries(OneTree, dir, TREE);
    } else {
      forall embedded: string -> Files, tree, steps |
        Carries(embedded, dir, tree) && Run(embedded, dir, EMPTY, steps).Some?
        ensures Whole(Run(embedded, dir, EMPTY, steps).value, tree)
      {
        UnusedStaysEmpty(embedded, dir, EMPTY, steps);
      }
    }
  }

  /** A version that is not blank and holds no slash. */
  predicate IsPlain(version: string) {
    TrimSpace(version) != "" && '/' !in version
  }

  lemma PlainIsItsDirectory(version: string)
    requires IsPlain(version)
    ensures DirName(version) == version
  {
    assert TrimSpace("") == "";
    SplitWhole(version, '/');
  }

  /** Different versions never share a directory; the blank one shares that of "dev". */
  lemma PlainVersionsAreApart(a: string, b: string)
    requires IsPlain(a) && IsPlain(b)
    ensures DirName(a) == DirName(b) <==> a == b
    ensures DirName("") == "dev"
  {
    PlainIsItsDirectory(a);
    PlainIsItsDirectory(b);
    DevIsDev();
  }

  /** Every process of the run extracts a plain version. */
  ghost predicate PlainSteps(steps: seq<Step>) {
    forall step :: step in steps && step.Begin? ==> IsPlain(step.version)
  }

  /** The version the process at work has still to read the tree of. */
  function Reading(s: State): Option<string> {
    match s.process
    case Some(Starting(v)) => Some(v)
    case Some(Preparing(v)) => Some(v)
    case Some(Copying(v, _, _)) => Some(v)
    case _ => None
  }

  ghost predicate ReadsPlain(s: State) {
    Reading(s).Some? ==> IsPlain(Reading(s).value)
  }

  lemma StepReadsItsOwn(a: string -> Files, b: string -> Files, dir: string, s: State, step: Step)
    requires step.Begin? ==> IsPlain(step.version)
    requires Reading(s).Some? ==> a(Reading(s).value) == b(Reading(s).value)
    ensures Next(a, dir, s, step) == Next(b, dir, s, step)
  {
  }

  lemma StepReadsPlain(a: string -> Files, dir: string, s: State, step: Step)
    requires ReadsPlain(s) && (step.Begin? ==> IsPlain(step.version)) && Next(a, dir, s, step).Some?
    ensures ReadsPlain(Next(a, dir, s, step).value)
  {
  }

  lemma PlainStepsTail(steps: seq<Step>)
    requires PlainSteps(steps) && steps != []
    ensures (steps[0].Begin? ==> IsPlain(steps[0].version)) && PlainSteps(steps[1..])
  {
    assert steps[0] in steps && forall step :: step in steps[1..] ==> step in steps;
  }

  /** A run asks for the trees of the versions it extracts only. */
  lemma {:induction false} RunReadsItsOwn(a: string -> Files, b: string -> Files, dir: string, s: State,
                                          steps: seq<Step>)
    requires PlainSteps(steps) && forall v :: IsPlain(v) ==> a(v) == b(v)
    requires ReadsPlain(s)
    ensures Run(a, dir, s, steps) == Run(b, dir, s, steps)
    ensures Guarded(a, dir, s, steps) == Guarded(b, dir, s, steps)
    decreases |steps|
  {
    if steps != [] {
      PlainStepsTail(steps);
      StepReadsItsOwn(a, b, dir, s, steps[0]);
      var next := Next(a, dir, s, steps[0]);
      if next.Some? {
        StepReadsPlain(a, dir, s, steps[0]);
        RunReadsItsOwn(a, b, dir, next.value, steps[1..]);
      }
    }
  }

  /** The version a process returns for is the one whose directory it is. */
  ghost predicate AtHome(s: State, dir: string) {
    match s.process
    case Some(Starting(v)) => v == dir
    case Some(Preparing(v)) => v == dir
    case Some(Copying(v, _, _)) => v == dir
    case Some(Marking(v, _)) => v == dir
    case Some(Removing(v, _)) => v == dir
    case Some(Renaming(v, _)) => v == dir
    case Some(Returned(v)) => v == dir
    case _ => true
  }

  lemma StepStaysHome(embedded: string -> Files, dir: string, s: State, step: Step)
    requires AtHome(s, dir) && (step.Begin? ==> IsPlain(step.version)) && Next(embedded, dir, s, step).Some?
    ensures AtHome(Next(embedded, dir, s, step).value, dir)
  {
    if step.Begin? {
      PlainIsItsDirectory(step.version);
    }
  }

  lemma {:induction false} RunStaysHome(embedded: string -> Files, dir: string, s: State, steps: seq<Step>)
    requires PlainSteps(steps) && AtHome(s, dir) && Run(embedded, dir, s, steps).Some?
    ensures AtHome(Run(embedded, dir, s, steps).value, dir)
    decreases |steps|
  {
    if steps != [] {
      PlainStepsTail(steps);
      StepStaysHome(embedded, dir, s, steps[0]);
      RunStaysHome(embedded, dir, Next(embedded, dir, s, steps[0]).value, steps[1..]);
    }
  }

  /**
   * The cache of plain versions, whatever trees they carry: in every state the directory of one can reach, the marker
   * means the tree of that version and nothing else, and a process that returns returns for that version and with that
   * tree. The trees of different versions are never mixed up.
   */
  lemma VersionsAreKeptApart(embedded: string -> Files, version: string, steps: seq<Step>)
    requires IsPlain(version) && version != "dev" && PlainSteps(steps) && ".complete" !in embedded(version)
    requires Run(embedded, DirName(version), EMPTY, steps).Some?
    requires Guarded(embedded, DirName(version), EMPTY, steps)
    ensures var s := Run(embedded, DirName(version), EMPTY, steps).value;
            && (s.destination.Some? && ".complete" in s.destination.value ==>
                  s.destination.value - {".complete"} == embedded(version))
            && (s.process.Some? && s.process.value.Returned? ==>
                  && s.process.value.version == version && s.destination.Some?
                  && ".complete" in s.destination.value && s.destination.value - {".complete"} == embedded(version))
  {
    PlainIsItsDirectory(version);
    var same := (v: string) => if IsPlain(v) then embedded(v) else embedded(version);
    forall v | DirName(v) == version ensures same(v) == embedded(version) {
      if IsPlain(v) { PlainIsItsDirectory(v); }
    }
    RunReadsItsOwn(embedded, same, version, EMPTY, steps);
    ReleaseCacheIsWhole(same, version, embedded(version), steps);
    RunStaysHome(embedded, version, EMPTY, steps);
  }
}
