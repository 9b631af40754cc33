/** `DeployStack` (internal/deploy/stack.go): checksum-skipping writes, then systemd, hooks, health, the marker. */
module Deploy {
  import opened Text

  type Files = map<string, string>

  const QUADLET_DIR := "/etc/containers/systemd/"
  const FRAGMENT_DIR := "/var/lib/mksrv/caddy.d/"

  function StateDir(stack: string): string {
    "/var/lib/mksrv/stacks/" + stack
  }

  function Marker(stack: string): string {
    StateDir(stack) + "/.deployed"
  }

  function MarkerText(stack: string): string {
    "deployed " + stack + "\n"
  }

  predicate IsQuadlet(path: string) {
    QUADLET_DIR <= path
  }

  predicate IsFragment(path: string) {
    FRAGMENT_DIR <= path
  }

  lemma FragmentIsNoQuadlet(path: string)
    ensures IsFragment(path) ==> !IsQuadlet(path)
  {
    assert IsFragment(path) ==> path[1] == 'v';
  }

  /** A rendered file that goes to the edge: there is an edge client, and the path is a Caddy fragment. */
  predicate GoesToEdge(edge: bool, path: string) {
    edge && IsFragment(path)
  }

  predicate Blank(content: string) {
    forall i :: 0 <= i < |content| ==> IsSpace(content[i])
  }

  function NonBlank(files: Files): Files {
    map p | p in files && !Blank(files[p]) :: files[p]
  }

  method DropEmpty(rendered: Files) returns (files: Files)
    ensures files == NonBlank(rendered)
  {
    files := rendered;
    var todo := rendered.Keys;
    while todo != {}
      invariant todo <= rendered.Keys
      invariant files == map p | p in rendered && (p in todo || !Blank(rendered[p])) :: rendered[p]
    {
      var dst :| dst in todo;
      todo := todo - {dst};
      if Blank(files[dst]) {
        files := files - {dst};
      }
    }
  }

  predicate HasSuffix(s: string, suffix: string) {
    |s| >= |suffix| && s[|s| - |suffix|..] == suffix
  }

  predicate IsUnit(path: string) {
    HasSuffix(Base(path), ".container")
  }

  function UnitName(path: string): string
    requires IsUnit(path)
  {
    var base := Base(path);
    base[..|base| - |".container"|] + ".service"
  }

  ghost predicate AllSlashes(s: string) {
    forall i :: 0 <= i < |s| ==> s[i] == '/'
  }

  /** A path to a container file of this name, which the source reads as the unit `<name>.service`. */
  ghost predicate SpellsUnit(path: string, dir: string, name: string, tail: string) {
    && path == dir + (name + ".container") + tail && '/' !in name
    && (dir == "" || dir[|dir| - 1] == '/') && AllSlashes(tail)
  }

  /** The units of the container files among `files`, sorted. */
  ghost predicate ListsUnits(files: Files, units: seq<string>) {
    && IsSorted(units)
    && forall u :: u in units <==>
         exists p, dir, name, tail :: p in files && SpellsUnit(p, dir, name, tail) && u == name + ".service"
  }

  lemma {:induction false} SplitTwice(s: string)
    requires '/' in s
    ensures |Split(s, '/')| > 1
  {
    if s[0] != '/' {
      assert '/' in s[1..];
      SplitTwice(s[1..]);
    }
  }

  /** The last part of a split is what follows the last separator. */
  lemma {:induction false} LastPart(dir: string, base: string)
    requires '/' !in base && (dir == "" || dir[|dir| - 1] == '/')
    ensures var parts := Split(dir + base, '/');
            parts[|parts| - 1] == base
    decreases |dir|
  {
    if dir == "" {
      assert dir + base == base;
      SplitWhole(base, '/');
    } else {
      var s := dir + base;
      assert s[1..] == dir[1..] + base;
      LastPart(dir[1..], base);
      if s[0] != '/' {
        assert dir[1..][|dir| - 2] == '/';
        assert s[1..][|dir| - 2] == '/';
        SplitTwice(s[1..]);
      }
    }
  }

  lemma {:induction false} BaseIs(dir: string, base: string, tail: string)
    requires base != "" && '/' !in base && (dir == "" || dir[|dir| - 1] == '/') && AllSlashes(tail)
    ensures Base(dir + base + tail) == base
    decreases |tail|
  {
    var path := dir + base + tail;
    assert path[|dir|] == base[0] != '/';
    if tail == "" {
      assert path == dir + base && path[|path| - 1] == base[|base| - 1];
      LastPart(dir, base);
    } else {
      assert path[..|path| - 1] == dir + base + tail[..|tail| - 1] && path[|path| - 1] == tail[|tail| - 1];
      BaseIs(dir, base, tail[..|tail| - 1]);
    }
  }

  lemma {:induction false} LastSlash(s: string) returns (dir: string, base: string)
    ensures s == dir + base && '/' !in base && (dir == "" || dir[|dir| - 1] == '/')
    decreases |s|
  {
    if s == "" || s[|s| - 1] == '/' {
      dir, base := s, "";
    } else {
      var n := |s| - 1;
      dir, base := LastSlash(s[..n]);
      base := base + [s[n]];
      assert s == s[..n] + [s[n]];
    }
  }

  /** Where Base finds a name that is neither "." nor a slash. */
  lemma {:induction false} BaseShows(path: string) returns (dir: string, tail: string)
    requires Base(path) != "." && Base(path) != "/"
    ensures path == dir + Base(path) + tail && '/' !in Base(path)
    ensures (dir == "" || dir[|dir| - 1] == '/') && AllSlashes(tail)
    decreases |path|
  {
    if path[|path| - 1] == '/' {
      dir, tail := BaseShows(path[..|path| - 1]);
      tail := tail + "/";
      assert path == dir + Base(path) + tail;
    } else {
      var base;
      dir, base := LastSlash(path);
      LastPart(dir, base);
      tail := "";
      assert dir + base + tail == dir + base;
    }
  }

  /** A path is a unit's exactly when it can be spelled as one, and then its name is the one spelled. */
  lemma SpelledUnit(path: string, dir: string, name: string, tail: string)
    requires SpellsUnit(path, dir, name, tail)
    ensures IsUnit(path) && UnitName(path) == name + ".service"
  {
    var base := name + ".container";
    assert forall i :: 0 <= i < |".container"| ==> ".container"[i] != '/';
    BaseIs(dir, base, tail);
    assert base[|base| - |".container"|..] == ".container" && base[..|base| - |".container"|] == name;
  }

  lemma UnitIsSpelled(path: string) returns (dir: string, name: string, tail: string)
    requires IsUnit(path)
    ensures SpellsUnit(path, dir, name, tail) && UnitName(path) == name + ".service"
  {
    var base := Base(path);
    dir, tail := BaseShows(path);
    name := base[..|base| - |".container"|];
    assert base == name + ".container";
  }

  lemma UnitIff(path: string, u: string)
    ensures IsUnit(path) && UnitName(path) == u
       <==> exists dir, name, tail :: SpellsUnit(path, dir, name, tail) && u == name + ".service"
  {
    if IsUnit(path) && UnitName(path) == u {
      var dir, name, tail := UnitIsSpelled(path);
    }
    if dir, name, tail :| SpellsUnit(path, dir, name, tail) && u == name + ".service" {
      SpelledUnit(path, dir, name, tail);
    }
  }

  lemma UnitsAreSpelled(files: Files, units: seq<string>)
    requires IsSorted(units)
    requires forall u :: u in units <==> exists p :: p in files && IsUnit(p) && UnitName(p) == u
    ensures ListsUnits(files, units)
  {
    forall u ensures u in units <==>
      exists p, dir, name, tail :: p in files && SpellsUnit(p, dir, name, tail) && u == name + ".service"
    {
      if u in units {
        var p :| p in files && IsUnit(p) && UnitName(p) == u;
        UnitIff(p, u);
      }
      if p, dir, name, tail :| p in files && SpellsUnit(p, dir, name, tail) && u == name + ".service" {
        UnitIff(p, u);
      }
    }
  }

  /** The names, sorted, of the units the `.container` files among `files` stand for. */
  method QuadletUnits(files: Files) returns (units: seq<string>)
    ensures ListsUnits(files, units)
  {
    units := [];
    var todo := files.Keys;
    while todo != {}
      invariant todo <= files.Keys
      invariant forall u :: u in units <==> exists p :: p in files && p !in todo && IsUnit(p) && UnitName(p) == u
    {
      var dst :| dst in todo;
      todo := todo - {dst};
      if IsUnit(dst) {
        units := units + [UnitName(dst)];
      }
    }
    SortedIsSorted(units);
    SameMembers(units, Sorted(units));
    units := Sorted(units);
    UnitsAreSpelled(files, units);
  }

  /** A hook that runs in this deploy: its script's base name and body. */
  datatype Hook = Hook(run: string, body: string)

  function HookPath(stack: string, hook: Hook): string {
    StateDir(stack) + "/" + Base(hook.run)
  }

  function HookPaths(stack: string, hooks: seq<Hook>): (r: seq<string>)
    ensures |r| == |hooks| && forall i :: 0 <= i < |r| ==> r[i] == HookPath(stack, hooks[i])
  {
    seq(|hooks|, i requires 0 <= i < |hooks| => HookPath(stack, hooks[i]))
  }

  function HookRuns(hooks: seq<Hook>): (r: seq<string>)
    ensures |r| == |hooks| && forall i :: 0 <= i < |r| ==> r[i] == hooks[i].run
  {
    seq(|hooks|, i requires 0 <= i < |hooks| => hooks[i].run)
  }

  /** A health check: its type decides what is run, and an unknown type is an error. */
  datatype Check = Check(app: string, kind: string)

  predicate IsKnown(check: Check) {
    check.kind == "http" || check.kind == "tcp" || check.kind == "command"
  }

  predicate AllKnown(checks: seq<Check>) {
    forall i :: 0 <= i < |checks| ==> checks[i].kind in {"http", "tcp", "command"}
  }

  function CheckApps(checks: seq<Check>): (r: seq<string>)
    ensures |r| == |checks| && forall i :: 0 <= i < |r| ==> r[i] == checks[i].app
  {
    seq(|checks|, i requires 0 <= i < |checks| => checks[i].app)
  }

  /** The checks that ask the host something: all but those of type `command`. */
  function Probes(checks: seq<Check>): seq<Check> {
    if checks == [] then []
    else
      var last := checks[|checks| - 1];
      Probes(checks[..|checks| - 1]) + if last.kind == "command" then [] else [last]
  }

  lemma ProbesStep(checks: seq<Check>, i: nat)
    requires i < |checks|
    ensures Probes(checks[..i + 1])
         == Probes(checks[..i]) + if checks[i].kind == "command" then [] else [checks[i]]
  {
    assert checks[..i + 1][..i] == checks[..i];
  }

  /** The hook scripts written to the host; the last one of a path stays. */
  function HookFiles(stack: string, hooks: seq<Hook>): Files {
    if hooks == [] then map[]
    else HookFiles(stack, hooks[..|hooks| - 1])[HookPath(stack, hooks[|hooks| - 1]) := hooks[|hooks| - 1].body]
  }

  /** What a successful deploy leaves on the stack's own host. */
  function DeployedFiles(before: Files, stack: string, rendered: Files, edge: bool, hooks: seq<Hook>): Files {
    before + Share(NonBlank(rendered), edge, false) + HookFiles(stack, hooks)
    + map[Marker(stack) := MarkerText(stack)]
  }

  /** The script of hook i is the last of its path. */
  ghost predicate IsLastHook(stack: string, hooks: seq<Hook>, i: nat)
    requires i < |hooks|
  {
    forall j :: i < j < |hooks| ==> HookPath(stack, hooks[j]) != HookPath(stack, hooks[i])
  }

  lemma {:induction false} HookFileAt(stack: string, hooks: seq<Hook>, i: nat)
    requires i < |hooks| && IsLastHook(stack, hooks, i)
    ensures var p := HookPath(stack, hooks[i]);
            p in HookFiles(stack, hooks) && HookFiles(stack, hooks)[p] == hooks[i].body
    decreases |hooks|
  {
    var n := |hooks| - 1;
    if i < n {
      assert forall j :: i < j < n ==> hooks[..n][j] == hooks[j];
      HookFileAt(stack, hooks[..n], i);
    }
  }

  lemma {:induction false} OnlyHookFiles(stack: string, hooks: seq<Hook>, p: string)
    requires p in HookFiles(stack, hooks)
    ensures exists i :: 0 <= i < |hooks| && p == "/var/lib/mksrv/stacks/" + stack + "/" + Base(hooks[i].run)
    decreases |hooks|
  {
    var n := |hooks| - 1;
    if p == HookPath(stack, hooks[n]) {
      assert p == "/var/lib/mksrv/stacks/" + stack + "/" + Base(hooks[n].run);
    } else {
      OnlyHookFiles(stack, hooks[..n], p);
      var i :| 0 <= i < n && p == "/var/lib/mksrv/stacks/" + stack + "/" + Base(hooks[..n][i].run);
      assert hooks[..n][i] == hooks[i];
    }
  }

  /** Some character of the content is not white space. */
  ghost predicate HasText(content: string) {
    exists i :: 0 <= i < |content| && !IsSpace(content[i])
  }

  /** A script of a hook, or the marker, of the stack. */
  ghost predicate IsLate(p: string, stack: string, hooks: seq<Hook>) {
    || p == "/var/lib/mksrv/stacks/" + stack + "/.deployed"
    || exists i :: 0 <= i < |hooks| && p == "/var/lib/mksrv/stacks/" + stack + "/" + Base(hooks[i].run)
  }

  /**
   * The two hosts after a deploy, path by path: the marker, the hook scripts, and every rendered file with text in it,
   * on the edge when there is one and it is a Caddy fragment, and on the stack's host otherwise.
   */
  ghost predicate LaidOut(here: Files, there: Files, stack: string, rendered: Files, hasEdge: bool, hooks: seq<Hook>) {
    && "/var/lib/mksrv/stacks/" + stack + "/.deployed" in here
    && here["/var/lib/mksrv/stacks/" + stack + "/.deployed"] == "deployed " + stack + "\n"
    && (forall i :: 0 <= i < |hooks| && IsLastHook(stack, hooks, i) && Base(hooks[i].run) != ".deployed" ==>
          var p := "/var/lib/mksrv/stacks/" + stack + "/" + Base(hooks[i].run);
          p in here && here[p] == hooks[i].body)
    && (forall p :: p in rendered && HasText(rendered[p]) ==>
          if hasEdge && "/var/lib/mksrv/caddy.d/" <= p then p in there && there[p] == rendered[p]
          else IsLate(p, stack, hooks) || (p in here && here[p] == rendered[p]))
  }

  lemma DeployedIsLaidOut(before: Files, there: Files, stack: string, rendered: Files, hasEdge: bool, hooks: seq<Hook>)
    ensures LaidOut(DeployedFiles(before, stack, rendered, hasEdge, hooks),
                    there + Share(NonBlank(rendered), hasEdge, true), stack, rendered, hasEdge, hooks)
  {
    var here := DeployedFiles(before, stack, rendered, hasEdge, hooks);
    assert Marker(stack) == "/var/lib/mksrv/stacks/" + stack + "/.deployed";
    forall i | 0 <= i < |hooks| && IsLastHook(stack, hooks, i) && Base(hooks[i].run) != ".deployed"
      ensures var p := "/var/lib/mksrv/stacks/" + stack + "/" + Base(hooks[i].run);
              p in here && here[p] == hooks[i].body
    {
      HookFileAt(stack, hooks, i);
      HookIsNotMarker(stack, Base(hooks[i].run));
    }
    forall p | p in rendered && HasText(rendered[p]) && !(hasEdge && "/var/lib/mksrv/caddy.d/" <= p)
      ensures IsLate(p, stack, hooks) || (p in here && here[p] == rendered[p])
    {
      assert p in NonBlank(rendered) && p in Share(NonBlank(rendered), hasEdge, false);
      if p in HookFiles(stack, hooks) { OnlyHookFiles(stack, hooks, p); }
    }
  }

  lemma HookIsNotMarker(stack: string, base: string)
    requires base != ".deployed"
    ensures StateDir(stack) + "/" + base != Marker(stack)
  {
    var head := StateDir(stack) + "/";
    assert Marker(stack) == head + ".deployed";
    assert (head + base)[|head|..] == base && (head + ".deployed")[|head|..] == ".deployed";
  }

  /** The rendered files of one host. */
  function Share(files: Files, edge: bool, onEdge: bool): Files {
    map p | p in files && GoesToEdge(edge, p) == onEdge :: files[p]
  }

  function Quadlets(files: Files): Files {
    map p | p in files && IsQuadlet(p) :: files[p]
  }

  function Fragments(files: Files): Files {
    map p | p in files && IsFragment(p) :: files[p]
  }

  /** Scripts and the marker go below the stack's state directory, never among the Quadlets. */
  lemma StateIsNoQuadlet(stack: string, rest: string)
    ensures !IsQuadlet(StateDir(stack) + rest)
  {
    assert (StateDir(stack) + rest)[1] == 'v';
  }

  lemma {:induction false} HooksAreNoQuadlets(stack: string, hooks: seq<Hook>)
    ensures forall p :: p in HookFiles(stack, hooks) ==> !IsQuadlet(p)
  {
    if hooks != [] {
      HooksAreNoQuadlets(stack, hooks[..|hooks| - 1]);
      StateIsNoQuadlet(stack, "/" + Base(hooks[|hooks| - 1].run));
      assert HookPath(stack, hooks[|hooks| - 1]) == StateDir(stack) + ("/" + Base(hooks[|hooks| - 1].run));
    }
  }

  lemma LateFilesKeepQuadlets(files: Files, stack: string, hooks: seq<Hook>)
    ensures Quadlets(files + HookFiles(stack, hooks) + map[Marker(stack) := MarkerText(stack)]) == Quadlets(files)
  {
    HooksAreNoQuadlets(stack, hooks);
    StateIsNoQuadlet(stack, "/.deployed");
    var late := files + HookFiles(stack, hooks) + map[Marker(stack) := MarkerText(stack)];
    assert Marker(stack) == StateDir(stack) + "/.deployed";
    assert forall p :: IsQuadlet(p) ==> (p in late <==> p in files) && (p in late ==> late[p] == files[p]);
  }

  /** No hook script and not the marker lands on a rendered file with other content. */
  ghost predicate NoOverlap(stack: string, rendered: Files, edge: bool, hooks: seq<Hook>) {
    var mine := Share(NonBlank(rendered), edge, false);
    var late := HookFiles(stack, hooks) + map[Marker(stack) := MarkerText(stack)];
    forall p :: p in mine && p in late ==> late[p] == mine[p]
  }

  /**
   * Every rendered file survives on the host exactly when no hook script and not the marker overwrites it differently.
   */
  lemma RenderedSurviveIff(before: Files, stack: string, rendered: Files, edge: bool, hooks: seq<Hook>)
    ensures var after := DeployedFiles(before, stack, rendered, edge, hooks);
            var mine := Share(NonBlank(rendered), edge, false);
            (forall p :: p in mine ==> p in after && after[p] == mine[p]) <==> NoOverlap(stack, rendered, edge, hooks)
  {
    var after := DeployedFiles(before, stack, rendered, edge, hooks);
    var mine := Share(NonBlank(rendered), edge, false);
    var late := HookFiles(stack, hooks) + map[Marker(stack) := MarkerText(stack)];
    assert after == before + mine + late;
    assert forall p :: p in mine ==> after[p] == if p in late then late[p] else mine[p];
  }

  /** Deploying the same thing over itself asks for no change. */
  lemma DeployedIsFixed(before: Files, stack: string, rendered: Files, edge: bool, hooks: seq<Hook>)
    requires NoOverlap(stack, rendered, edge, hooks)
    ensures var after := DeployedFiles(before, stack, rendered, edge, hooks);
            && after + Share(NonBlank(rendered), edge, false) == after
            && DeployedFiles(after, stack, rendered, edge, hooks) == after
  {
    RenderedSurviveIff(before, stack, rendered, edge, hooks);
    OverlayTwice(before, Share(NonBlank(rendered), edge, false),
                 HookFiles(stack, hooks), map[Marker(stack) := MarkerText(stack)]);
  }

  lemma OverlayTwice(before: Files, mine: Files, scripts: Files, marker: Files)
    requires forall p :: p in mine && p in scripts + marker ==> (scripts + marker)[p] == mine[p]
    ensures var after := before + mine + scripts + marker;
            after + mine == after && after + mine + scripts + marker == after
  {
    var after := before + mine + scripts + marker;
    assert forall p :: p in mine ==> after[p] == mine[p];
    assert after + mine == after;
  }

  /**
   * A host: its files, the Quadlets systemd has read and the fragments Caddy has; the units restarted, the hook scripts
   * that ended well and the probes that were answered, so far; and how many commands have failed.
   */
  class Host {
    var files: Files
    var loaded: Files
    var served: Files
    var restarted: seq<string>
    var executed: seq<string>
    var probed: seq<Check>
    var caddyReloads: nat
    /** No command of this host ever fails. */
    const reliable: bool
    var failures: nat

    /** Failures add up, and a reliable host has none. */
    twostate predicate Counted()
      reads this
    {
      old(failures) <= failures && (reliable ==> failures == old(failures))
    }

    /** The outcome of one command. */
    method Command() returns (ok: bool)
      modifies this`failures
      ensures Counted() && failures == old(failures) + if ok then 0 else 1
    {
      ok := *;
      if reliable {
        ok := true;
      }
      if !ok {
        failures := failures + 1;
      }
    }

    /** `sha256sum` over the connection; an error counts as "differs". */
    method RemoteMatches(path: string, content: string, digest: string -> string) returns (same: bool, answered: bool)
      modifies this`failures
      ensures same <==> answered && path in files && digest(files[path]) == digest(content)
      ensures Counted() && failures == old(failures) + if answered then 0 else 1
    {
      answered := Command();
      same := answered && path in files && digest(files[path]) == digest(content);
    }

    /** WriteFileSudo; when it fails the rename may or may not have happened. */
    method Write(path: string, content: string) returns (ok: bool)
      modifies this`files, this`failures
      ensures Counted() && failures == old(failures) + if ok then 0 else 1
      ensures ok ==> files == old(files)[path := content]
      ensures !ok ==> files == old(files) || files == old(files)[path := content]
    {
      ok := Command();
      var reached: bool := *;
      if ok || reached {
        files := files[path := content];
      }
    }

    /** One rendered file: skipped when the digests agree, written otherwise. */
    method SendFile(path: string, content: string, digest: string -> string)
      returns (ok: bool, answered: bool, wrote: bool)
      requires forall a, b :: digest(a) == digest(b) ==> a == b
      modifies this`files, this`failures
      ensures ok ==> files == old(files)[path := content]
      ensures !ok ==> files == old(files) || files == old(files)[path := content]
      ensures !wrote ==> ok && files == old(files)
      ensures wrote <==> !(answered && path in old(files) && old(files)[path] == content)
      ensures Counted() && (failures == old(failures) ==> ok && answered)
    {
      var same: bool;
      same, answered := RemoteMatches(path, content, digest);
      if same {
        assert files == files[path := content];
        return true, answered, false;
      }
      ok := Write(path, content);
      wrote := true;
    }

    method DaemonReload() returns (ok: bool)
      modifies this`loaded, this`failures
      ensures Counted() && failures == old(failures) + if ok then 0 else 1
      ensures ok ==> loaded == Quadlets(files)
      ensures !ok ==> loaded == old(loaded) || loaded == Quadlets(files)
    {
      ok := Command();
      var reached: bool := *;
      if ok || reached {
        loaded := Quadlets(files);
      }
    }

    method Restart(unit: string) returns (ok: bool)
      modifies this`restarted, this`failures
      ensures Counted() && failures == old(failures) + if ok then 0 else 1
      ensures ok ==> restarted == old(restarted) + [unit]
      ensures old(restarted) <= restarted
    {
      ok := Command();
      if ok {
        restarted := restarted + [unit];
      }
    }

    /** `systemctl start`, which leaves a unit that runs alone. */
    method Start(unit: string) returns (ok: bool)
      modifies this`failures
      ensures Counted() && failures == old(failures) + if ok then 0 else 1
    {
      ok := Command();
    }

    method StartUnits(units: seq<string>) returns (ok: bool)
      modifies this`failures
      ensures Counted() && (ok <==> failures == old(failures))
    {
      for i := 0 to |units|
        invariant failures == old(failures)
      {
        ok := Start(units[i]);
        if !ok {
          return;
        }
      }
      ok := true;
    }

    /** Restarts when a Quadlet changed, mere starts when none did. */
    method ApplyUnits(units: seq<string>, quadletChanged: bool) returns (ok: bool, restarts: seq<string>)
      modifies this`loaded, this`restarted, this`failures
      ensures Counted() && (ok <==> failures == old(failures))
      ensures !quadletChanged ==> loaded == old(loaded) && restarts == [] && restarted == old(restarted)
      ensures ok && quadletChanged ==> loaded == Quadlets(files) && restarts == units
      ensures ok && quadletChanged ==> restarted == old(restarted) + units
    {
      restarts := [];
      if !quadletChanged {
        ok := StartUnits(units);
        return;
      }
      var reloaded := DaemonReload();
      if !reloaded {
        return false, restarts;
      }
      for i := 0 to |units|
        invariant loaded == Quadlets(files) && restarts == units[..i] && failures == old(failures)
        invariant restarted == old(restarted) + units[..i]
      {
        PrefixStep(units, i);
        var done := Restart(units[i]);
        if !done {
          return false, restarts;
        }
        restarts := restarts + [units[i]];
      }
      assert units[..|units|] == units;
      return true, restarts;
    }

    /** `caddy reload`, or a restart of Caddy. */
    method ReloadCaddy() returns (ok: bool)
      modifies this`served, this`caddyReloads, this`failures
      ensures Counted() && failures == old(failures) + if ok then 0 else 1
      ensures ok ==> served == Fragments(files) && caddyReloads == old(caddyReloads) + 1
      ensures !ok ==> (served == old(served) || served == Fragments(files)) && caddyReloads == old(caddyReloads)
    {
      ok := Command();
      var reached: bool := *;
      if ok || reached {
        served := Fragments(files);
      }
      if ok {
        caddyReloads := caddyReloads + 1;
      }
    }

    /** The reload, when a fragment changed. */
    method ApplyFragments(changed: bool) returns (ok: bool)
      modifies this`served, this`caddyReloads, this`failures
      ensures Counted() && (ok <==> failures == old(failures))
      ensures ok ==> (served == Fragments(files) <==> changed || old(served) == Fragments(files))
      ensures ok ==> caddyReloads == old(caddyReloads) + if changed then 1 else 0
      ensures !changed ==> ok && served == old(served)
    {
      ok := true;
      if changed {
        ok := ReloadCaddy();
      }
    }

    /** `bash <script>`; what the script does to the host is outside the model. */
    method RunScript(path: string) returns (ok: bool)
      modifies this`executed, this`failures
      ensures Counted() && failures == old(failures) + if ok then 0 else 1
      ensures executed == if ok then old(executed) + [path] else old(executed)
    {
      ok := Command();
      if ok {
        executed := executed + [path];
      }
    }

    /** `curl` or a TCP connection, with retries. */
    method Probe(check: Check) returns (ok: bool)
      modifies this`probed, this`failures
      ensures Counted() && failures == old(failures) + if ok then 0 else 1
      ensures probed == if ok then old(probed) + [check] else old(probed)
    {
      ok := Command();
      if ok {
        probed := probed + [check];
      }
    }

    /** One hook: its script is written, then run. */
    method RunHook(stack: string, hook: Hook) returns (ok: bool)
      modifies this`files, this`executed, this`failures
      ensures Counted() && (ok <==> failures == old(failures))
      ensures ok ==> files == old(files)[HookPath(stack, hook) := hook.body]
      ensures files == old(files) || files == old(files)[HookPath(stack, hook) := hook.body]
      ensures executed == if ok then old(executed) + [HookPath(stack, hook)] else old(executed)
    {
      ok := Write(HookPath(stack, hook), hook.body);
      if ok {
        ok := RunScript(HookPath(stack, hook));
      }
    }

    /** The hooks in turn, up to the first that fails; `reached` counts the scripts written. */
    method RunHooks(stack: string, hooks: seq<Hook>) returns (ok: bool, ran: seq<string>, ghost reached: nat)
      modifies this`files, this`executed, this`failures
      ensures Counted() && (ok <==> failures == old(failures))
      ensures ran <= HookRuns(hooks) && executed == old(executed) + HookPaths(stack, hooks)[..|ran|]
      ensures |ran| <= reached <= |hooks| && files == old(files) + HookFiles(stack, hooks[..reached])
      ensures ok ==> ran == HookRuns(hooks) && files == old(files) + HookFiles(stack, hooks)
      ensures ok ==> executed == old(executed) + HookPaths(stack, hooks)
    {
      ran, reached := [], 0;
      assert files + HookFiles(stack, hooks[..0]) == files;
      for i := 0 to |hooks|
        invariant files == old(files) + HookFiles(stack, hooks[..i]) && ran == HookRuns(hooks)[..i]
        invariant executed == old(executed) + HookPaths(stack, hooks)[..i] && failures == old(failures)
      {
        HookStep(old(files), stack, hooks, i);
        ghost var before := files;
        var done := RunHook(stack, hooks[i]);
        if !done {
          return false, ran, if files == before then i else i + 1;
        }
        ran := ran + [hooks[i].run];
      }
      assert hooks[..|hooks|] == hooks && HookPaths(stack, hooks)[..|hooks|] == HookPaths(stack, hooks);
      return true, ran, |hooks|;
    }

    /** One health check; one of the kind "command" is passed over. */
    method RunHealthCheck(check: Check) returns (ok: bool)
      modifies this`probed, this`failures
      ensures Counted() && (ok <==> failures == old(failures) && IsKnown(check))
      ensures ok ==> IsKnown(check) && probed == old(probed) + if check.kind == "command" then [] else [check]
      ensures !ok ==> probed == old(probed)
    {
      ok := IsKnown(check);
      if ok && check.kind != "command" {
        ok := Probe(check);
      }
    }

    /** The health checks in turn, up to the first that fails. */
    method RunHealthChecks(checks: seq<Check>) returns (ok: bool, healthy: seq<string>)
      modifies this`probed, this`failures
      ensures Counted() && (ok <==> failures == old(failures) && AllKnown(checks))
      ensures healthy <= CheckApps(checks) && probed == old(probed) + Probes(checks[..|healthy|])
      ensures forall i :: 0 <= i < |healthy| ==> IsKnown(checks[i])
      ensures ok <==> healthy == CheckApps(checks)
      ensures ok ==> probed == old(probed) + Probes(checks)
    {
      healthy := [];
      ghost var apps := CheckApps(checks);
      for i := 0 to |checks|
        invariant |healthy| == i && healthy == apps[..i] && probed == old(probed) + Probes(checks[..i])
        invariant failures == old(failures) && forall j :: 0 <= j < i ==> IsKnown(checks[j])
      {
        PrefixStep(apps, i);
        ProbesStep(checks, i);
        var passed := RunHealthCheck(checks[i]);
        if !passed {
          return false, healthy;
        }
        healthy := healthy + [checks[i].app];
      }
      assert checks[..|checks|] == checks;
      return true, healthy;
    }
  }

  lemma HookStep(before: Files, stack: string, hooks: seq<Hook>, i: nat)
    requires i < |hooks|
    ensures before + HookFiles(stack, hooks[..i + 1])
         == (before + HookFiles(stack, hooks[..i]))[HookPath(stack, hooks[i]) := hooks[i].body]
    ensures HookPaths(stack, hooks)[..i + 1] == HookPaths(stack, hooks)[..i] + [HookPath(stack, hooks[i])]
    ensures HookRuns(hooks)[..i + 1] == HookRuns(hooks)[..i] + [hooks[i].run]
  {
    PrefixStep(hooks, i);
    PrefixStep(HookPaths(stack, hooks), i);
    PrefixStep(HookRuns(hooks), i);
    assert HookFiles(stack, hooks[..i + 1]) == HookFiles(stack, hooks[..i])[HookPath(stack, hooks[i]) := hooks[i].body];
  }

  lemma {:induction false} HookFilesGrow(stack: string, hooks: seq<Hook>, i: nat)
    requires i <= |hooks|
    ensures HookFiles(stack, hooks[..i]).Keys <= HookFiles(stack, hooks).Keys
    decreases |hooks|
  {
    if i == |hooks| {
      assert hooks[..i] == hooks;
    } else {
      var shorter := hooks[..|hooks| - 1];
      assert shorter[..i] == hooks[..i];
      HookFilesGrow(stack, shorter, i);
    }
  }
}
