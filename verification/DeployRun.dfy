/** The steps of `DeployStack` put together (internal/deploy/stack.go). */
module DeployRun {
  import opened Text
  import opened Deploy

  datatype StackResult = StackResult(changed: seq<string>, untouched: nat, restarted: seq<string>, hooks: seq<string>,
                                     healthOK: seq<string>)

  /** The part of the files that the first i paths name and that goes to one host. */
  ghost function Sent(files: Files, paths: seq<string>, edge: bool, onEdge: bool): Files {
    map p | p in files && p in paths && GoesToEdge(edge, p) == onEdge :: files[p]
  }

  lemma SentStep(before: Files, files: Files, paths: seq<string>, i: nat, edge: bool, onEdge: bool)
    requires i < |paths| && paths[i] in files
    ensures before + Sent(files, paths[..i + 1], edge, onEdge)
         == if GoesToEdge(edge, paths[i]) == onEdge
            then (before + Sent(files, paths[..i], edge, onEdge))[paths[i] := files[paths[i]]]
            else before + Sent(files, paths[..i], edge, onEdge)
  {
    PrefixStep(paths, i);
    var a, b := Sent(files, paths[..i], edge, onEdge), Sent(files, paths[..i + 1], edge, onEdge);
    if GoesToEdge(edge, paths[i]) == onEdge {
      assert b == a[paths[i] := files[paths[i]]];
    } else {
      assert b == a;
    }
  }

  lemma SentAll(files: Files, paths: seq<string>, edge: bool, onEdge: bool)
    requires Members(paths) == files.Keys
    ensures Sent(files, paths, edge, onEdge) == Share(files, edge, onEdge)
    ensures Sent(files, [], edge, onEdge) == map[]
  {
    assert forall p :: p in paths <==> p in Members(paths);
  }

  lemma OtherPathKeepsQuadlets(before: Files, path: string, content: string)
    requires !IsQuadlet(path)
    ensures Quadlets(before[path := content]) == Quadlets(before)
  {
  }

  /** Whether a Quadlet is among the changed files. */
  predicate AnyQuadlet(changed: seq<string>) {
    changed != [] && (AnyQuadlet(changed[..|changed| - 1]) || IsQuadlet(changed[|changed| - 1]))
  }

  lemma {:induction false} AnyQuadletMeans(changed: seq<string>)
    ensures AnyQuadlet(changed) <==> exists p :: p in changed && IsQuadlet(p)
  {
    if changed != [] {
      AnyQuadletMeans(changed[..|changed| - 1]);
      assert changed == changed[..|changed| - 1] + [changed[|changed| - 1]];
    }
  }

  /** Whether a fragment that goes to the edge is among the changed files. */
  predicate AnyFragment(changed: seq<string>, hasEdge: bool) {
    changed != [] && (AnyFragment(changed[..|changed| - 1], hasEdge) || GoesToEdge(hasEdge, changed[|changed| - 1]))
  }

  lemma {:induction false} AnyFragmentMeans(changed: seq<string>, hasEdge: bool)
    ensures AnyFragment(changed, hasEdge) <==> exists p :: p in changed && GoesToEdge(hasEdge, p)
  {
    if changed != [] {
      AnyFragmentMeans(changed[..|changed| - 1], hasEdge);
      assert changed == changed[..|changed| - 1] + [changed[|changed| - 1]];
    }
  }

  /** The commands of both hosts that have failed or gone unanswered. */
  function Failures(client: Host, edge: Host): nat
    reads client`failures, edge`failures
  {
    client.failures + edge.failures
  }

  /** ... only grow, and do not where no command ever fails. */
  twostate predicate Counted(client: Host, edge: Host)
    reads client, edge
  {
    && old(Failures(client, edge)) <= Failures(client, edge)
    && (client.reliable && edge.reliable ==> Failures(client, edge) == old(Failures(client, edge)))
  }

  /** One rendered file to the host it belongs on; without an edge client `edge` is not touched. */
  method SendOne(client: Host, edge: Host, hasEdge: bool, path: string, content: string, digest: string -> string)
    returns (ok: bool, answered: bool, wrote: bool)
    requires edge != client
    requires forall a, b :: digest(a) == digest(b) ==> a == b
    modifies client`files, edge`files, client`failures, edge`failures
    ensures ok ==> client.files == if GoesToEdge(hasEdge, path) then old(client.files)
                                   else old(client.files)[path := content]
    ensures ok ==> edge.files == if GoesToEdge(hasEdge, path) then old(edge.files)[path := content] else old(edge.files)
    ensures client.files == old(client.files) || client.files == old(client.files)[path := content]
    ensures !wrote ==> ok && client.files == old(client.files) && edge.files == old(edge.files)
    ensures var target := if GoesToEdge(hasEdge, path) then old(edge.files) else old(client.files);
            wrote <==> !(answered && path in target && target[path] == content)
    ensures Counted(client, edge)
    ensures Failures(client, edge) == old(Failures(client, edge)) ==> ok && answered
  {
    var target := client;
    if hasEdge && FRAGMENT_DIR <= path {
      target := edge;
    }
    ok, answered, wrote := target.SendFile(path, content, digest);
  }

  /** The host lacks the file or holds other content. */
  ghost predicate DiffersAt(host: Files, files: Files, p: string) {
    p in files && !(p in host && host[p] == files[p])
  }

  /** ... the host the file goes to. */
  ghost predicate Differs(here: Files, there: Files, files: Files, hasEdge: bool, p: string) {
    DiffersAt(if GoesToEdge(hasEdge, p) then there else here, files, p)
  }

  ghost predicate QuadletDiffers(here: Files, files: Files) {
    exists p :: "/etc/containers/systemd/" <= p && DiffersAt(here, files, p)
  }

  ghost predicate FragmentDiffers(there: Files, files: Files, hasEdge: bool) {
    exists p :: hasEdge && "/var/lib/mksrv/caddy.d/" <= p && DiffersAt(there, files, p)
  }

  /** Both hosts already hold what is to be sent. */
  ghost predicate Present(here: Files, there: Files, files: Files, hasEdge: bool) {
    here + Share(files, hasEdge, false) == here && there + Share(files, hasEdge, true) == there
  }

  lemma PresentIff(here: Files, there: Files, files: Files, hasEdge: bool)
    ensures Present(here, there, files, hasEdge) <==> forall p :: !Differs(here, there, files, hasEdge, p)
  {
    if Present(here, there, files, hasEdge) {
      forall p | p in files ensures !Differs(here, there, files, hasEdge, p) {
        if GoesToEdge(hasEdge, p) {
          assert (there + Share(files, hasEdge, true))[p] == files[p];
        } else {
          assert (here + Share(files, hasEdge, false))[p] == files[p];
        }
      }
    } else {
      assert forall p :: !Differs(here, there, files, hasEdge, p) ==>
        (p in Share(files, hasEdge, false) ==> p in here && here[p] == files[p])
        && (p in Share(files, hasEdge, true) ==> p in there && there[p] == files[p]);
    }
  }

  /**
   * What the list of changed files says of some of the paths: all that differed are in it, each once; and when every
   * checksum was read, no others are.
   */
  ghost predicate Reports(changed: seq<string>, here: Files, there: Files, files: Files, hasEdge: bool,
                          sent: set<string>, answered: bool) {
    && Distinct(changed) && (forall p :: p in changed ==> p in sent)
    && (forall p :: p in sent && Differs(here, there, files, hasEdge, p) ==> p in changed)
    && (answered ==> forall p :: p in changed ==> Differs(here, there, files, hasEdge, p))
  }

  lemma ReportsMore(changed: seq<string>, here: Files, there: Files, files: Files, hasEdge: bool, paths: seq<string>,
                    i: nat, answered: bool, wrote: bool)
    requires i < |paths| && Distinct(paths)
    requires Reports(changed, here, there, files, hasEdge, Members(paths[..i]), answered)
    requires Differs(here, there, files, hasEdge, paths[i]) ==> wrote
    requires wrote && answered ==> Differs(here, there, files, hasEdge, paths[i])
    ensures Reports(if wrote then changed + [paths[i]] else changed, here, there, files, hasEdge,
                    Members(paths[..i + 1]), answered)
  {
    PrefixStep(paths, i);
    assert Members(paths[..i + 1]) == Members(paths[..i]) + {paths[i]};
    assert paths[i] !in paths[..i];
  }

  /** What the write loop reports. */
  datatype Written = Written(changed: seq<string>, untouched: nat, quadlet: bool, fragment: bool)

  /** The flags of the report say what its list of changed files says. */
  ghost predicate FlagsFit(w: Written, hasEdge: bool) {
    (w.quadlet <==> AnyQuadlet(w.changed)) && (w.fragment <==> AnyFragment(w.changed, hasEdge))
  }

  /** A written file: the switch of the loop. */
  function Record(w: Written, dst: string, hasEdge: bool): (r: Written)
    requires FlagsFit(w, hasEdge)
    ensures FlagsFit(r, hasEdge) && r.changed == w.changed + [dst] && r.untouched == w.untouched
    ensures (r.quadlet <==> w.quadlet || IsQuadlet(dst)) && (r.fragment <==> w.fragment || GoesToEdge(hasEdge, dst))
  {
    var changed := w.changed + [dst];
    assert changed[..|w.changed|] == w.changed;
    FragmentIsNoQuadlet(dst);
    if QUADLET_DIR <= dst then Written(changed, w.untouched, true, w.fragment)
    else if GoesToEdge(hasEdge, dst) then Written(changed, w.untouched, w.quadlet, true)
    else Written(changed, w.untouched, w.quadlet, w.fragment)
  }

  /** The two hosts' files once some paths are dealt with, from `here` and `there`. */
  ghost predicate SentSoFar(here: Files, there: Files, nowHere: Files, nowThere: Files, hasEdge: bool, files: Files,
                            sent: seq<string>) {
    nowHere == here + Sent(files, sent, hasEdge, false) && nowThere == there + Sent(files, sent, hasEdge, true)
  }

  /** ... and what the report says of it: what it does not flag has not changed. */
  ghost predicate ReportFits(w: Written, here: Files, there: Files, nowHere: Files, nowThere: Files, hasEdge: bool) {
    && FlagsFit(w, hasEdge)
    && (!w.quadlet ==> Quadlets(nowHere) == Quadlets(here))
    && (!w.fragment ==> nowThere == there)
    && (w.changed == [] ==> nowHere == here)
  }

  /**
   * Both, for a part of the paths, with the count and the list, and one path of interest that is not among the files.
   */
  ghost predicate Going(w: Written, here: Files, there: Files, nowHere: Files, nowThere: Files, hasEdge: bool,
                        files: Files, sent: seq<string>, answered: bool, marker: string) {
    && SentSoFar(here, there, nowHere, nowThere, hasEdge, files, sent)
    && ReportFits(w, here, there, nowHere, nowThere, hasEdge)
    && |w.changed| + w.untouched == |sent|
    && Reports(w.changed, here, there, files, hasEdge, Members(sent), answered)
    && (marker !in files ==> SameAt(nowHere, here, marker))
  }

  lemma SentOneMore(here: Files, there: Files, nowHere: Files, nowThere: Files, hasEdge: bool, files: Files,
                    paths: seq<string>, i: nat)
    requires i < |paths| && paths[i] in files && SentSoFar(here, there, nowHere, nowThere, hasEdge, files, paths[..i])
    ensures if GoesToEdge(hasEdge, paths[i])
            then SentSoFar(here, there, nowHere, nowThere[paths[i] := files[paths[i]]], hasEdge, files, paths[..i + 1])
            else SentSoFar(here, there, nowHere[paths[i] := files[paths[i]]], nowThere, hasEdge, files, paths[..i + 1])
  {
    SentStep(here, files, paths, i, hasEdge, false);
    SentStep(there, files, paths, i, hasEdge, true);
  }

  /** The report after one more file, skipped or written. */
  function NextReport(w: Written, dst: string, hasEdge: bool, wrote: bool): (r: Written)
    requires FlagsFit(w, hasEdge)
    ensures FlagsFit(r, hasEdge) && |r.changed| + r.untouched == |w.changed| + w.untouched + 1
    ensures r.changed == if wrote then w.changed + [dst] else w.changed
  {
    if wrote then Record(w, dst, hasEdge) else w.(untouched := w.untouched + 1)
  }

  lemma ReportStillFits(w: Written, here: Files, there: Files, nowHere: Files, nowThere: Files, hasEdge: bool,
                        dst: string, content: string, wrote: bool)
    requires ReportFits(w, here, there, nowHere, nowThere, hasEdge)
    requires !wrote && !GoesToEdge(hasEdge, dst) ==> nowHere[dst := content] == nowHere
    requires !wrote && GoesToEdge(hasEdge, dst) ==> nowThere[dst := content] == nowThere
    ensures ReportFits(NextReport(w, dst, hasEdge, wrote), here, there,
                       if GoesToEdge(hasEdge, dst) then nowHere else nowHere[dst := content],
                       if GoesToEdge(hasEdge, dst) then nowThere[dst := content] else nowThere, hasEdge)
  {
    if !IsQuadlet(dst) { OtherPathKeepsQuadlets(nowHere, dst, content); }
  }

  /** A path not dealt with yet is on its host as it was. */
  lemma UnsentIsOld(here: Files, there: Files, nowHere: Files, nowThere: Files, hasEdge: bool, files: Files,
                    paths: seq<string>, i: nat)
    requires i < |paths| && Distinct(paths)
    requires SentSoFar(here, there, nowHere, nowThere, hasEdge, files, paths[..i])
    ensures Differs(nowHere, nowThere, files, hasEdge, paths[i]) <==> Differs(here, there, files, hasEdge, paths[i])
  {
    assert paths[i] !in paths[..i];
  }

  lemma GoingOn(w: Written, here: Files, there: Files, nowHere: Files, nowThere: Files, hasEdge: bool,
                files: Files, paths: seq<string>, i: nat, wrote: bool, before: bool, answered: bool, marker: string)
    requires i < |paths| && paths[i] in files && Distinct(paths)
    requires Going(w, here, there, nowHere, nowThere, hasEdge, files, paths[..i], before, marker)
    requires wrote <==> !answered || Differs(nowHere, nowThere, files, hasEdge, paths[i])
    ensures var dst := paths[i];
            Going(NextReport(w, dst, hasEdge, wrote), here, there,
                  if GoesToEdge(hasEdge, dst) then nowHere else nowHere[dst := files[dst]],
                  if GoesToEdge(hasEdge, dst) then nowThere[dst := files[dst]] else nowThere,
                  hasEdge, files, paths[..i + 1], before && answered, marker)
  {
    UnsentIsOld(here, there, nowHere, nowThere, hasEdge, files, paths, i);
    SentOneMore(here, there, nowHere, nowThere, hasEdge, files, paths, i);
    ReportStillFits(w, here, there, nowHere, nowThere, hasEdge, paths[i], files[paths[i]], wrote);
    ReportsMore(w.changed, here, there, files, hasEdge, paths, i, before && answered, wrote);
  }

  /** One turn of the write loop. */
  method WriteNext(client: Host, edge: Host, hasEdge: bool, files: Files, paths: seq<string>, i: nat,
                   digest: string -> string, sofar: Written,
                   ghost here: Files, ghost there: Files, ghost before: bool, ghost marker: string)
    returns (ok: bool, answered: bool, w: Written)
    requires edge != client && i < |paths| && paths[i] in files && Distinct(paths)
    requires forall a, b :: digest(a) == digest(b) ==> a == b
    requires Going(sofar, here, there, client.files, edge.files, hasEdge, files, paths[..i], before, marker)
    modifies client`files, edge`files, client`failures, edge`failures
    ensures ok ==> Going(w, here, there, client.files, edge.files, hasEdge, files, paths[..i + 1],
                         before && answered, marker)
    ensures FlagsFit(w, hasEdge)
    ensures !ok && answered ==> Differs(here, there, files, hasEdge, paths[i])
    ensures marker !in files ==> SameAt(client.files, here, marker)
    ensures Counted(client, edge)
    ensures Failures(client, edge) == old(Failures(client, edge)) ==> ok && answered
  {
    var dst := paths[i];
    UnsentIsOld(here, there, client.files, edge.files, hasEdge, files, paths, i);
    var wrote: bool;
    w := sofar;
    ok, answered, wrote := SendOne(client, edge, hasEdge, dst, files[dst], digest);
    if ok {
      w := NextReport(sofar, dst, hasEdge, wrote);
      GoingOn(sofar, here, there, old(client.files), old(edge.files), hasEdge, files, paths, i, wrote, before, answered,
              marker);
    }
  }

  /** The loop; `marker` is any path of interest that is not among the files. */
  method WriteLoop(client: Host, edge: Host, hasEdge: bool, files: Files, paths: seq<string>, digest: string -> string,
                   ghost marker: string)
    returns (ok: bool, answered: bool, w: Written)
    requires edge != client && Members(paths) <= files.Keys && Distinct(paths)
    requires forall a, b :: digest(a) == digest(b) ==> a == b
    modifies client`files, edge`files, client`failures, edge`failures
    ensures ok ==> Going(w, old(client.files), old(edge.files), client.files, edge.files, hasEdge, files, paths,
                         answered, marker)
    ensures FlagsFit(w, hasEdge)
    ensures !ok && answered ==> exists p :: Differs(old(client.files), old(edge.files), files, hasEdge, p)
    ensures marker !in files ==> SameAt(client.files, old(client.files), marker)
    ensures Counted(client, edge)
    ensures Failures(client, edge) == old(Failures(client, edge)) ==> ok && answered
  {
    answered, w := true, Written([], 0, false, false);
    ghost var here, there := client.files, edge.files;
    SentNone(files, paths, hasEdge);
    for i := 0 to |paths|
      invariant Going(w, here, there, client.files, edge.files, hasEdge, files, paths[..i], answered, marker)
      invariant Counted(client, edge)
      invariant Failures(client, edge) == old(Failures(client, edge)) ==> answered
    {
      assert paths[i] in Members(paths);
      var got;
      ok, got, w := WriteNext(client, edge, hasEdge, files, paths, i, digest, w, here, there, answered, marker);
      answered := answered && got;
      if !ok {
        return;
      }
    }
    assert paths[..|paths|] == paths;
    ok := true;
  }

  lemma SentNone(files: Files, paths: seq<string>, hasEdge: bool)
    ensures Sent(files, paths[..0], hasEdge, false) == map[] && Sent(files, paths[..0], hasEdge, true) == map[]
  {
  }

  /** All rendered files, in sorted order. */
  method WriteFiles(client: Host, edge: Host, hasEdge: bool, files: Files, digest: string -> string,
                    ghost marker: string)
    returns (ok: bool, answered: bool, w: Written)
    requires edge != client
    requires forall a, b :: digest(a) == digest(b) ==> a == b
    modifies client`files, edge`files, client`failures, edge`failures
    ensures ok ==> client.files == old(client.files) + Share(files, hasEdge, false)
    ensures ok ==> edge.files == old(edge.files) + Share(files, hasEdge, true)
    ensures ok ==> |w.changed| + w.untouched == |files|
    ensures FlagsFit(w, hasEdge)
    ensures ok && !w.quadlet ==> Quadlets(client.files) == Quadlets(old(client.files))
    ensures ok && !w.fragment ==> edge.files == old(edge.files)
    ensures ok ==> Reports(w.changed, old(client.files), old(edge.files), files, hasEdge, files.Keys, answered)
    ensures answered && Present(old(client.files), old(edge.files), files, hasEdge) ==> ok && w.changed == []
    ensures marker !in files ==> SameAt(client.files, old(client.files), marker)
    ensures Counted(client, edge)
    ensures Failures(client, edge) == old(Failures(client, edge)) ==> ok && answered
  {
    var paths := SortedKeys(files.Keys);
    CountedIsDistinct(paths);
    PresentIff(client.files, edge.files, files, hasEdge);
    SentAll(files, paths, hasEdge, false);
    SentAll(files, paths, hasEdge, true);
    ok, answered, w := WriteLoop(client, edge, hasEdge, files, paths, digest, marker);
    if ok && answered && w.changed != [] { assert w.changed[0] in w.changed; }
  }


  /** Every hook has run well and every health check has passed between the two moments, and the result says so. */
  ghost predicate AllPassed(stack: string, hooks: seq<Hook>, checks: seq<Check>, result: StackResult,
                            ranBefore: seq<string>, ran: seq<string>, probedBefore: seq<Check>, probed: seq<Check>) {
    && ran == ranBefore + HookPaths(stack, hooks) && result.hooks == HookRuns(hooks)
    && probed == probedBefore + Probes(checks) && result.healthOK == CheckApps(checks) && AllKnown(checks)
  }

  /** Once all is sent and every checksum was read, the flags say what differed before. */
  lemma FlagsTell(changed: seq<string>, here: Files, there: Files, files: Files, hasEdge: bool)
    requires Reports(changed, here, there, files, hasEdge, files.Keys, true)
    ensures AnyQuadlet(changed) <==> QuadletDiffers(here, files)
    ensures AnyFragment(changed, hasEdge) <==> FragmentDiffers(there, files, hasEdge)
  {
    AnyQuadletMeans(changed);
    AnyFragmentMeans(changed, hasEdge);
    forall p ensures IsQuadlet(p) ==> !GoesToEdge(hasEdge, p) {
      FragmentIsNoQuadlet(p);
    }
    assert forall p :: p in changed <==> Differs(here, there, files, hasEdge, p);
  }

  /** One deploy. `answered` says that every checksum was read. */
  method DeployStack(client: Host, edge: Host, hasEdge: bool, stack: string, rendered: Files, hooks: seq<Hook>,
                     checks: seq<Check>, digest: string -> string)
    returns (ok: bool, result: StackResult, answered: bool)
    requires edge != client
    requires forall a, b :: digest(a) == digest(b) ==> a == b
    modifies client`files, client`loaded, client`restarted, client`executed, client`probed, client`failures
    modifies edge`files, edge`served, edge`caddyReloads, edge`failures
    // Only a command that fails or an unknown check ends a run.
    ensures Counted(client, edge)
    ensures Failures(client, edge) == old(Failures(client, edge)) ==> answered && (ok <==> AllKnown(checks))
    // The files: every rendered one on its host, then the hook scripts, then the marker.
    ensures ok ==> client.files == DeployedFiles(old(client.files), stack, rendered, hasEdge, hooks)
    ensures ok ==> edge.files == old(edge.files) + Share(NonBlank(rendered), hasEdge, true)
    // The report: what differed, and with every checksum read nothing else.
    ensures ok ==> |result.changed| + result.untouched == |NonBlank(rendered)|
    ensures ok ==> Reports(result.changed, old(client.files), old(edge.files), NonBlank(rendered), hasEdge,
                           NonBlank(rendered).Keys, answered)
    // systemd: its view ends up matching the disk exactly when a Quadlet was written or it matched before.
    ensures ok ==> (client.loaded == Quadlets(client.files)
                    <==> AnyQuadlet(result.changed) || old(client.loaded) == Quadlets(old(client.files)))
    ensures ok && answered ==> (AnyQuadlet(result.changed) <==> QuadletDiffers(old(client.files), NonBlank(rendered)))
    ensures ok ==> client.restarted == old(client.restarted) + result.restarted
    ensures ok && AnyQuadlet(result.changed) ==> ListsUnits(NonBlank(rendered), result.restarted)
    ensures !AnyQuadlet(result.changed) ==> client.loaded == old(client.loaded)
    ensures !AnyQuadlet(result.changed) ==> result.restarted == [] && client.restarted == old(client.restarted)
    // Caddy on the edge: the same, and one reload when a fragment was written there.
    ensures ok ==> (edge.served == Fragments(edge.files)
                    <==> AnyFragment(result.changed, hasEdge) || old(edge.served) == Fragments(old(edge.files)))
    ensures ok && answered ==>
              (AnyFragment(result.changed, hasEdge) <==> FragmentDiffers(old(edge.files), NonBlank(rendered), hasEdge))
    ensures ok ==> edge.caddyReloads == old(edge.caddyReloads) + if AnyFragment(result.changed, hasEdge) then 1 else 0
    ensures ok && !AnyFragment(result.changed, hasEdge) ==> edge.served == old(edge.served)
    // The marker waits for the hooks and the checks.
    ensures ok ==> AllPassed(stack, hooks, checks, result, old(client.executed), client.executed,
                             old(client.probed), client.probed)
    ensures Marker(stack) !in NonBlank(rendered) && Marker(stack) !in HookFiles(stack, hooks)
            && !SameAt(client.files, old(client.files), Marker(stack)) ==>
              AllPassed(stack, hooks, checks, result, old(client.executed), client.executed,
                        old(client.probed), client.probed)
    // Nothing to do is nothing done.
    ensures ok && answered && Present(old(client.files), old(edge.files), NonBlank(rendered), hasEdge) ==>
              result.changed == []
  {
    result := StackResult([], 0, [], [], []);
    var files := DropEmpty(rendered);
    var w: Written;
    ok, answered, w := Push(client, edge, hasEdge, files, digest, Marker(stack));
    result := result.(changed := w.changed, untouched := w.untouched);
    if !ok {
      return;
    }
    if answered { FlagsTell(w.changed, old(client.files), old(edge.files), files, hasEdge); }
    ok, result := Settle(client, stack, files, hooks, checks, w.quadlet, result);
  }

  /** The writes, and the Caddy reload on the edge when a fragment changed there. */
  method Push(client: Host, edge: Host, hasEdge: bool, files: Files, digest: string -> string, ghost marker: string)
    returns (ok: bool, answered: bool, w: Written)
    requires edge != client
    requires forall a, b :: digest(a) == digest(b) ==> a == b
    modifies client`files, client`failures, edge`files, edge`served, edge`caddyReloads, edge`failures
    ensures Counted(client, edge)
    ensures Failures(client, edge) == old(Failures(client, edge)) ==> ok && answered
    ensures ok ==> client.files == old(client.files) + Share(files, hasEdge, false)
    ensures ok ==> edge.files == old(edge.files) + Share(files, hasEdge, true)
    ensures ok ==> |w.changed| + w.untouched == |files|
    ensures ok ==> Reports(w.changed, old(client.files), old(edge.files), files, hasEdge, files.Keys, answered)
    ensures FlagsFit(w, hasEdge)
    ensures ok && !w.quadlet ==> Quadlets(client.files) == Quadlets(old(client.files))
    ensures ok ==> (edge.served == Fragments(edge.files)
                    <==> w.fragment || old(edge.served) == Fragments(old(edge.files)))
    ensures ok ==> edge.caddyReloads == old(edge.caddyReloads) + if w.fragment then 1 else 0
    ensures ok && !w.fragment ==> edge.served == old(edge.served)
    ensures ok && answered && Present(old(client.files), old(edge.files), files, hasEdge) ==> w.changed == []
    ensures marker !in files ==> SameAt(client.files, old(client.files), marker)
  {
    ok, answered, w := WriteFiles(client, edge, hasEdge, files, digest, marker);
    if ok {
      ok := edge.ApplyFragments(w.fragment);
    }
  }

  /** systemd, then hooks, checks and marker. */
  method Settle(client: Host, stack: string, files: Files, hooks: seq<Hook>, checks: seq<Check>, quadlet: bool,
                before: StackResult)
    returns (ok: bool, result: StackResult)
    requires before.restarted == []
    modifies client`files, client`loaded, client`restarted, client`executed, client`probed, client`failures
    ensures client.Counted()
    ensures client.failures == old(client.failures) ==> (ok <==> AllKnown(checks))
    ensures ok ==> client.files == old(client.files) + HookFiles(stack, hooks) + map[Marker(stack) := MarkerText(stack)]
    ensures ok ==> Quadlets(client.files) == Quadlets(old(client.files))
    ensures ok && quadlet ==> client.loaded == Quadlets(client.files) && ListsUnits(files, result.restarted)
    ensures !quadlet ==> client.loaded == old(client.loaded) && client.restarted == old(client.restarted)
    ensures !quadlet ==> result.restarted == []
    ensures ok ==> client.restarted == old(client.restarted) + result.restarted
    ensures ok || (Marker(stack) !in HookFiles(stack, hooks)
                   && !SameAt(client.files, old(client.files), Marker(stack))) ==>
              AllPassed(stack, hooks, checks, result, old(client.executed), client.executed,
                        old(client.probed), client.probed)
    ensures result.changed == before.changed && result.untouched == before.untouched
  {
    LateFilesKeepQuadlets(client.files, stack, hooks);
    var units := QuadletUnits(files);
    var restarts: seq<string>;
    ok, restarts := client.ApplyUnits(units, quadlet);
    result := before.(restarted := restarts);
    if ok {
      assert client.restarted == old(client.restarted) + restarts;
      ok, result := Finish(client, stack, hooks, checks, result);
    }
  }

  lemma HooksSpare(files: Files, stack: string, hooks: seq<Hook>, reached: nat, p: string)
    requires reached <= |hooks|
    ensures p !in HookFiles(stack, hooks) ==> SameAt(files + HookFiles(stack, hooks[..reached]), files, p)
  {
    HookFilesGrow(stack, hooks, reached);
  }

  /** Hooks, then health checks. */
  method HooksAndChecks(client: Host, stack: string, hooks: seq<Hook>, checks: seq<Check>, before: StackResult)
    returns (ok: bool, result: StackResult)
    modifies client`files, client`executed, client`probed, client`failures
    ensures client.Counted()
    ensures ok <==> client.failures == old(client.failures) && AllKnown(checks)
    ensures ok ==> client.files == old(client.files) + HookFiles(stack, hooks)
    ensures ok ==> AllPassed(stack, hooks, checks, result, old(client.executed), client.executed,
                             old(client.probed), client.probed)
    ensures Marker(stack) !in HookFiles(stack, hooks) ==> SameAt(client.files, old(client.files), Marker(stack))
    ensures result == before.(hooks := result.hooks, healthOK := result.healthOK)
  {
    result := before;
    var ran: seq<string>;
    ghost var reached;
    ok, ran, reached := client.RunHooks(stack, hooks);
    HooksSpare(old(client.files), stack, hooks, reached, Marker(stack));
    result := result.(hooks := ran);
    if ok {
      var healthy: seq<string>;
      ok, healthy := client.RunHealthChecks(checks);
      result := result.(healthOK := healthy);
    }
  }

  /** Hooks, health checks, marker. */
  method Finish(client: Host, stack: string, hooks: seq<Hook>, checks: seq<Check>, before: StackResult)
    returns (ok: bool, result: StackResult)
    modifies client`files, client`executed, client`probed, client`failures
    ensures client.Counted()
    ensures ok <==> client.failures == old(client.failures) && AllKnown(checks)
    ensures ok ==> client.files == old(client.files) + HookFiles(stack, hooks) + map[Marker(stack) := MarkerText(stack)]
    ensures ok || (Marker(stack) !in HookFiles(stack, hooks)
                   && !SameAt(client.files, old(client.files), Marker(stack))) ==>
              AllPassed(stack, hooks, checks, result, old(client.executed), client.executed,
                        old(client.probed), client.probed)
    ensures result == before.(hooks := result.hooks, healthOK := result.healthOK)
  {
    ok, result := HooksAndChecks(client, stack, hooks, checks, before);
    if ok {
      ok := client.Write(Marker(stack), MarkerText(stack));
    }
  }

  /**
   * A deploy where every rendered file is already in place: it writes, restarts and reloads nothing, so a view that was
   * stale stays stale.
   */
  method DeployInPlace(client: Host, edge: Host, hasEdge: bool, stack: string, rendered: Files, hooks: seq<Hook>,
                       checks: seq<Check>, digest: string -> string)
    returns (ok: bool, result: StackResult, answered: bool)
    requires edge != client
    requires forall a, b :: digest(a) == digest(b) ==> a == b
    requires Present(client.files, edge.files, NonBlank(rendered), hasEdge)
    modifies client`files, client`loaded, client`restarted, client`executed, client`probed, client`failures
    modifies edge`files, edge`served, edge`caddyReloads, edge`failures
    ensures Counted(client, edge)
    ensures Failures(client, edge) == old(Failures(client, edge)) ==> answered && (ok <==> AllKnown(checks))
    ensures ok && answered ==> result.changed == [] && result.restarted == []
    ensures ok && answered ==> result.untouched == |NonBlank(rendered)|
    ensures ok && answered ==> client.restarted == old(client.restarted) && edge.caddyReloads == old(edge.caddyReloads)
    ensures ok && answered ==> client.loaded == old(client.loaded)
    ensures ok && answered ==> Quadlets(client.files) == Quadlets(old(client.files))
    ensures ok && answered ==> edge.served == old(edge.served) && edge.files == old(edge.files)
    ensures ok ==> client.files == DeployedFiles(old(client.files), stack, rendered, hasEdge, hooks)
  {
    ok, result, answered := DeployStack(client, edge, hasEdge, stack, rendered, hooks, checks, digest);
    LateFilesKeepQuadlets(old(client.files), stack, hooks);
  }

  lemma DeployedIsPresent(here: Files, there: Files, stack: string, rendered: Files, hasEdge: bool, hooks: seq<Hook>)
    requires NoOverlap(stack, rendered, hasEdge, hooks)
    ensures var after := DeployedFiles(here, stack, rendered, hasEdge, hooks);
            && Present(after, there + Share(NonBlank(rendered), hasEdge, true), NonBlank(rendered), hasEdge)
            && DeployedFiles(after, stack, rendered, hasEdge, hooks) == after
  {
    DeployedIsFixed(here, stack, rendered, hasEdge, hooks);
    var share := Share(NonBlank(rendered), hasEdge, true);
    assert there + share + share == there + share;
  }

  /**
   * Deploying the same thing twice: when no script and no marker lands on a rendered file with other content, the
   * second run changes no file, restarts nothing and reloads nothing; what both together restart and reload is what the
   * first did. `quiet` says that the second read every checksum.
   */
  method DeployTwice(client: Host, edge: Host, hasEdge: bool, stack: string, rendered: Files, hooks: seq<Hook>,
                     checks: seq<Check>, digest: string -> string)
    returns (ok: bool, quiet: bool, first: StackResult, second: StackResult)
    requires edge != client
    requires forall a, b :: digest(a) == digest(b) ==> a == b
    requires NoOverlap(stack, rendered, hasEdge, hooks)
    modifies client`files, client`loaded, client`restarted, client`executed, client`probed, client`failures
    modifies edge`files, edge`served, edge`caddyReloads, edge`failures
    ensures Counted(client, edge)
    ensures Failures(client, edge) == old(Failures(client, edge)) ==> (ok && quiet <==> AllKnown(checks))
    ensures Failures(client, edge) == old(Failures(client, edge)) && AllKnown(checks) ==>
              Reports(first.changed, old(client.files), old(edge.files), NonBlank(rendered), hasEdge,
                      NonBlank(rendered).Keys, true)
    ensures ok && quiet ==> second.changed == [] && second.restarted == [] && second.untouched == |NonBlank(rendered)|
    ensures ok && quiet ==> client.files == DeployedFiles(old(client.files), stack, rendered, hasEdge, hooks)
    ensures ok && quiet ==> edge.files == old(edge.files) + Share(NonBlank(rendered), hasEdge, true)
    ensures ok && quiet ==> client.restarted == old(client.restarted) + first.restarted
    ensures ok && quiet ==>
              edge.caddyReloads == old(edge.caddyReloads) + if AnyFragment(first.changed, hasEdge) then 1 else 0
    ensures ok && quiet ==> (client.loaded == Quadlets(client.files)
                             <==> AnyQuadlet(first.changed) || old(client.loaded) == Quadlets(old(client.files)))
    ensures ok && quiet ==> (edge.served == Fragments(edge.files)
                             <==> AnyFragment(first.changed, hasEdge) || old(edge.served) == Fragments(old(edge.files)))
  {
    var answered;
    ok, first, answered := DeployStack(client, edge, hasEdge, stack, rendered, hooks, checks, digest);
    quiet, second := false, first;
    if !ok {
      return;
    }
    DeployedIsPresent(old(client.files), old(edge.files), stack, rendered, hasEdge, hooks);
    ok, second, quiet := DeployInPlace(client, edge, hasEdge, stack, rendered, hooks, checks, digest);
  }

  lemma QuadletsChangeIff(here: Files, files: Files, hasEdge: bool)
    ensures Quadlets(here + Share(files, hasEdge, false)) == Quadlets(here) <==> !QuadletDiffers(here, files)
  {
    var after := here + Share(files, hasEdge, false);
    if p :| IsQuadlet(p) && DiffersAt(here, files, p) {
      FragmentIsNoQuadlet(p);
      assert p in Quadlets(after) && Quadlets(after)[p] == files[p];
      assert p in Quadlets(here) ==> Quadlets(here)[p] == here[p];
    } else {
      assert forall p :: IsQuadlet(p) ==> SameAt(after, here, p);
      assert Quadlets(after).Keys == Quadlets(here).Keys;
    }
  }

  lemma FragmentsChangeIff(there: Files, files: Files, hasEdge: bool)
    ensures Fragments(there + Share(files, hasEdge, true)) == Fragments(there)
       <==> !FragmentDiffers(there, files, hasEdge)
  {
    var after := there + Share(files, hasEdge, true);
    if p :| GoesToEdge(hasEdge, p) && DiffersAt(there, files, p) {
      assert p in Fragments(after) && Fragments(after)[p] == files[p];
      assert p in Fragments(there) ==> Fragments(there)[p] == there[p];
    } else {
      assert forall p :: IsFragment(p) ==> SameAt(after, there, p);
      assert Fragments(after).Keys == Fragments(there).Keys;
    }
  }

  /** A deploy that dies right behind its writes. */
  method DieAfterWrites(client: Host, edge: Host, hasEdge: bool, stack: string, rendered: Files, hooks: seq<Hook>,
                        digest: string -> string)
    returns (ok: bool)
    requires edge != client
    requires forall a, b :: digest(a) == digest(b) ==> a == b
    modifies client`files, edge`files, client`failures, edge`failures
    ensures Counted(client, edge)
    ensures Failures(client, edge) == old(Failures(client, edge)) ==> ok
    ensures ok ==> Present(client.files, edge.files, NonBlank(rendered), hasEdge)
    ensures ok ==> (Quadlets(client.files) != Quadlets(old(client.files))
                    <==> QuadletDiffers(old(client.files), NonBlank(rendered)))
    ensures ok ==> (Fragments(edge.files) != Fragments(old(edge.files))
                    <==> FragmentDiffers(old(edge.files), NonBlank(rendered), hasEdge))
    ensures ok ==> (DeployedFiles(client.files, stack, rendered, hasEdge, hooks)
                    == DeployedFiles(old(client.files), stack, rendered, hasEdge, hooks))
  {
    var files := DropEmpty(rendered);
    var answered, w;
    ok, answered, w := WriteFiles(client, edge, hasEdge, files, digest, Marker(stack));
    QuadletsChangeIff(old(client.files), files, hasEdge);
    FragmentsChangeIff(old(edge.files), files, hasEdge);
    SharedIsPresent(old(client.files), old(edge.files), files, hasEdge);
    DeployedOverShare(old(client.files), stack, rendered, hasEdge, hooks);
  }

  /**
   * Such a deploy, and then a whole one: the second finds nothing to write, so it neither reloads nor restarts. Had
   * both views matched before, each is left stale exactly when a file it reads differed.
   */
  method DeployAfterCut(client: Host, edge: Host, hasEdge: bool, stack: string, rendered: Files, hooks: seq<Hook>,
                        checks: seq<Check>, digest: string -> string)
    returns (ok: bool, result: StackResult, answered: bool)
    requires edge != client
    requires forall a, b :: digest(a) == digest(b) ==> a == b
    requires client.loaded == Quadlets(client.files) && edge.served == Fragments(edge.files)
    modifies client`files, client`loaded, client`restarted, client`executed, client`probed, client`failures
    modifies edge`files, edge`served, edge`caddyReloads, edge`failures
    ensures Counted(client, edge)
    ensures Failures(client, edge) == old(Failures(client, edge)) ==> answered && (ok <==> AllKnown(checks))
    ensures ok && answered ==> result.changed == [] && result.restarted == []
    ensures ok && answered ==> client.files == DeployedFiles(old(client.files), stack, rendered, hasEdge, hooks)
    ensures ok && answered ==>
              (client.loaded != Quadlets(client.files) <==> QuadletDiffers(old(client.files), NonBlank(rendered)))
    ensures ok && answered ==>
              (edge.served != Fragments(edge.files) <==> FragmentDiffers(old(edge.files), NonBlank(rendered), hasEdge))
  {
    result, answered := StackResult([], 0, [], [], []), false;
    ok := DieAfterWrites(client, edge, hasEdge, stack, rendered, hooks, digest);
    if ok {
      ok, result, answered := DeployInPlace(client, edge, hasEdge, stack, rendered, hooks, checks, digest);
    }
  }

  lemma SharedIsPresent(here: Files, there: Files, files: Files, hasEdge: bool)
    ensures Present(here + Share(files, hasEdge, false), there + Share(files, hasEdge, true), files, hasEdge)
  {
    var mine, theirs := Share(files, hasEdge, false), Share(files, hasEdge, true);
    assert here + mine + mine == here + mine && there + theirs + theirs == there + theirs;
  }

  lemma DeployedOverShare(here: Files, stack: string, rendered: Files, hasEdge: bool, hooks: seq<Hook>)
    ensures DeployedFiles(here + Share(NonBlank(rendered), hasEdge, false), stack, rendered, hasEdge, hooks)
         == DeployedFiles(here, stack, rendered, hasEdge, hooks)
  {
    var mine := Share(NonBlank(rendered), hasEdge, false);
    assert here + mine + mine == here + mine;
  }
}
