/**
 * `WriteFileSudo` (internal/ssh/ssh.go): what its script does to the files of a host when every command of it runs, and
 * when the run ends anywhere before that. `Commands` says how a shell reads the script; here the commands act.
 */
module AtomicWrite {
  import opened Text
  import opened Shell
  import opened Commands

  datatype File = File(content: string, mode: string)

  /** The files and the directories of a host, by the names the script uses for them. */
  datatype Disk = Disk(files: map<string, File>, dirs: set<string>)

  /** A command with its words in place. `Nothing` touches no file: the assignments and `set -e`. */
  datatype Action =
    | Nothing
    | MakeDirs(dir: string)
    | Fill(file: string)
    | SetMode(mode: string, file: string)
    | Rename(file: string, to: string)
    | Unknown

  /** `set -e`, `mkdir -p`, `cat >`, `chmod` and `mv -f`, and the assignments; the model knows no other command. */
  function ActionOf(tokens: seq<Token>): Action {
    if |tokens| == 1 && tokens[0].Word? && '=' in tokens[0].text then Nothing
    else if tokens == Words(["set", "-e"]) then Nothing
    else if |tokens| == 3 && tokens[..2] == Words(["mkdir", "-p"]) && tokens[2].Word? then MakeDirs(tokens[2].text)
    else if |tokens| == 3 && tokens[..2] == [Word("cat"), Great] && tokens[2].Word? then Fill(tokens[2].text)
    else if |tokens| == 3 && tokens[0] == Word("chmod") && tokens[1].Word? && tokens[2].Word? then
      SetMode(tokens[1].text, tokens[2].text)
    else if |tokens| == 4 && tokens[..2] == Words(["mv", "-f"]) && tokens[2].Word? && tokens[3].Word? then
      Rename(tokens[2].text, tokens[3].text)
    else Unknown
  }

  function ActionsOf(commands: seq<seq<Token>>): (r: seq<Action>)
    ensures |r| == |commands| && forall i :: 0 <= i < |r| ==> r[i] == ActionOf(commands[i])
  {
    seq(|commands|, i requires 0 <= i < |commands| => ActionOf(commands[i]))
  }

  /** A name that is no option, and does not say by its spelling that it is a directory. */
  predicate IsFileName(name: string) {
    name != "" && name[0] != '-' && name[|name| - 1] != '/'
  }

  /** A renamed file: in place of what stood there, or inside it where that is a directory. */
  ghost predicate Renamed(a: map<string, File>, dirs: set<string>, file: string, to: string, b: map<string, File>)
    requires file in a
  {
    if to in dirs then exists name: string :: '/' !in name && b == (a - {file})[to + "/" + name := a[file]]
    else b == (a - {file})[to := a[file]]
  }

  /**
   * A command that succeeds takes one disk to the other. `input` is what reaches `cat` before its input ends: all the
   * caller sent, or the part that came through a connection that was lost, which `cat` cannot tell from the whole.
   */
  ghost predicate Performs(a: Disk, act: Action, input: string, b: Disk) {
    match act
    case Nothing => a == b
    case MakeDirs(dir) => b.files == a.files && a.dirs <= b.dirs && dir in b.dirs
    case Fill(file) =>
      && file !in a.dirs && b.dirs == a.dirs && file in b.files && b.files == a.files[file := b.files[file]]
      && b.files[file].content == input && (file in a.files ==> b.files[file].mode == a.files[file].mode)
    case SetMode(mode, file) =>
      && file in a.files && IsFileName(file) && b.dirs == a.dirs
      && b.files == a.files[file := a.files[file].(mode := mode)]
    case Rename(file, to) =>
      && file in a.files && IsFileName(file) && IsFileName(to) && b.dirs == a.dirs
      && Renamed(a.files, a.dirs, file, to, b.files)
    case Unknown => false
  }

  /**
   * A command that fails, or is killed on the way: it may have made some directories, or filled its file with a part of
   * the input. A rename within a directory and a change of mode happen as a whole or not at all.
   */
  ghost predicate Breaks(a: Disk, act: Action, input: string, b: Disk) {
    || a == b
    || match act
       case MakeDirs(_) => b.files == a.files && a.dirs <= b.dirs
       case Fill(file) =>
         && file !in a.dirs && b.dirs == a.dirs && file in b.files && b.files == a.files[file := b.files[file]]
         && b.files[file].content <= input
       case _ => Performs(a, act, input, b)
  }

  /** Every command succeeds. */
  ghost predicate Completes(a: Disk, acts: seq<Action>, input: string, b: Disk)
    decreases |acts|
  {
    if acts == [] then a == b
    else exists mid :: Performs(a, acts[0], input, mid) && Completes(mid, acts[1..], input, b)
  }

  /** Some command does not, and none runs after it (`set -e`). */
  ghost predicate Stops(a: Disk, acts: seq<Action>, input: string, b: Disk)
    decreases |acts|
  {
    && acts != []
    && (|| Breaks(a, acts[0], input, b)
        || exists mid :: Performs(a, acts[0], input, mid) && Stops(mid, acts[1..], input, b))
  }

  function Tmp(path: string): string {
    path + ".mksrv.tmp"
  }

  /** Six commands that touch no file but may make directories, then three on the temporary name. */
  ghost predicate WritesTo(acts: seq<Action>, path: string, mode: string) {
    && |acts| == 9 && (forall i :: 0 <= i < 6 ==> acts[i].Nothing? || acts[i].MakeDirs?)
    && acts[6..] == [Fill(Tmp(path)), SetMode(mode, Tmp(path)), Rename(Tmp(path), path)]
  }

  lemma OneAssignment(name: string, value: string)
    requires |name| == 2 && name[1] == '='
    ensures ActionOf(Words([name + value])).Nothing?
  {
    assert (name + value)[1] == '=';
  }

  lemma FirstActs(path: string, mode: string, dir: string, commands: seq<seq<Token>>)
    requires commands == WriteTokens(path, mode, dir)
    ensures |commands| == 9
    ensures forall i :: 0 <= i < 6 ==> ActionOf(commands[i]).Nothing? || ActionOf(commands[i]).MakeDirs?
  {
    assert ActionOf(commands[0]).Nothing?;
    OneAssignment("p=", path);
    OneAssignment("m=", mode);
    OneAssignment("d=", dir);
    OneAssignment("t=", path + TMP);
    assert commands[4][..2] == Words(["mkdir", "-p"]);
  }

  lemma FillAct(file: string)
    ensures ActionOf(Words(["cat"]) + [Great, Word(file)]) == Fill(file)
  {
    var tokens := Words(["cat"]) + [Great, Word(file)];
    assert tokens[1] == Great && !tokens[1].Word?;
    assert tokens[..2] == [Word("cat"), Great];
  }

  lemma SetModeAct(mode: string, file: string)
    ensures ActionOf(Words(["chmod", mode, file])) == SetMode(mode, file)
  {
    var tokens := Words(["chmod", mode, file]);
    assert tokens[..2][0].text == "chmod" && "chmod"[0] == 'c' && "mkdir"[0] == 'm' && |"cat"| == 3;
  }

  lemma RenameAct(file: string, to: string)
    ensures ActionOf(Words(["mv", "-f", file, to])) == Rename(file, to)
  {
    assert Words(["mv", "-f", file, to])[..2] == Words(["mv", "-f"]);
  }

  lemma LastActs(path: string, mode: string, dir: string, commands: seq<seq<Token>>)
    requires commands == WriteTokens(path, mode, dir)
    ensures ActionOf(commands[6]) == Fill(Tmp(path)) && ActionOf(commands[7]) == SetMode(mode, Tmp(path))
    ensures ActionOf(commands[8]) == Rename(Tmp(path), path)
  {
    FillAct(Tmp(path));
    SetModeAct(mode, Tmp(path));
    RenameAct(Tmp(path), path);
  }

  lemma WordsWriteTo(path: string, mode: string, dir: string, commands: seq<seq<Token>>)
    requires commands == WriteTokens(path, mode, dir)
    ensures WritesTo(ActionsOf(commands), path, mode)
  {
    FirstActs(path, mode, dir, commands);
    LastActs(path, mode, dir, commands);
  }

  /** What the words do that any shell reads in the script of `WriteFileSudo`: they write to its path, with its mode. */
  lemma ScriptWritesTo(env: Env, path: string, mode: nat)
    requires mode < 512
    ensures forall i :: 0 <= i < |WriteScript(path, mode)| ==> IsSimple(WriteScript(path, mode)[i])
    ensures var commands, s := Read(env, WriteScript(path, mode)), Octal(mode);
            && commands.Some? && WritesTo(ActionsOf(commands.value), path, s)
            && |s| == 4 && s[0] == '0' && mode == 64 * Digit(s[1]) + 8 * Digit(s[2]) + Digit(s[3])
            && forall i :: 0 <= i < 4 ==> '0' <= s[i] <= '7'
  {
    PathArrives(env, path, mode);
    OctalReads(mode);
    var dir := Given(Named(env, path, Octal(mode)), Command(Dirname()));
    WordsWriteTo(path, Octal(mode), dir, WriteTokens(path, Octal(mode), dir));
  }

  /** Commands that touch no file, before others. */
  lemma {:induction false} QuietFirst(a: Disk, acts: seq<Action>, n: nat, input: string, b: Disk) returns (mid: Disk)
    requires n <= |acts| && forall i :: 0 <= i < n ==> acts[i].Nothing? || acts[i].MakeDirs?
    requires Completes(a, acts, input, b)
    ensures mid.files == a.files && a.dirs <= mid.dirs && Completes(mid, acts[n..], input, b)
    ensures forall i :: 0 <= i < n && acts[i].MakeDirs? ==> acts[i].dir in mid.dirs
    decreases n
  {
    if n == 0 {
      mid := a;
      assert acts[0..] == acts;
    } else {
      var next :| Performs(a, acts[0], input, next) && Completes(next, acts[1..], input, b);
      mid := QuietFirst(next, acts[1..], n - 1, input, b);
      assert acts[1..][n - 1..] == acts[n..];
    }
  }

  lemma {:induction false} QuietStops(a: Disk, acts: seq<Action>, n: nat, input: string, b: Disk)
    requires n <= |acts| && forall i :: 0 <= i < n ==> acts[i].Nothing? || acts[i].MakeDirs?
    requires Stops(a, acts, input, b)
    ensures || (b.files == a.files && a.dirs <= b.dirs)
            || exists mid: Disk :: mid.files == a.files && a.dirs <= mid.dirs && Stops(mid, acts[n..], input, b)
    decreases n
  {
    if n == 0 {
      assert acts[0..] == acts;
    } else if !Breaks(a, acts[0], input, b) {
      var next :| Performs(a, acts[0], input, next) && Stops(next, acts[1..], input, b);
      QuietStops(next, acts[1..], n - 1, input, b);
      assert acts[1..][n - 1..] == acts[n..];
    }
  }

  /**
   * The file under the name in place of what stood there, no other file touched, and the temporary name free. Where the
   * name is a directory's, the file is inside it.
   */
  ghost predicate Replaced(a: Disk, path: string, file: File, b: Disk) {
    var others := a.files - {path + ".mksrv.tmp"};
    && a.dirs <= b.dirs
    && if path in b.dirs then exists name: string :: '/' !in name && b.files == others[path + "/" + name := file]
       else b.files == others[path := file]
  }

  /** Nothing but the temporary name differs. */
  ghost predicate Untouched(a: Disk, path: string, b: Disk) {
    a.dirs <= b.dirs && b.files - {path + ".mksrv.tmp"} == a.files - {path + ".mksrv.tmp"}
  }

  /** The temporary file is filled, and its mode set. */
  lemma FillEnds(a: Disk, file: string, mode: string, input: string, mid: Disk, last: Disk)
    requires Performs(a, Fill(file), input, mid) && Performs(mid, SetMode(mode, file), input, last)
    ensures last.dirs == a.dirs && last.files == a.files[file := File(input, mode)]
  {
  }

  lemma RenameEnds(a: Disk, path: string, file: File, start: Disk, last: Disk, b: Disk)
    requires start.files == a.files && a.dirs <= start.dirs && last.dirs == start.dirs
    requires last.files == a.files[Tmp(path) := file]
    requires Performs(last, Rename(Tmp(path), path), file.content, b)
    ensures Replaced(a, path, file, b)
  {
    assert last.files - {Tmp(path)} == a.files - {Tmp(path)};
  }

  /**
   * A write whose every command succeeds leaves the file it was given, with its mode, in place of what the name held
   * before, and touches nothing else.
   */
  lemma CompleteWriteReplaces(path: string, mode: string, acts: seq<Action>, a: Disk, input: string, b: Disk)
    requires WritesTo(acts, path, mode) && Completes(a, acts, input, b)
    ensures Replaced(a, path, File(input, mode), b)
  {
    var start := QuietFirst(a, acts, 6, input, b);
    var two, one := acts[6..][1..], acts[6..][1..][1..];
    var mid :| Performs(start, acts[6..][0], input, mid) && Completes(mid, two, input, b);
    var last :| Performs(mid, two[0], input, last) && Completes(last, one, input, b);
    FillEnds(start, Tmp(path), mode, input, mid, last);
    var end :| Performs(last, one[0], input, end) && Completes(end, one[1..], input, b);
    RenameEnds(a, path, File(input, mode), start, last, end);
  }

  /**
   * A write that ends anywhere before, killed or failed, has put nothing under the name, or all of its input: nobody
   * ever reads a part of it there.
   */
  lemma StoppedWriteIsAllOrNothing(path: string, mode: string, acts: seq<Action>, a: Disk, input: string, b: Disk)
    requires WritesTo(acts, path, mode) && Stops(a, acts, input, b)
    ensures Untouched(a, path, b) || Replaced(a, path, File(input, mode), b)
  {
    QuietStops(a, acts, 6, input, b);
    if !(b.files == a.files && a.dirs <= b.dirs) {
      var start: Disk :| start.files == a.files && a.dirs <= start.dirs && Stops(start, acts[6..], input, b);
      TailStops(a, path, mode, input, start, acts[6..], b);
    }
  }

  lemma TailStops(a: Disk, path: string, mode: string, input: string, start: Disk, tail: seq<Action>, b: Disk)
    requires start.files == a.files && a.dirs <= start.dirs
    requires tail == [Fill(Tmp(path)), SetMode(mode, Tmp(path)), Rename(Tmp(path), path)]
    requires Stops(start, tail, input, b)
    ensures Untouched(a, path, b) || Replaced(a, path, File(input, mode), b)
  {
    if !Breaks(start, tail[0], input, b) {
      var two, one := tail[1..], tail[1..][1..];
      var mid :| Performs(start, tail[0], input, mid) && Stops(mid, two, input, b);
      if !Breaks(mid, two[0], input, b) {
        var last :| Performs(mid, two[0], input, last) && Stops(last, one, input, b);
        FillEnds(start, Tmp(path), mode, input, mid, last);
        assert one[1..] == [] && !exists end :: Performs(last, one[0], input, end) && Stops(end, [], input, b);
        assert Breaks(last, one[0], input, b);
        if last != b {
          RenameEnds(a, path, File(input, mode), start, last, b);
        }
      }
    }
  }

  /** Writes of one file that stop, one after the other, each with what it had to write. */
  ghost predicate Tries(a: Disk, acts: seq<Action>, inputs: seq<string>, b: Disk)
    decreases |inputs|
  {
    if inputs == [] then a == b
    else exists mid :: Stops(a, acts, inputs[0], mid) && Tries(mid, acts, inputs[1..], b)
  }

  /** The name holds what it held before, or one of the inputs, whole. */
  ghost predicate OldOrWhole(a: Disk, path: string, mode: string, inputs: seq<string>, b: Disk) {
    || (if path in a.files then path in b.files && b.files[path] == a.files[path] else path !in b.files)
    || exists k :: 0 <= k < |inputs| && path in b.files && b.files[path] == File(inputs[k], mode)
  }

  /** The other names, the temporary one excepted. */
  function Others(disk: Disk, path: string): map<string, File> {
    disk.files - {path, path + ".mksrv.tmp"}
  }

  lemma TryIsWhole(path: string, mode: string, input: string, a: Disk, b: Disk)
    requires path !in b.dirs && (Untouched(a, path, b) || Replaced(a, path, File(input, mode), b))
    ensures a.dirs <= b.dirs && Others(b, path) == Others(a, path) && OldOrWhole(a, path, mode, [input], b)
  {
    if Untouched(a, path, b) {
      var tmp := path + ".mksrv.tmp";
      assert path != tmp;
      assert Others(b, path) == (b.files - {tmp}) - {path} && Others(a, path) == (a.files - {tmp}) - {path};
      assert path in b.files <==> path in b.files - {tmp};
      assert path in a.files <==> path in a.files - {tmp};
    } else {
      assert b.files[path] == File([input][0], mode);
    }
  }

  /** However often a write is tried and stops, the name holds the old file or one of the new ones, and never a part. */
  lemma {:induction false} TriesAreWhole(path: string, mode: string, acts: seq<Action>, a: Disk,
                                         inputs: seq<string>, b: Disk)
    requires WritesTo(acts, path, mode) && Tries(a, acts, inputs, b) && path !in b.dirs
    ensures a.dirs <= b.dirs && Others(b, path) == Others(a, path) && OldOrWhole(a, path, mode, inputs, b)
    decreases |inputs|
  {
    if inputs != [] {
      var mid :| Stops(a, acts, inputs[0], mid) && Tries(mid, acts, inputs[1..], b);
      StoppedWriteIsAllOrNothing(path, mode, acts, a, inputs[0], mid);
      TriesGrow(acts, inputs[1..], path, mode, mid, b);
      TryIsWhole(path, mode, inputs[0], a, mid);
      TriesAreWhole(path, mode, acts, mid, inputs[1..], b);
      OldOrWholeSteps(a, path, mode, inputs, mid, b);
    }
  }

  lemma {:induction false} TriesGrow(acts: seq<Action>, inputs: seq<string>, path: string, mode: string,
                                     a: Disk, b: Disk)
    requires WritesTo(acts, path, mode) && Tries(a, acts, inputs, b)
    ensures a.dirs <= b.dirs
    decreases |inputs|
  {
    if inputs != [] {
      var mid :| Stops(a, acts, inputs[0], mid) && Tries(mid, acts, inputs[1..], b);
      StoppedWriteIsAllOrNothing(path, mode, acts, a, inputs[0], mid);
      TriesGrow(acts, inputs[1..], path, mode, mid, b);
    }
  }

  lemma OldOrWholeSteps(a: Disk, path: string, mode: string, inputs: seq<string>, mid: Disk, b: Disk)
    requires inputs != [] && OldOrWhole(a, path, mode, [inputs[0]], mid) && OldOrWhole(mid, path, mode, inputs[1..], b)
    ensures OldOrWhole(a, path, mode, inputs, b)
  {
    if k :| 0 <= k < |inputs[1..]| && path in b.files && b.files[path] == File(inputs[1..][k], mode) {
      assert b.files[path] == File(inputs[k + 1], mode);
    }
  }

  lemma PutIsSame(m: map<string, File>, n: map<string, File>, path: string, tmp: string, file: File)
    requires m - {path, tmp} == n - {path, tmp}
    ensures (m - {tmp})[path := file] == (n - {tmp})[path := file]
  {
    assert forall name :: name != path && name != tmp ==> (name in m <==> name in m - {path, tmp});
    assert forall name :: name != path && name != tmp ==> (name in n <==> name in n - {path, tmp});
    assert forall name :: name in m - {path, tmp} ==> m[name] == (m - {path, tmp})[name] == n[name];
  }

  /** A write that completes after any number that did not leaves no trace of them. */
  lemma RetryHeals(path: string, mode: string, acts: seq<Action>, a: Disk, inputs: seq<string>, mid: Disk,
                   input: string, b: Disk)
    requires WritesTo(acts, path, mode) && path !in b.dirs
    requires Tries(a, acts, inputs, mid) && Completes(mid, acts, input, b)
    ensures b.files == (a.files - {path + ".mksrv.tmp"})[path := File(input, mode)]
  {
    CompleteWriteReplaces(path, mode, acts, mid, input, b);
    TriesAreWhole(path, mode, acts, a, inputs, mid);
    PutIsSame(mid.files, a.files, path, path + ".mksrv.tmp", File(input, mode));
  }

  /** The disk that quiet commands leave at least. */
  function QuietDisk(a: Disk, acts: seq<Action>): (r: Disk)
    ensures r.files == a.files
    ensures forall dir :: dir in r.dirs <==> dir in a.dirs || MakeDirs(dir) in acts
    decreases |acts|
  {
    if acts == [] then a
    else
      var first := acts[0];
      assert acts == [first] + acts[1..];
      QuietDisk(if first.MakeDirs? then Disk(a.files, a.dirs + {first.dir}) else a, acts[1..])
  }

  lemma {:induction false} QuietRuns(a: Disk, quiet: seq<Action>, rest: seq<Action>, input: string, b: Disk)
    requires forall i :: 0 <= i < |quiet| ==> quiet[i].Nothing? || quiet[i].MakeDirs?
    requires Completes(QuietDisk(a, quiet), rest, input, b)
    ensures Completes(a, quiet + rest, input, b)
    decreases |quiet|
  {
    if quiet == [] {
      assert quiet + rest == rest;
    } else {
      var first := quiet[0];
      var next := if first.MakeDirs? then Disk(a.files, a.dirs + {first.dir}) else a;
      QuietRuns(next, quiet[1..], rest, input, b);
      assert (quiet + rest)[0] == first && (quiet + rest)[1..] == quiet[1..] + rest;
      assert Performs(a, first, input, next);
    }
  }

  lemma TailRuns(a: Disk, tail: seq<Action>, path: string, mode: string, input: string) returns (b: Disk)
    requires tail == [Fill(Tmp(path)), SetMode(mode, Tmp(path)), Rename(Tmp(path), path)]
    requires IsFileName(path) && Tmp(path) !in a.dirs
    ensures Completes(a, tail, input, b)
  {
    var tmp, two, one := Tmp(path), tail[1..], tail[1..][1..];
    var made := if tmp in a.files then a.files[tmp].mode else mode;
    var mid := Disk(a.files[tmp := File(input, made)], a.dirs);
    var last := Disk(a.files[tmp := File(input, mode)], a.dirs);
    var to := if path in a.dirs then path + "/" + "" else path;
    b := Disk((last.files - {tmp})[to := File(input, mode)], a.dirs);
    assert Performs(a, tail[0], input, mid) && Performs(mid, two[0], input, last);
    assert path in a.dirs ==> '/' !in "" && b.files == (last.files - {tmp})[path + "/" + "" := last.files[tmp]];
    assert Performs(last, one[0], input, b) && Completes(b, one[1..], input, b);
    assert Completes(last, one, input, b);
    assert Completes(mid, two, input, b);
  }

  lemma TailNeeds(a: Disk, tail: seq<Action>, path: string, mode: string, input: string, b: Disk)
    requires tail == [Fill(Tmp(path)), SetMode(mode, Tmp(path)), Rename(Tmp(path), path)]
    requires Completes(a, tail, input, b)
    ensures IsFileName(path) && Tmp(path) !in a.dirs
  {
    var two, one := tail[1..], tail[1..][1..];
    var mid :| Performs(a, tail[0], input, mid) && Completes(mid, two, input, b);
    var last :| Performs(mid, two[0], input, last) && Completes(last, one, input, b);
    var end :| Performs(last, one[0], input, end) && Completes(end, one[1..], input, b);
  }

  /** Where nothing fails on its own account, a write can complete exactly if both of its names can be files. */
  lemma WriteCompletesIff(path: string, mode: string, acts: seq<Action>, a: Disk, input: string)
    requires WritesTo(acts, path, mode)
    ensures (exists b :: Completes(a, acts, input, b))
       <==> IsFileName(path) && path + ".mksrv.tmp" !in a.dirs && MakeDirs(path + ".mksrv.tmp") !in acts
  {
    if b :| Completes(a, acts, input, b) {
      var mid := QuietFirst(a, acts, 6, input, b);
      TailNeeds(mid, acts[6..], path, mode, input, b);
      assert acts == acts[..6] + acts[6..];
    }
    if IsFileName(path) && Tmp(path) !in a.dirs && MakeDirs(Tmp(path)) !in acts {
      assert acts == acts[..6] + acts[6..];
      var mid := QuietDisk(a, acts[..6]);
      var b := TailRuns(mid, acts[6..], path, mode, input);
      QuietRuns(a, acts[..6], acts[6..], input, b);
      assert Completes(a, acts, input, b);
    }
  }
}
