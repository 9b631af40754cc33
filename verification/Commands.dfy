/**
 * The remote commands that carry arguments through a shell (internal/headscale/headscale.go, internal/cli/openbao.go,
 * internal/ssh/ssh.go).
 */
module Commands {
  import opened Text
  import opened Shell

  function QuotedWords(args: seq<string>): (r: seq<Spelling>)
    ensures |r| == |args| && AreSpellings(r) && forall i :: 0 <= i < |r| ==> r[i] == [Quoted(args[i])]
  {
    seq(|args|, i requires 0 <= i < |args| => [Quoted(args[i])])
  }

  function BareWords(texts: seq<string>): (r: seq<Spelling>)
    requires forall i :: 0 <= i < |texts| ==> IsBare(texts[i])
    ensures |r| == |texts| && AreSpellings(r) && forall i :: 0 <= i < |r| ==> r[i] == [Bare(texts[i])]
  {
    seq(|texts|, i requires 0 <= i < |texts| => [Bare(texts[i])])
  }

  function QuoteAll(args: seq<string>): (r: seq<string>)
    ensures |r| == |args| && forall i :: 0 <= i < |r| ==> r[i] == Quote(args[i])
  {
    seq(|args|, i requires 0 <= i < |args| => Quote(args[i]))
  }

  lemma OnePiece(env: Env, p: Piece)
    ensures Render([p]) == RenderPiece(p) && Meaning(env, [p]) == Sense(env, p)
  {
    AddNothing(RenderPiece(p));
    AddNothing(Sense(env, p));
  }

  lemma {:induction false} SpacedAppend(a: seq<Spelling>, b: seq<Spelling>)
    ensures Spaced(a + b) == Spaced(a) + Spaced(b)
    decreases |a|
  {
    if a == [] {
      assert a + b == b;
    } else {
      assert (a + b)[1..] == a[1..] + b;
      SpacedAppend(a[1..], b);
    }
  }

  lemma CommandAppend(a: seq<Spelling>, b: seq<Spelling>)
    requires a != []
    ensures Command(a + b) == Command(a) + Spaced(b)
  {
    assert (a + b)[1..] == a[1..] + b;
    SpacedAppend(a[1..], b);
  }

  lemma OneQuoted(arg: string)
    ensures Render([Quoted(arg)]) == Quote(arg) && Spaced([[Quoted(arg)]]) == " " + Quote(arg)
  {
    AddNothing(Quote(arg));
    assert Spaced([[Quoted(arg)]]) == " " + Render([Quoted(arg)]) + Spaced([]);
    AddNothing(" " + Quote(arg));
  }

  lemma SpacedBySteps(args: seq<string>, i: nat)
    requires i < |args|
    ensures Spaced(QuotedWords(args[..i + 1])) == Spaced(QuotedWords(args[..i])) + (" " + Quote(args[i]))
  {
    var last := [[Quoted(args[i])]];
    assert QuotedWords(args[..i + 1]) == QuotedWords(args[..i]) + last;
    SpacedAppend(QuotedWords(args[..i]), last);
    OneQuoted(args[i]);
  }

  lemma JoinFirst(parts: seq<string>, sep: string)
    requires |parts| > 1
    ensures sep + Join(parts, sep) == sep + parts[0] + (sep + Join(parts[1..], sep))
  {
    Regroup(parts[0], sep, Join(parts[1..], sep));
    Regroup(sep, parts[0], sep + Join(parts[1..], sep));
  }

  lemma QuotedTail(args: seq<string>)
    requires args != []
    ensures QuotedWords(args)[1..] == QuotedWords(args[1..]) && QuoteAll(args)[1..] == QuoteAll(args[1..])
  {
  }

  lemma {:induction false} SpacedJoin(args: seq<string>)
    requires args != []
    ensures Spaced(QuotedWords(args)) == " " + Join(QuoteAll(args), " ")
    decreases |args|
  {
    OneQuoted(args[0]);
    QuotedTail(args);
    if |args| == 1 {
      AddNothing(" " + Quote(args[0]));
    } else {
      SpacedJoin(args[1..]);
      JoinFirst(QuoteAll(args), " ");
    }
  }

  lemma MeaningsOfQuoted(env: Env, args: seq<string>)
    ensures Meanings(env, QuotedWords(args)) == args
  {
    forall i | 0 <= i < |args| ensures Meaning(env, QuotedWords(args)[i]) == args[i] {
      OnePiece(env, Quoted(args[i]));
    }
  }

  lemma MeaningsOfBare(env: Env, texts: seq<string>)
    requires forall i :: 0 <= i < |texts| ==> IsBare(texts[i])
    ensures Meanings(env, BareWords(texts)) == texts
  {
    forall i | 0 <= i < |texts| ensures Meaning(env, BareWords(texts)[i]) == texts[i] {
      OnePiece(env, Bare(texts[i]));
    }
  }

  lemma MeaningsAppend(env: Env, a: seq<Spelling>, b: seq<Spelling>)
    ensures Meanings(env, a + b) == Meanings(env, a) + Meanings(env, b)
  {
  }

  /** Words, then quoted arguments. */
  lemma ArgumentsArrive(env: Env, words: seq<Spelling>, args: seq<string>)
    requires words != [] && AreSpellings(words)
    ensures Tokens(env, Command(words) + Spaced(QuotedWords(args))) == Some(Words(Meanings(env, words) + args))
  {
    CommandAppend(words, QuotedWords(args));
    CommandRoundTrip(env, words + QuotedWords(args));
    MeaningsAppend(env, words, QuotedWords(args));
    MeaningsOfQuoted(env, args);
  }

  /** ... or joined by spaces, where no arguments leave nothing but a trailing space. */
  lemma JoinedArgumentsArrive(env: Env, words: seq<Spelling>, args: seq<string>)
    requires words != [] && AreSpellings(words)
    ensures Tokens(env, Command(words) + " " + Join(QuoteAll(args), " ")) == Some(Words(Meanings(env, words) + args))
  {
    if args == [] {
      CommandRoundTrip(env, words);
      AddNothing(Command(words) + " ");
      assert Meanings(env, words) + args == Meanings(env, words);
    } else {
      ArgumentsArrive(env, words, args);
      SpacedJoin(args);
      Regroup(Command(words), " ", Join(QuoteAll(args), " "));
    }
  }

  /** `sudo podman exec mksrv-headscale headscale`. */
  const HEADSCALE := ["sudo", "podman", "exec", "mksrv-headscale", "headscale"]

  lemma HeadscaleWords()
    ensures forall i :: 0 <= i < |HEADSCALE| ==> IsBare(HEADSCALE[i])
  {
    assert IsBare("sudo") && IsBare("podman") && IsBare("exec");
    assert IsBare("mksrv-headscale");
    assert IsBare("headscale");
  }

  lemma {:induction false} BareCommand(texts: seq<string>)
    requires texts != [] && forall i :: 0 <= i < |texts| ==> IsBare(texts[i])
    ensures Command(BareWords(texts)) == Join(texts, " ")
    decreases |texts|
  {
    AddNothing(texts[0]);
    assert Render([Bare(texts[0])]) == texts[0];
    if |texts| > 1 {
      var rest := BareWords(texts[1..]);
      assert BareWords(texts)[1..] == rest;
      BareCommand(texts[1..]);
      assert Spaced(rest) == " " + Render(rest[0]) + Spaced(rest[1..]);
      Regroup(" ", Render(rest[0]), Spaced(rest[1..]));
      Regroup(texts[0], " ", Render(rest[0]) + Spaced(rest[1..]));
    }
  }

  /** `Client.run` of the mesh client: the command it hands to the remote shell. */
  method HeadscaleCommand(args: seq<string>) returns (command: string)
    ensures forall env ::
              Tokens(env, command) == Some(Words(["sudo", "podman", "exec", "mksrv-headscale", "headscale"] + args))
  {
    var quoted := new string[|args|];
    var i := 0;
    while i < |args|
      invariant 0 <= i <= |args|
      invariant quoted[..i] == QuoteAll(args)[..i]
    {
      quoted[i] := "'" + Escaped(args[i]) + "'";
      i := i + 1;
    }
    assert quoted[..] == QuoteAll(args);
    command := Join(HEADSCALE, " ") + " " + Join(quoted[..], " ");
    HeadscaleWords();
    BareCommand(HEADSCALE);
    forall env ensures Tokens(env, command) == Some(Words(HEADSCALE + args)) {
      JoinedArgumentsArrive(env, BareWords(HEADSCALE), args);
      MeaningsOfBare(env, HEADSCALE);
    }
  }

  /** `sudo podman exec -i -e BAO_ADDR=http://127.0.0.1:8200`. */
  const BAO := ["sudo", "podman", "exec", "-i", "-e", "BAO_ADDR=http://127.0.0.1:8200"]

  const BAO_CONTAINER := ["mksrv-openbao", "bao"]

  lemma BaoWords()
    ensures forall i :: 0 <= i < |BAO| ==> IsBare(BAO[i])
    ensures forall i :: 0 <= i < |BAO_CONTAINER| ==> IsBare(BAO_CONTAINER[i])
    ensures IsBare("-e") && IsBare("BAO_TOKEN=")
  {
    assert IsBare("sudo") && IsBare("podman") && IsBare("exec") && IsBare("-i");
    assert IsBare("BAO_ADDR=http://127.0.0.1:8200");
    assert IsBare("mksrv-openbao") && IsBare("bao");
  }

  /** The environment entry that carries a token. */
  function TokenWords(token: string): seq<Spelling> {
    if token == "" then [] else [[Bare("-e")], [Bare("BAO_TOKEN="), Quoted(token)]]
  }

  function TokenTexts(token: string): seq<string> {
    if token == "" then [] else ["-e", "BAO_TOKEN=" + token]
  }

  lemma SpacedTwo(a: Spelling, b: Spelling)
    ensures Spaced([a, b]) == " " + Render(a) + (" " + Render(b))
  {
    assert [a, b][1..] == [b] && [b][1..] == [];
    assert Spaced([b]) == " " + Render(b) + Spaced([]);
    assert " " + Render(b) + "" == " " + Render(b);
  }

  lemma TwoPieces(env: Env, p: Piece, q: Piece)
    ensures Render([p, q]) == RenderPiece(p) + RenderPiece(q) && Meaning(env, [p, q]) == Sense(env, p) + Sense(env, q)
  {
    assert [p, q][1..] == [q];
    OnePiece(env, q);
  }

  lemma OptionArrives(env: Env, option: string, name: string, value: string)
    requires IsBare(option) && IsBare(name)
    ensures Spaced([[Bare(option)], [Bare(name), Quoted(value)]]) == " " + option + (" " + name) + Quote(value)
    ensures AreSpellings([[Bare(option)], [Bare(name), Quoted(value)]])
    ensures Meanings(env, [[Bare(option)], [Bare(name), Quoted(value)]]) == [option, name + value]
  {
    var first, second := [Bare(option)], [Bare(name), Quoted(value)];
    SpacedTwo(first, second);
    OnePiece(env, first[0]);
    TwoPieces(env, second[0], second[1]);
    assert " " + option + (" " + (name + Quote(value))) == " " + option + (" " + name) + Quote(value);
  }

  lemma TwoBareWords(texts: seq<string>)
    requires |texts| == 2 && IsBare(texts[0]) && IsBare(texts[1])
    ensures Spaced(BareWords(texts)) == " " + texts[0] + (" " + texts[1])
  {
    var words := BareWords(texts);
    assert words == [words[0], words[1]];
    SpacedTwo(words[0], words[1]);
    AddNothing(texts[0]);
    AddNothing(texts[1]);
  }

  lemma ContainerLine(texts: seq<string>)
    requires |texts| == 2 && texts[0] == "mksrv-openbao" && texts[1] == "bao" && IsBare(texts[0]) && IsBare(texts[1])
    ensures Spaced(BareWords(texts)) == " mksrv-openbao bao"
  {
    TwoBareWords(texts);
  }

  lemma ThreeParts(env: Env, a: seq<Spelling>, b: seq<Spelling>, c: seq<Spelling>)
    requires a != []
    ensures Command(a + b + c) == Command(a) + Spaced(b) + Spaced(c)
    ensures Meanings(env, a + b + c) == Meanings(env, a) + Meanings(env, b) + Meanings(env, c)
  {
    CommandAppend(a, b);
    CommandAppend(a + b, c);
    MeaningsAppend(env, a, b);
    MeaningsAppend(env, a + b, c);
  }

  lemma BareAround(env: Env, head: seq<string>, middle: seq<Spelling>, tail: seq<string>)
    requires head != [] && AreSpellings(middle)
    requires forall i :: 0 <= i < |head| ==> IsBare(head[i])
    requires forall i :: 0 <= i < |tail| ==> IsBare(tail[i])
    ensures AreSpellings(BareWords(head) + middle + BareWords(tail))
    ensures Command(BareWords(head) + middle + BareWords(tail))
         == Join(head, " ") + Spaced(middle) + Spaced(BareWords(tail))
    ensures Meanings(env, BareWords(head) + middle + BareWords(tail)) == head + Meanings(env, middle) + tail
  {
    BareCommand(head);
    MeaningsOfBare(env, head);
    MeaningsOfBare(env, tail);
    ThreeParts(env, BareWords(head), middle, BareWords(tail));
  }

  lemma TokenArrives(env: Env, token: string, option: string, name: string)
    requires option == "-e" && name == "BAO_TOKEN=" && IsBare(option) && IsBare(name)
    ensures AreSpellings(TokenWords(token)) && Meanings(env, TokenWords(token)) == TokenTexts(token)
    ensures token == "" ==> Spaced(TokenWords(token)) == ""
    ensures token != "" ==> Spaced(TokenWords(token)) == " " + option + (" " + name) + Quote(token)
  {
    OptionArrives(env, option, name, token);
  }

  /** A space and a quoted argument, one after the other. */
  method QuoteEach(head: string, args: seq<string>) returns (command: string)
    ensures command == head + Spaced(QuotedWords(args))
  {
    command := head;
    assert head + "" == head;
    for i := 0 to |args|
      invariant command == head + Spaced(QuotedWords(args[..i]))
    {
      SpacedBySteps(args, i);
      Regroup(head, Spaced(QuotedWords(args[..i])), " " + Quote(args[i]));
      command := command + (" " + Quote(args[i]));
    }
    assert args[..|args|] == args;
  }

  /** `baoExec`. */
  method BaoExec(token: string, args: seq<string>) returns (command: string)
    ensures var to := ["sudo", "podman", "exec", "-i", "-e", "BAO_ADDR=http://127.0.0.1:8200"];
            var with := if token == "" then [] else ["-e", "BAO_TOKEN=" + token];
            forall env :: Tokens(env, command) == Some(Words(to + with + ["mksrv-openbao", "bao"] + args))
  {
    command := Join(BAO, " ");
    AddNothing(command);
    if token != "" {
      command := command + (" " + "-e" + (" " + "BAO_TOKEN=") + Quote(token));
    }
    command := command + " mksrv-openbao bao";
    ghost var line := command;
    command := QuoteEach(command, args);
    forall env ensures Tokens(env, command) == Some(Words(BAO + TokenTexts(token) + BAO_CONTAINER + args)) {
      BaoLine(env, token, line);
      ArgumentsArrive(env, BaoWordsOf(token), args);
    }
  }

  function BaoWordsOf(token: string): seq<Spelling> {
    BaoWords();
    BareWords(BAO) + TokenWords(token) + BareWords(BAO_CONTAINER)
  }

  lemma BaoLine(env: Env, token: string, line: string)
    requires line == (if token == "" then Join(BAO, " ")
                      else Join(BAO, " ") + (" " + "-e" + (" " + "BAO_TOKEN=") + Quote(token))) + " mksrv-openbao bao"
    ensures AreSpellings(BaoWordsOf(token)) && Command(BaoWordsOf(token)) == line
    ensures Meanings(env, BaoWordsOf(token)) == BAO + TokenTexts(token) + BAO_CONTAINER
  {
    BaoWords();
    TokenArrives(env, token, "-e", "BAO_TOKEN=");
    ContainerLine(BAO_CONTAINER);
    BareAround(env, BAO, TokenWords(token), BAO_CONTAINER);
    AddNothing(Join(BAO, " "));
  }

  /** `sudo -n sh -c`. */
  const SUDO_SH := ["sudo", "-n", "sh", "-c"]

  /** The outer layer of `WriteFileSudo`: the script reaches the inner shell as its one argument, whatever it holds. */
  lemma ScriptArrives(env: Env, script: string)
    ensures Tokens(env, "sudo -n sh -c " + Quote(script)) == Some(Words(["sudo", "-n", "sh", "-c", script]))
  {
    assert IsBare("sudo") && IsBare("-n") && IsBare("sh") && IsBare("-c");
    BareCommand(SUDO_SH);
    MeaningsOfBare(env, SUDO_SH);
    JoinedArgumentsArrive(env, BareWords(SUDO_SH), [script]);
    assert Join(QuoteAll([script]), " ") == Quote(script);
    SudoText();
    assert SUDO_SH + [script] == ["sudo", "-n", "sh", "-c", script];
  }

  /** `%04o` of permission bits. */
  function Octal(mode: nat): (s: string)
    requires mode < 512
    ensures IsBare(s) && |s| == 4
  {
    ['0', '0' + (mode / 64) as char, '0' + (mode / 8 % 8) as char, '0' + (mode % 8) as char]
  }

  /** The value of an octal digit. */
  function Digit(c: char): int {
    c as int - '0' as int
  }

  /** The mode is what its four digits say in base eight. */
  lemma OctalReads(mode: nat)
    requires mode < 512
    ensures var s := Octal(mode);
            && s[0] == '0' && (forall i :: 0 <= i < 4 ==> '0' <= s[i] <= '7')
            && mode == 64 * Digit(s[1]) + 8 * Digit(s[2]) + Digit(s[3])
  {
  }

  /** `dirname "$p"`, the command whose output the script assigns to d. */
  function Dirname(): seq<Spelling> {
    [[Bare("dirname")], [Expanded("p", "")]]
  }

  const TMP := ".mksrv.tmp"

  /**
   * The script of `WriteFileSudo`, command by command: `set -e`, the assignments of the quoted path to p, of the mode
   * to m, of the output of `dirname "$p"` to d; `mkdir -p "$d"`; `t="$p.mksrv.tmp"`; `cat > "$t"`; `chmod "$m" "$t"`;
   * `mv -f "$t" "$p"`.
   */
  function WriteScript(path: string, mode: nat): seq<Simple>
    requires mode < 512
  {
    [Simple([[Bare("set")], [Bare("-e")]], None),
     Simple([[Bare("p="), Quoted(path)]], None),
     Simple([[Bare("m="), Bare(Octal(mode))]], None),
     Simple([[Assigned("d", Command(Dirname()))]], None),
     Simple([[Bare("mkdir")], [Bare("-p")], [Expanded("d", "")]], None),
     Simple([[Bare("t="), Expanded("p", TMP)]], None),
     Simple([[Bare("cat")]], Some([Expanded("t", "")])),
     Simple([[Bare("chmod")], [Expanded("m", "")], [Expanded("t", "")]], None),
     Simple([[Bare("mv")], [Bare("-f")], [Expanded("t", "")], [Expanded("p", "")]], None)]
  }

  /** Commands with semicolons between them. */
  function Separated(commands: seq<seq<Token>>): seq<Token> {
    if commands == [] then []
    else commands[0] + if |commands| == 1 then [] else [Semicolon] + Separated(commands[1..])
  }

  function AllTokens(env: Env, commands: seq<Simple>): (r: seq<seq<Token>>)
    ensures |r| == |commands| && forall i :: 0 <= i < |r| ==> r[i] == SimpleTokens(env, commands[i])
  {
    seq(|commands|, i requires 0 <= i < |commands| => SimpleTokens(env, commands[i]))
  }

  lemma {:induction false} ScriptIsSeparated(env: Env, commands: seq<Simple>)
    requires commands != []
    ensures ScriptTokens(env, commands) == Separated(AllTokens(env, commands))
    decreases |commands|
  {
    if |commands| > 1 {
      assert AllTokens(env, commands)[1..] == AllTokens(env, commands[1..]);
      ScriptIsSeparated(env, commands[1..]);
    }
  }

  /** What the inner shell is to run: the commands with the path, the mode and the directory in place. */
  function WriteTokens(path: string, mode: string, dir: string): seq<seq<Token>> {
    var tmp := path + TMP;
    [Words(["set", "-e"]), Words(["p=" + path]), Words(["m=" + mode]), Words(["d=" + dir]), Words(["mkdir", "-p", dir]),
     Words(["t=" + tmp]), Words(["cat"]) + [Great, Word(tmp)], Words(["chmod", mode, tmp]),
     Words(["mv", "-f", tmp, path])]
  }

  lemma NamesAreNames()
    ensures IsName("p") && IsName("m") && IsName("d") && IsName("t") && IsSuffix("") && IsSuffix(TMP)
  {
    assert IsName("p") && IsName("m") && IsName("d") && IsName("t");
    assert TMP[0] == '.' && forall i :: 0 <= i < |TMP| ==> IsPlain(TMP[i]);
  }

  lemma WordsAreBare()
    ensures IsBare("set") && IsBare("-e") && IsBare("p=") && IsBare("m=") && IsBare("d") && IsBare("t=")
    ensures IsBare("mkdir") && IsBare("-p") && IsBare("cat") && IsBare("chmod") && IsBare("mv") && IsBare("-f")
    ensures IsBare("dirname")
  {
    assert IsBare("set") && IsBare("-e") && IsBare("p=") && IsBare("m=") && IsBare("d") && IsBare("t=");
    assert IsBare("mkdir") && IsBare("-p") && IsBare("cat");
    assert IsBare("chmod") && IsBare("mv") && IsBare("-f") && IsBare("dirname");
  }

  lemma DirnameIsInner()
    ensures Command(Dirname()) == "dirname" + (" " + "\"$p\"")
    ensures forall i :: 0 <= i < |Command(Dirname())| ==> IsInner(Command(Dirname())[i])
  {
    var words := Dirname();
    AddNothing("dirname");
    var p := RenderPiece(words[1][0]);
    assert p == "\"$" + ("p" + ("" + "\"")) == "\"$p\"";
    AddNothing(p);
    assert words[1..] == [words[1]] && Spaced([words[1]]) == " " + Render(words[1]) + Spaced([]);
    AddNothing(" " + p);
    var text := "dirname" + (" " + p);
    assert Command(words) == text;
    WordsAreBare();
    forall i | 0 <= i < |text| ensures IsInner(text[i]) {
      if i < 7 { assert text[i] == "dirname"[i]; } else { assert text[i] == (" " + p)[i - 7]; }
    }
  }

  /** Every command of the script is one the reader reads back. */
  lemma WriteScriptIsSimple(path: string, mode: nat)
    requires mode < 512
    ensures forall i :: 0 <= i < |WriteScript(path, mode)| ==> IsSimple(WriteScript(path, mode)[i])
  {
    NamesAreNames();
    WordsAreBare();
    DirnameIsInner();
  }

  lemma TextsOf(env: Env, words: seq<Spelling>, texts: seq<string>)
    requires |words| == |texts| && forall i :: 0 <= i < |words| ==> Meaning(env, words[i]) == texts[i]
    ensures SimpleTokens(env, Simple(words, None)) == Words(texts)
  {
    assert Words(texts) + [] == Words(texts);
  }

  lemma OneWordMeans(env: Env, w: Spelling)
    ensures SimpleTokens(env, Simple([w], None)) == Words([Meaning(env, w)])
  {
    TextsOf(env, [w], [Meaning(env, w)]);
  }

  lemma PiecesMean(env: Env, pieces: seq<Piece>, words: seq<Spelling>, texts: seq<string>)
    requires |words| == |texts| == |pieces|
    requires forall i :: 0 <= i < |words| ==> words[i] == [pieces[i]] && texts[i] == Sense(env, pieces[i])
    ensures SimpleTokens(env, Simple(words, None)) == Words(texts)
  {
    forall i | 0 <= i < |words| ensures Meaning(env, words[i]) == texts[i] {
      OnePiece(env, pieces[i]);
    }
    TextsOf(env, words, texts);
  }

  /** `"$name"` stands for the value. */
  lemma SenseOfParam(env: Env, name: string)
    ensures Sense(env, Expanded(name, "")) == Value(env, name)
  {
    AddNothing(Value(env, name));
  }

  /** A lone assignment: the word it is, and the parameter it sets. */
  lemma AssignmentRuns(env: Env, w: Spelling, name: string, value: string)
    requires Assignee(w) == Some(name) && Meaning(env, w) == name + "=" + value
    ensures SimpleTokens(env, Simple([w], None)) == Words([name + "=" + value])
    ensures After(env, Simple([w], None)) == env.(params := env.params[name := value])
  {
    OneWordMeans(env, w);
    assert Behind(name + "=" + value, |name| + 1) == value;
  }

  lemma BareTarget(text: string, name: string)
    requires |name| == 1 && IsName(name) && text == name + "=" && '=' !in name
    ensures Target(text) == name && Assignee([Bare(text)]) == Some(name)
  {
    assert text[1..] == "=" && Target(text[1..]) == "";
  }

  lemma PathIsAssigned(env: Env, path: string)
    ensures var c := Simple([[Bare("p="), Quoted(path)]], None);
            SimpleTokens(env, c) == Words(["p=" + path]) && After(env, c) == env.(params := env.params["p" := path])
  {
    NamesAreNames();
    BareTarget("p=", "p");
    TwoPieces(env, Bare("p="), Quoted(path));
    AssignmentRuns(env, [Bare("p="), Quoted(path)], "p", path);
  }

  lemma ModeIsAssigned(env: Env, mode: string)
    ensures var c := Simple([[Bare("m="), Bare(mode)]], None);
            SimpleTokens(env, c) == Words(["m=" + mode]) && After(env, c) == env.(params := env.params["m" := mode])
  {
    NamesAreNames();
    BareTarget("m=", "m");
    TwoPieces(env, Bare("m="), Bare(mode));
    AssignmentRuns(env, [Bare("m="), Bare(mode)], "m", mode);
  }

  lemma TmpIsAssigned(env: Env, path: string)
    requires Value(env, "p") == path
    ensures var c := Simple([[Bare("t="), Expanded("p", TMP)]], None);
            && SimpleTokens(env, c) == Words(["t=" + (path + TMP)])
            && After(env, c) == env.(params := env.params["t" := path + TMP])
  {
    NamesAreNames();
    BareTarget("t=", "t");
    TwoPieces(env, Bare("t="), Expanded("p", TMP));
    AssignmentRuns(env, [Bare("t="), Expanded("p", TMP)], "t", path + TMP);
  }

  lemma DirectoryIsAssigned(env: Env, command: string)
    ensures var c := Simple([[Assigned("d", command)]], None);
            && SimpleTokens(env, c) == Words(["d=" + Given(env, command)])
            && After(env, c) == env.(params := env.params["d" := Given(env, command)])
  {
    NamesAreNames();
    OnePiece(env, Assigned("d", command));
    assert "d" + "=" == "d=";
    AssignmentRuns(env, [Assigned("d", command)], "d", Given(env, command));
  }

  lemma MkdirMeans(env: Env)
    ensures SimpleTokens(env, Simple([[Bare("mkdir")], [Bare("-p")], [Expanded("d", "")]], None))
         == Words(["mkdir", "-p", Value(env, "d")])
  {
    SenseOfParam(env, "d");
    var pieces := [Bare("mkdir"), Bare("-p"), Expanded("d", "")];
    PiecesMean(env, pieces, [[pieces[0]], [pieces[1]], [pieces[2]]], ["mkdir", "-p", Value(env, "d")]);
  }

  lemma SetMeans(env: Env)
    ensures SimpleTokens(env, Simple([[Bare("set")], [Bare("-e")]], None)) == Words(["set", "-e"])
  {
    var pieces := [Bare("set"), Bare("-e")];
    PiecesMean(env, pieces, [[pieces[0]], [pieces[1]]], ["set", "-e"]);
  }

  lemma CatMeans(env: Env)
    ensures SimpleTokens(env, Simple([[Bare("cat")]], Some([Expanded("t", "")])))
         == Words(["cat"]) + [Great, Word(Value(env, "t"))]
  {
    OnePiece(env, Bare("cat"));
    OnePiece(env, Expanded("t", ""));
    SenseOfParam(env, "t");
    assert Words(Meanings(env, [[Bare("cat")]])) == Words(["cat"]);
  }

  lemma ChmodMeans(env: Env)
    ensures SimpleTokens(env, Simple([[Bare("chmod")], [Expanded("m", "")], [Expanded("t", "")]], None))
         == Words(["chmod", Value(env, "m"), Value(env, "t")])
  {
    SenseOfParam(env, "m");
    SenseOfParam(env, "t");
    var pieces := [Bare("chmod"), Expanded("m", ""), Expanded("t", "")];
    PiecesMean(env, pieces, [[pieces[0]], [pieces[1]], [pieces[2]]], ["chmod", Value(env, "m"), Value(env, "t")]);
  }

  lemma MvMeans(env: Env)
    ensures SimpleTokens(env, Simple([[Bare("mv")], [Bare("-f")], [Expanded("t", "")], [Expanded("p", "")]], None))
         == Words(["mv", "-f", Value(env, "t"), Value(env, "p")])
  {
    SenseOfParam(env, "t");
    SenseOfParam(env, "p");
    var pieces := [Bare("mv"), Bare("-f"), Expanded("t", ""), Expanded("p", "")];
    PiecesMean(env, pieces, [[pieces[0]], [pieces[1]], [pieces[2]], [pieces[3]]],
               ["mv", "-f", Value(env, "t"), Value(env, "p")]);
  }

  /** The shell when p and m are set, when d is, and when t is. */
  function Named(env: Env, path: string, mode: string): Env {
    env.(params := env.params["p" := path]["m" := mode])
  }

  function Placed(env: Env, path: string, mode: string): Env {
    var named := Named(env, path, mode);
    named.(params := named.params["d" := Given(named, Command(Dirname()))])
  }

  function Ready(env: Env, path: string, mode: string): Env {
    var placed := Placed(env, path, mode);
    placed.(params := placed.params["t" := path + TMP])
  }

  /** The shell before each command of the script, and after the last. */
  function Stages(env: Env, path: string, mode: string): seq<Env> {
    var placed, ready := Placed(env, path, mode), Ready(env, path, mode);
    [env, env, env.(params := env.params["p" := path]), Named(env, path, mode), placed, placed,
     ready, ready, ready, ready]
  }

  /** What a shell makes of one command: its tokens, and the shell it leaves. */
  ghost predicate Makes(env: Env, c: Simple, tokens: seq<Token>, next: Env) {
    SimpleTokens(env, c) == tokens && After(env, c) == next
  }

  lemma FirstStages(envs: seq<Env>, commands: seq<Simple>, tokens: seq<seq<Token>>, path: string, mode: nat)
    requires mode < 512 && |envs| == 10 && commands == WriteScript(path, mode)
    requires envs == Stages(envs[0], path, Octal(mode))
    requires tokens == WriteTokens(path, Octal(mode), Given(envs[3], Command(Dirname())))
    ensures Makes(envs[0], commands[0], tokens[0], envs[1]) && Makes(envs[1], commands[1], tokens[1], envs[2])
  {
    SetMeans(envs[0]);
    PathIsAssigned(envs[1], path);
  }

  lemma NextStages(envs: seq<Env>, commands: seq<Simple>, tokens: seq<seq<Token>>, path: string, mode: nat)
    requires mode < 512 && |envs| == 10 && commands == WriteScript(path, mode)
    requires envs == Stages(envs[0], path, Octal(mode))
    requires tokens == WriteTokens(path, Octal(mode), Given(envs[3], Command(Dirname())))
    ensures Makes(envs[2], commands[2], tokens[2], envs[3]) && Makes(envs[3], commands[3], tokens[3], envs[4])
  {
    ModeIsAssigned(envs[2], Octal(mode));
    DirectoryIsAssigned(envs[3], Command(Dirname()));
  }

  lemma LastStages(envs: seq<Env>, commands: seq<Simple>, tokens: seq<seq<Token>>, path: string, mode: nat)
    requires mode < 512 && |envs| == 10 && commands == WriteScript(path, mode)
    requires envs == Stages(envs[0], path, Octal(mode))
    requires tokens == WriteTokens(path, Octal(mode), Given(envs[3], Command(Dirname())))
    ensures Makes(envs[4], commands[4], tokens[4], envs[5]) && Makes(envs[5], commands[5], tokens[5], envs[6])
    ensures Makes(envs[6], commands[6], tokens[6], envs[7]) && Makes(envs[7], commands[7], tokens[7], envs[8])
    ensures Makes(envs[8], commands[8], tokens[8], envs[9])
  {
    MkdirMeans(envs[4]);
    TmpIsAssigned(envs[5], path);
    CatMeans(envs[6]);
    ChmodMeans(envs[7]);
    MvMeans(envs[8]);
  }

  /** Nine commands, each of which makes what it is to make. */
  lemma NineMake(envs: seq<Env>, commands: seq<Simple>, tokens: seq<seq<Token>>)
    requires |envs| == 10 && |commands| == |tokens| == 9
    requires Makes(envs[0], commands[0], tokens[0], envs[1]) && Makes(envs[1], commands[1], tokens[1], envs[2])
    requires Makes(envs[2], commands[2], tokens[2], envs[3]) && Makes(envs[3], commands[3], tokens[3], envs[4])
    requires Makes(envs[4], commands[4], tokens[4], envs[5]) && Makes(envs[5], commands[5], tokens[5], envs[6])
    requires Makes(envs[6], commands[6], tokens[6], envs[7]) && Makes(envs[7], commands[7], tokens[7], envs[8])
    requires Makes(envs[8], commands[8], tokens[8], envs[9])
    ensures Runs(envs, commands) && TokensAlong(envs, commands) == tokens
  {
    forall i | 0 <= i < 9 ensures Makes(envs[i], commands[i], tokens[i], envs[i + 1]) {
      assert i == 0 || i == 1 || i == 2 || i == 3 || i == 4 || i == 5 || i == 6 || i == 7 || i == 8;
    }
  }

  /**
   * The inner layer of `WriteFileSudo`, whatever the path holds and whatever shell runs it: the script is nine
   * commands, and read in turn, each after the assignments before it, they have the path, the mode, the directory and
   * the temporary path each in its place as one word.
   */
  lemma PathArrives(env: Env, path: string, mode: nat)
    requires mode < 512
    ensures forall i :: 0 <= i < |WriteScript(path, mode)| ==> IsSimple(WriteScript(path, mode)[i])
    ensures Tokens(env, Script(WriteScript(path, mode))) == Some(Separated(AllTokens(env, WriteScript(path, mode))))
    ensures Read(env, WriteScript(path, mode))
         == Some(WriteTokens(path, Octal(mode), Given(Named(env, path, Octal(mode)), Command(Dirname()))))
  {
    var script := WriteScript(path, mode);
    WriteScriptIsSimple(path, mode);
    LeadsScript(env, START, script);
    TokensOf(env, Script(script), ScriptTokens(env, script));
    ScriptIsSeparated(env, script);
    var envs := Stages(env, path, Octal(mode));
    var tokens := WriteTokens(path, Octal(mode), Given(envs[3], Command(Dirname())));
    FirstStages(envs, script, tokens, path, mode);
    NextStages(envs, script, tokens, path, mode);
    LastStages(envs, script, tokens, path, mode);
    NineMake(envs, script, tokens);
    ReadAlong(envs, script);
  }

  /** The substitution in the script, run once p and m are set: `dirname` gets the path as its one argument. */
  lemma DirnameArrives(env: Env, path: string, mode: nat)
    requires mode < 512
    ensures Tokens(Named(env, path, Octal(mode)), Command(Dirname())) == Some(Words(["dirname", path]))
  {
    var named := Named(env, path, Octal(mode));
    NamesAreNames();
    WordsAreBare();
    CommandRoundTrip(named, Dirname());
    SenseOfParam(named, "p");
    OnePiece(named, Bare("dirname"));
    OnePiece(named, Expanded("p", ""));
    assert Meanings(named, Dirname()) == ["dirname", path];
  }

  /** What the commands of the script look like. */
  function WriteTexts(path: string, mode: string): seq<string> {
    ["set -e", "p=" + Quote(path), "m=" + mode, "d=$(dirname \"$p\")", "mkdir -p \"$d\"", "t=\"$p.mksrv.tmp\"",
     "cat > \"$t\"", "chmod \"$m\" \"$t\"", "mv -f \"$t\" \"$p\""]
  }

  lemma {:induction false} ScriptIsJoined(commands: seq<Simple>, texts: seq<string>)
    requires commands != [] && |commands| == |texts|
    requires forall i :: 0 <= i < |commands| ==> IsSimple(commands[i]) && RenderSimple(commands[i]) == texts[i]
    ensures Script(commands) == Join(texts, "; ")
    decreases |commands|
  {
    if |commands| == 1 {
      AddNothing(texts[0]);
    } else {
      ScriptIsJoined(commands[1..], texts[1..]);
      Regroup(texts[0], "; ", Join(texts[1..], "; "));
    }
  }

  lemma {:induction false} SpacedIsJoined(words: seq<Spelling>, texts: seq<string>)
    requires words != [] && |words| == |texts| && forall i :: 0 <= i < |words| ==> Render(words[i]) == texts[i]
    ensures Spaced(words) == " " + Join(texts, " ")
    decreases |words|
  {
    if |words| == 1 {
      AddNothing(" " + texts[0]);
    } else {
      SpacedIsJoined(words[1..], texts[1..]);
      JoinFirst(texts, " ");
    }
  }

  /** One-piece words look like their pieces, a space apart. */
  lemma PiecesLook(pieces: seq<Piece>, words: seq<Spelling>, texts: seq<string>)
    requires pieces != [] && |words| == |texts| == |pieces|
    requires forall i :: 0 <= i < |words| ==> words[i] == [pieces[i]] && texts[i] == RenderPiece(pieces[i])
    requires forall i :: 0 <= i < |pieces| ==> IsPiece(pieces[i])
    ensures RenderSimple(Simple(words, None)) == Join(texts, " ")
  {
    forall i | 0 <= i < |words| ensures Render(words[i]) == texts[i] {
      AddNothing(RenderPiece(pieces[i]));
    }
    if |words| == 1 {
      AddNothing(texts[0]);
    } else {
      SpacedIsJoined(words[1..], texts[1..]);
      Regroup(texts[0], " ", Join(texts[1..], " "));
    }
    AddNothing(Command(words));
  }

  lemma OneWordLooks(w: Spelling)
    requires IsSpelling(w)
    ensures RenderSimple(Simple([w], None)) == Render(w)
  {
    AddNothing(Render(w));
  }

  /** A parameter in double quotes. */
  lemma ParamLooks(name: string, text: string)
    requires text == ['"', '$'] + name + ['"']
    ensures RenderPiece(Expanded(name, "")) == text
  {
    assert "\"$" == ['"', '$'] && "" + "\"" == ['"'];
    Regroup(['"', '$'], name, ['"']);
  }

  lemma AssignmentsLook(path: string, mode: string)
    requires IsBare(mode) && IsBare("p=") && IsBare("m=") && IsBare("t=") && IsName("p") && IsSuffix(TMP)
    ensures RenderSimple(Simple([[Bare("p="), Quoted(path)]], None)) == "p=" + Quote(path)
    ensures RenderSimple(Simple([[Bare("m="), Bare(mode)]], None)) == "m=" + mode
    ensures RenderSimple(Simple([[Bare("t="), Expanded("p", TMP)]], None)) == "t=\"$p.mksrv.tmp\""
  {
    var env := Env(map[], (params, text) => "");
    TwoPieces(env, Bare("p="), Quoted(path));
    OneWordLooks([Bare("p="), Quoted(path)]);
    TwoPieces(env, Bare("m="), Bare(mode));
    OneWordLooks([Bare("m="), Bare(mode)]);
    TwoPieces(env, Bare("t="), Expanded("p", TMP));
    OneWordLooks([Bare("t="), Expanded("p", TMP)]);
    assert "t=" + ("\"$" + ("p" + (TMP + "\""))) == "t=\"$p.mksrv.tmp\"";
  }

  lemma DirectoryLooks(command: string)
    requires IsName("d") && IsBare("d") && forall i :: 0 <= i < |command| ==> IsInner(command[i])
    ensures RenderSimple(Simple([[Assigned("d", command)]], None)) == "d=$(" + command + ")"
  {
    OneWordLooks([Assigned("d", command)]);
    AddNothing(RenderPiece(Assigned("d", command)));
    assert "d" + ("=$(" + (command + ")")) == "d=$(" + command + ")";
  }

  lemma DirnameText()
    ensures "d=$(" + Command(Dirname()) + ")" == "d=$(dirname \"$p\")"
  {
    DirnameIsInner();
    assert "dirname" + (" " + "\"$p\"") == "dirname \"$p\"";
  }

  lemma SetLooks()
    requires IsBare("set") && IsBare("-e")
    ensures RenderSimple(Simple([[Bare("set")], [Bare("-e")]], None)) == "set -e"
  {
    var pieces := [Bare("set"), Bare("-e")];
    PiecesLook(pieces, [[pieces[0]], [pieces[1]]], ["set", "-e"]);
    assert Join(["set", "-e"], " ") == "set" + " " + Join(["-e"], " ") == "set -e";
  }

  lemma MkdirLooks()
    requires IsBare("mkdir") && IsBare("-p") && IsName("d") && IsSuffix("")
    ensures RenderSimple(Simple([[Bare("mkdir")], [Bare("-p")], [Expanded("d", "")]], None)) == "mkdir -p \"$d\""
  {
    var pieces, texts := [Bare("mkdir"), Bare("-p"), Expanded("d", "")], ["mkdir", "-p", "\"$d\""];
    ParamLooks("d", texts[2]);
    PiecesLook(pieces, [[pieces[0]], [pieces[1]], [pieces[2]]], texts);
    JoinThree(texts);
    assert "mkdir" + " " + "-p" + " " + "\"$d\"" == "mkdir -p \"$d\"";
  }

  lemma JoinThree(texts: seq<string>)
    requires |texts| == 3
    ensures Join(texts, " ") == texts[0] + " " + texts[1] + " " + texts[2]
  {
    assert Join(texts[1..], " ") == texts[1] + " " + Join(texts[1..][1..], " ") == texts[1] + " " + texts[2];
  }

  lemma JoinFour(texts: seq<string>)
    requires |texts| == 4
    ensures Join(texts, " ") == texts[0] + " " + texts[1] + " " + texts[2] + " " + texts[3]
  {
    JoinThree(texts[1..]);
  }

  lemma CatLooks()
    requires IsBare("cat") && IsName("t") && IsSuffix("")
    ensures RenderSimple(Simple([[Bare("cat")]], Some([Expanded("t", "")]))) == "cat > \"$t\""
  {
    ParamLooks("t", "\"$t\"");
    AddNothing("cat");
    AddNothing(RenderPiece(Expanded("t", "")));
    assert "cat" + " > " + "\"$t\"" == "cat > \"$t\"";
    assert "cat" + (" > " + "\"$t\"") == "cat > \"$t\"";
  }

  lemma ChmodLooks()
    requires IsBare("chmod") && IsName("m") && IsName("t") && IsSuffix("")
    ensures RenderSimple(Simple([[Bare("chmod")], [Expanded("m", "")], [Expanded("t", "")]], None))
         == "chmod \"$m\" \"$t\""
  {
    var pieces, texts := [Bare("chmod"), Expanded("m", ""), Expanded("t", "")], ["chmod", "\"$m\"", "\"$t\""];
    ParamLooks("m", texts[1]);
    ParamLooks("t", texts[2]);
    PiecesLook(pieces, [[pieces[0]], [pieces[1]], [pieces[2]]], texts);
    JoinThree(texts);
    assert "chmod" + " " + "\"$m\"" + " " + "\"$t\"" == "chmod \"$m\" \"$t\"";
  }

  lemma MvLooks()
    requires IsBare("mv") && IsBare("-f") && IsName("t") && IsName("p") && IsSuffix("")
    ensures RenderSimple(Simple([[Bare("mv")], [Bare("-f")], [Expanded("t", "")], [Expanded("p", "")]], None))
         == "mv -f \"$t\" \"$p\""
  {
    var pieces := [Bare("mv"), Bare("-f"), Expanded("t", ""), Expanded("p", "")];
    var texts := ["mv", "-f", "\"$t\"", "\"$p\""];
    ParamLooks("t", texts[2]);
    ParamLooks("p", texts[3]);
    PiecesLook(pieces, [[pieces[0]], [pieces[1]], [pieces[2]], [pieces[3]]], texts);
    JoinFour(texts);
    assert "mv" + " " + "-f" + " " + "\"$t\"" + " " + "\"$p\"" == "mv -f \"$t\" \"$p\"";
  }

  ghost predicate Looks(c: Simple, text: string) {
    IsSimple(c) && RenderSimple(c) == text
  }

  lemma FirstLook(commands: seq<Simple>, texts: seq<string>, path: string, mode: nat)
    requires mode < 512 && commands == WriteScript(path, mode) && texts == WriteTexts(path, Octal(mode))
    requires forall i :: 0 <= i < |commands| ==> IsSimple(commands[i])
    ensures Looks(commands[1], texts[1]) && Looks(commands[2], texts[2]) && Looks(commands[5], texts[5])
  {
    NamesAreNames();
    WordsAreBare();
    AssignmentsLook(path, Octal(mode));
  }

  lemma NextLook(commands: seq<Simple>, texts: seq<string>, path: string, mode: nat)
    requires mode < 512 && commands == WriteScript(path, mode) && texts == WriteTexts(path, Octal(mode))
    requires forall i :: 0 <= i < |commands| ==> IsSimple(commands[i])
    ensures Looks(commands[0], texts[0]) && Looks(commands[3], texts[3])
  {
    NamesAreNames();
    WordsAreBare();
    DirnameIsInner();
    SetLooks();
    DirectoryLooks(Command(Dirname()));
    DirnameText();
  }

  lemma LastLook(commands: seq<Simple>, texts: seq<string>, path: string, mode: nat)
    requires mode < 512 && commands == WriteScript(path, mode) && texts == WriteTexts(path, Octal(mode))
    requires forall i :: 0 <= i < |commands| ==> IsSimple(commands[i])
    ensures Looks(commands[4], texts[4]) && Looks(commands[6], texts[6]) && Looks(commands[7], texts[7])
    ensures Looks(commands[8], texts[8])
  {
    NamesAreNames();
    WordsAreBare();
    MkdirLooks();
    CatLooks();
    ChmodLooks();
    MvLooks();
  }

  lemma NineLook(commands: seq<Simple>, texts: seq<string>)
    requires |commands| == |texts| == 9
    requires Looks(commands[0], texts[0]) && Looks(commands[1], texts[1]) && Looks(commands[2], texts[2])
    requires Looks(commands[3], texts[3]) && Looks(commands[4], texts[4]) && Looks(commands[5], texts[5])
    requires Looks(commands[6], texts[6]) && Looks(commands[7], texts[7]) && Looks(commands[8], texts[8])
    ensures forall i :: 0 <= i < 9 ==> IsSimple(commands[i])
    ensures Script(commands) == Join(texts, "; ")
  {
    forall i | 0 <= i < 9 ensures Looks(commands[i], texts[i]) {
      assert i == 0 || i == 1 || i == 2 || i == 3 || i == 4 || i == 5 || i == 6 || i == 7 || i == 8;
    }
    ScriptIsJoined(commands, texts);
  }

  /** The commands of the script are spelled as the texts. */
  lemma WriteScriptLooks(path: string, mode: nat)
    requires mode < 512
    ensures forall i :: 0 <= i < |WriteScript(path, mode)| ==> IsSimple(WriteScript(path, mode)[i])
    ensures Script(WriteScript(path, mode)) == Join(WriteTexts(path, Octal(mode)), "; ")
  {
    var commands, texts := WriteScript(path, mode), WriteTexts(path, Octal(mode));
    WriteScriptIsSimple(path, mode);
    FirstLook(commands, texts, path, mode);
    NextLook(commands, texts, path, mode);
    LastLook(commands, texts, path, mode);
    NineLook(commands, texts);
  }

  lemma SudoText()
    ensures Join(SUDO_SH, " ") + " " == "sudo -n sh -c "
  {
    JoinFour(SUDO_SH);
  }

  /** `Client.WriteFileSudo`: the script it builds, and the command that hands it to the remote shell. */
  method WriteFileCommand(path: string, mode: nat) returns (script: string, command: string)
    requires mode < 512
    ensures forall i :: 0 <= i < |WriteScript(path, mode)| ==> IsSimple(WriteScript(path, mode)[i])
    ensures script == Script(WriteScript(path, mode))
    ensures forall env :: Tokens(env, command) == Some(Words(["sudo", "-n", "sh", "-c", script]))
  {
    script := Join(WriteTexts(path, Octal(mode)), "; ");
    WriteScriptLooks(path, mode);
    command := "sudo -n sh -c " + Quote(script);
    forall env ensures Tokens(env, command) == Some(Words(["sudo", "-n", "sh", "-c", script])) {
      ScriptArrives(env, script);
    }
  }
}
