/**
 * Commands built with quoted arguments (`quoteArg`, `shellQuote`, `shellSingleQuote`), read back by the quoting and
 * token recognition of the POSIX.1-2017 Shell Command Language, sections 2.2.1 to 2.2.3, 2.3, 2.6.2, 2.6.3 and 2.9.1.
 */
module Shell {
  import opened Text

  datatype Token = Word(text: string) | Semicolon | Great

  /**
   * Inside double quotes, `Dollar` is a parameter's name as far as it has been read; outside them, `Subst` is the text
   * of a command substitution as far as it has been read, after a `$` and an opening parenthesis.
   */
  datatype Mode = Outside | Single | Backslash | Double | Dollar(name: string) | Opening | Subst(text: string)

  /** What a shell has recognised so far: whole tokens, and the word it is in, if any. */
  datatype State = State(tokens: seq<Token>, mode: Mode, word: Option<string>)

  /** The shell's parameters, and what a command prints that runs with some parameters. */
  datatype Env = Env(params: map<string, string>, output: (map<string, string>, string) -> string)

  /** What a command substitution gives. */
  function Given(env: Env, command: string): string {
    env.output(env.params, command)
  }

  /** A parameter that is not set expands to nothing. */
  function Value(env: Env, name: string): string {
    if name in env.params then env.params[name] else ""
  }

  /** Characters that start something other than a word outside quotes; the model reads none of them there. */
  predicate IsSpecial(c: char) {
    || c == '$' || c == '`' || c == '&' || c == '|' || c == '<' || c == '(' || c == ')'
    || c == '\n' || c == '*' || c == '?' || c == '[' || c == '#' || c == '~'
  }

  /** Letters, digits and `-_./:=`: characters that stand for themselves outside quotes. */
  predicate IsPlain(c: char) {
    || 'a' <= c <= 'z' || 'A' <= c <= 'Z' || '0' <= c <= '9'
    || c == '-' || c == '_' || c == '.' || c == '/' || c == ':' || c == '='
  }

  /** What the model reads between the parentheses of a substitution. */
  predicate IsInner(c: char) {
    IsPlain(c) || c == ' ' || c == '"' || c == '$'
  }

  predicate IsNameStart(c: char) {
    'a' <= c <= 'z' || 'A' <= c <= 'Z' || c == '_'
  }

  predicate IsNameChar(c: char) {
    IsNameStart(c) || '0' <= c <= '9'
  }

  function Flush(word: Option<string>): seq<Token> {
    if word.Some? then [Word(word.value)] else []
  }

  function Begun(word: Option<string>): string {
    if word.Some? then word.value else ""
  }

  function Add(st: State, s: string): State {
    State(st.tokens, Outside, Some(Begun(st.word) + s))
  }

  /** What the shell has recognised if the word ends here. */
  function Pending(st: State): seq<Token> {
    st.tokens + Flush(st.word)
  }

  /** A `$` is read only in the value of an assignment, where nothing it gives is split into fields. */
  function StepOutside(st: State, c: char): Option<State> {
    if c == '\'' then Some(Add(st, "").(mode := Single))
    else if c == '"' then Some(Add(st, "").(mode := Double))
    else if c == '\\' then Some(st.(mode := Backslash))
    else if c == ' ' || c == '\t' then Some(State(Pending(st), Outside, None))
    else if c == ';' then Some(State(Pending(st) + [Semicolon], Outside, None))
    else if c == '>' then
      (if st.word.Some? || (st.tokens != [] && st.tokens[|st.tokens| - 1] == Great) then None
       else Some(State(st.tokens + [Great], Outside, None)))
    else if c == '$' && '=' in Begun(st.word) then Some(st.(mode := Opening))
    else if IsSpecial(c) then None
    else Some(Add(st, [c]))
  }

  function StepDouble(st: State, c: char): Option<State> {
    if c == '"' then Some(st.(mode := Outside))
    else if c == '$' then Some(st.(mode := Dollar("")))
    else if c == '\\' || c == '`' then None
    else Some(Add(st, [c]).(mode := Double))
  }

  /** One character, in each quoting mode. */
  function Step(env: Env, st: State, c: char): Option<State> {
    match st.mode
    case Single => Some(if c == '\'' then st.(mode := Outside) else Add(st, [c]).(mode := Single))
    case Backslash => if c == '\n' then None else Some(Add(st, [c]))
    case Double => StepDouble(st, c)
    case Dollar(name) =>
      if if name == "" then IsNameStart(c) else IsNameChar(c) then Some(st.(mode := Dollar(name + [c])))
      else if name == "" then None
      else StepDouble(Add(st, Value(env, name)).(mode := Double), c)
    case Opening => if c == '(' then Some(st.(mode := Subst(""))) else None
    case Subst(text) =>
      if c == ')' then Some(Add(st, Given(env, text)))
      else if IsInner(c) then Some(st.(mode := Subst(text + [c])))
      else None
    case Outside => StepOutside(st, c)
  }

  function Lex(env: Env, st: State, s: string): Option<State>
    decreases |s|
  {
    if s == "" then Some(st)
    else
      var next := Step(env, st, s[0]);
      if next.None? then None else Lex(env, next.value, s[1..])
  }

  const START := State([], Outside, None)

  /** The tokens of a command line; a quotation left open gives none. */
  function Tokens(env: Env, command: string): Option<seq<Token>> {
    var end := Lex(env, START, command);
    if end.Some? && end.value.mode.Outside? then Some(Pending(end.value)) else None
  }

  function Words(texts: seq<string>): (r: seq<Token>)
    ensures |r| == |texts| && forall i :: 0 <= i < |r| ==> r[i] == Word(texts[i])
  {
    seq(|texts|, i requires 0 <= i < |texts| => Word(texts[i]))
  }

  /** `strings.ReplaceAll(s, "'", "'\\''")`. */
  function Escaped(s: string): string {
    if s == [] then [] else (if s[0] == '\'' then "'\\''" else [s[0]]) + Escaped(s[1..])
  }

  /** `quoteArg`. */
  function Quote(s: string): string {
    "'" + Escaped(s) + "'"
  }

  lemma {:induction false} LexAppend(env: Env, st: State, a: string, b: string)
    requires Lex(env, st, a).Some?
    ensures Lex(env, st, a + b) == Lex(env, Lex(env, st, a).value, b)
    decreases |a|
  {
    if a == "" {
      assert a + b == b;
    } else {
      assert (a + b)[1..] == a[1..] + b;
      LexAppend(env, Step(env, st, a[0]).value, a[1..], b);
    }
  }

  lemma LexOne(env: Env, st: State, c: char)
    ensures Lex(env, st, [c]) == Step(env, st, c)
  {
    if Step(env, st, c).Some? {
      assert [c][1..] == "";
      assert Lex(env, Step(env, st, c).value, "") == Step(env, st, c);
    }
  }

  lemma LexPair(env: Env, st: State, c: char, s: string)
    requires Step(env, st, c).Some?
    ensures Lex(env, st, [c] + s) == Lex(env, Step(env, st, c).value, s)
  {
    assert ([c] + s)[1..] == s;
  }

  lemma AddAdd(st: State, a: string, b: string)
    ensures Add(Add(st, a), b) == Add(st, a + b)
  {
    assert (Begun(st.word) + a) + b == Begun(st.word) + (a + b);
  }

  lemma AddNothing(word: string)
    ensures word + "" == word && "" + word == word
  {
  }

  /** `'\''` inside quotes closes them, adds one quote, and opens them again. */
  lemma LexEscapedQuote(env: Env, tokens: seq<Token>, word: string)
    ensures Lex(env, State(tokens, Single, Some(word)), "'\\''") == Some(State(tokens, Single, Some(word + "'")))
  {
    var inside, outside := State(tokens, Single, Some(word)), State(tokens, Outside, Some(word));
    var after := State(tokens, Outside, Some(word + "'"));
    assert "'\\''" == ['\''] + (['\\'] + (['\''] + ['\'']));
    LexPair(env, inside, '\'', ['\\'] + (['\''] + ['\'']));
    LexPair(env, outside, '\\', ['\''] + ['\'']);
    LexPair(env, outside.(mode := Backslash), '\'', ['\'']);
    LexOne(env, after, '\'');
    AddNothing(word + "'");
  }

  lemma {:induction false} LexEscaped(env: Env, tokens: seq<Token>, word: string, s: string)
    ensures Lex(env, State(tokens, Single, Some(word)), Escaped(s)) == Some(State(tokens, Single, Some(word + s)))
    decreases |s|
  {
    var st := State(tokens, Single, Some(word));
    if s == [] {
      AddNothing(word);
    } else if s[0] == '\'' {
      LexEscapedQuote(env, tokens, word);
      LexAppend(env, st, "'\\''", Escaped(s[1..]));
      LexEscaped(env, tokens, word + "'", s[1..]);
      assert (word + "'") + s[1..] == word + s;
    } else {
      LexPair(env, st, s[0], Escaped(s[1..]));
      LexEscaped(env, tokens, word + [s[0]], s[1..]);
      assert (word + [s[0]]) + s[1..] == word + s;
    }
  }

  /** Quoted text adds exactly itself to the word, whatever it holds, and an empty text still makes a word. */
  lemma LexQuoted(env: Env, st: State, s: string)
    requires st.mode == Outside
    ensures Lex(env, st, Quote(s)) == Some(Add(st, s))
  {
    var word := Begun(st.word);
    assert Quote(s) == ['\''] + (Escaped(s) + ['\'']);
    AddNothing(word);
    LexPair(env, st, '\'', Escaped(s) + ['\'']);
    LexEscaped(env, st.tokens, word, s);
    LexAppend(env, State(st.tokens, Single, Some(word)), Escaped(s), ['\'']);
    LexOne(env, State(st.tokens, Single, Some(word + s)), '\'');
  }

  predicate IsBare(s: string) {
    s != "" && forall i :: 0 <= i < |s| ==> IsPlain(s[i])
  }

  lemma {:induction false} LexBare(env: Env, st: State, s: string)
    requires st.mode == Outside && IsBare(s)
    ensures Lex(env, st, s) == Some(Add(st, s))
    decreases |s|
  {
    var next := Add(st, [s[0]]);
    assert Step(env, st, s[0]) == Some(next);
    if |s| == 1 {
      assert s == [s[0]];
      LexOne(env, st, s[0]);
    } else {
      LexBare(env, next, s[1..]);
      AddAdd(st, [s[0]], s[1..]);
      assert [s[0]] + s[1..] == s;
    }
  }

  predicate IsName(s: string) {
    s != "" && IsNameStart(s[0]) && forall i :: 0 <= i < |s| ==> IsNameChar(s[i])
  }

  lemma {:induction false} LexName(env: Env, tokens: seq<Token>, word: Option<string>, read: string, rest: string)
    requires IsName(read + rest)
    ensures Lex(env, State(tokens, Dollar(read), word), rest) == Some(State(tokens, Dollar(read + rest), word))
    decreases |rest|
  {
    if rest == "" {
      AddNothing(read);
    } else {
      assert (read + rest)[|read|] == rest[0];
      assert (read + [rest[0]]) + rest[1..] == read + rest;
      LexName(env, tokens, word, read + [rest[0]], rest[1..]);
    }
  }

  /** What follows a parameter inside the quotes: nothing, or a dot and plain characters. */
  predicate IsSuffix(s: string) {
    s == "" || (s[0] == '.' && forall i :: 0 <= i < |s| ==> IsPlain(s[i]))
  }

  lemma {:induction false} LexDouble(env: Env, tokens: seq<Token>, word: string, s: string)
    requires forall i :: 0 <= i < |s| ==> IsPlain(s[i])
    ensures Lex(env, State(tokens, Double, Some(word)), s + "\"") == Some(State(tokens, Outside, Some(word + s)))
    decreases |s|
  {
    var st := State(tokens, Double, Some(word));
    if s == "" {
      AddNothing(word);
      assert s + "\"" == ['"'];
      LexOne(env, st, '"');
    } else {
      assert s + "\"" == [s[0]] + (s[1..] + "\"");
      LexPair(env, st, s[0], s[1..] + "\"");
      LexDouble(env, tokens, word + [s[0]], s[1..]);
      assert (word + [s[0]]) + s[1..] == word + s;
    }
  }

  /** The end of `"$name<suffix>"`, the name being read. */
  lemma LexExpansionEnd(env: Env, tokens: seq<Token>, word: string, name: string, suffix: string)
    requires IsName(name) && IsSuffix(suffix)
    ensures Lex(env, State(tokens, Dollar(name), Some(word)), suffix + "\"")
         == Some(State(tokens, Outside, Some(word + Value(env, name) + suffix)))
  {
    var st := State(tokens, Dollar(name), Some(word));
    var value := word + Value(env, name);
    if suffix == "" {
      AddNothing(value);
      assert suffix + "\"" == ['"'];
      LexOne(env, st, '"');
    } else {
      assert suffix + "\"" == [suffix[0]] + (suffix[1..] + "\"");
      LexPair(env, st, suffix[0], suffix[1..] + "\"");
      LexDouble(env, tokens, value + [suffix[0]], suffix[1..]);
      assert (value + [suffix[0]]) + suffix[1..] == value + suffix;
    }
  }

  /** `"$` begins a parameter inside double quotes. */
  lemma LexDollar(env: Env, st: State, rest: string)
    requires st.mode == Outside
    ensures Lex(env, st, "\"$" + rest) == Lex(env, State(st.tokens, Dollar(""), Some(Begun(st.word))), rest)
  {
    var inside := State(st.tokens, Double, Some(Begun(st.word)));
    AddNothing(Begun(st.word));
    assert "\"$" + rest == ['"'] + (['$'] + rest);
    LexPair(env, st, '"', ['$'] + rest);
    LexPair(env, inside, '$', rest);
  }

  lemma LexWholeName(env: Env, tokens: seq<Token>, word: Option<string>, none: string, name: string, tail: string)
    requires none == "" && IsName(name)
    ensures Lex(env, State(tokens, Dollar(none), word), name + tail)
         == Lex(env, State(tokens, Dollar(name), word), tail)
  {
    assert none + name == name;
    LexName(env, tokens, word, none, name);
    LexAppend(env, State(tokens, Dollar(none), word), name, tail);
  }

  /** A parameter in double quotes, and a suffix, add the value and the suffix to the word, whatever the value holds. */
  lemma LexExpansion(env: Env, st: State, name: string, suffix: string)
    requires st.mode == Outside && IsName(name) && IsSuffix(suffix)
    ensures Lex(env, st, "\"$" + (name + (suffix + "\""))) == Some(Add(st, Value(env, name) + suffix))
  {
    var word, tail := Begun(st.word), suffix + "\"";
    LexDollar(env, st, name + tail);
    LexWholeName(env, st.tokens, Some(word), "", name, tail);
    LexExpansionEnd(env, st.tokens, word, name, suffix);
    Regroup(word, Value(env, name), suffix);
  }

  lemma {:induction false} LexInner(env: Env, tokens: seq<Token>, word: Option<string>, read: string, rest: string)
    requires forall i :: 0 <= i < |rest| ==> IsInner(rest[i])
    ensures Lex(env, State(tokens, Subst(read), word), rest) == Some(State(tokens, Subst(read + rest), word))
    decreases |rest|
  {
    if rest == "" {
      AddNothing(read);
    } else {
      assert (read + [rest[0]]) + rest[1..] == read + rest;
      LexInner(env, tokens, word, read + [rest[0]], rest[1..]);
    }
  }

  /** A substitution: its text is taken as it is, and what it gives is added to the word. */
  lemma LexSubst(env: Env, tokens: seq<Token>, word: string, none: string, command: string)
    requires none == "" && forall i :: 0 <= i < |command| ==> IsInner(command[i])
    ensures Lex(env, State(tokens, Subst(none), Some(word)), command + ")")
         == Some(State(tokens, Outside, Some(word + Given(env, command))))
  {
    assert none + command == command;
    LexInner(env, tokens, Some(word), none, command);
    LexAppend(env, State(tokens, Subst(none), Some(word)), command, [')']);
    LexOne(env, State(tokens, Subst(command), Some(word)), ')');
  }

  lemma LexOpening(env: Env, tokens: seq<Token>, word: string, rest: string)
    requires '=' in word
    ensures Lex(env, State(tokens, Outside, Some(word)), "$(" + rest)
         == Lex(env, State(tokens, Subst(""), Some(word)), rest)
  {
    assert "$(" + rest == ['$'] + (['('] + rest);
    LexPair(env, State(tokens, Outside, Some(word)), '$', ['('] + rest);
    LexPair(env, State(tokens, Opening, Some(word)), '(', rest);
  }

  lemma LexAssigned(env: Env, st: State, name: string, command: string)
    requires st.mode == Outside && IsBare(name) && forall i :: 0 <= i < |command| ==> IsInner(command[i])
    ensures Lex(env, st, name + ("=$(" + (command + ")"))) == Some(Add(st, name + "=" + Given(env, command)))
  {
    var head, tail := name + "=", command + ")";
    var word := Begun(st.word) + head;
    assert name + ("=$(" + tail) == head + ("$(" + tail);
    assert word[|word| - 1] == '=';
    LexBare(env, st, head);
    LexAppend(env, st, head, "$(" + tail);
    LexOpening(env, st.tokens, word, tail);
    LexSubst(env, st.tokens, word, "", command);
    Regroup(Begun(st.word), head, Given(env, command));
  }

  /** How a command line spells part of a word, and a whole word. */
  datatype Piece =
    | Bare(text: string)
    | Quoted(text: string)
    | Expanded(name: string, suffix: string)
    | Assigned(name: string, command: string)

  type Spelling = seq<Piece>

  predicate IsPiece(p: Piece) {
    match p
    case Bare(text) => IsBare(text)
    case Quoted(_) => true
    case Expanded(name, suffix) => IsName(name) && IsSuffix(suffix)
    case Assigned(name, command) => IsBare(name) && forall i :: 0 <= i < |command| ==> IsInner(command[i])
  }

  predicate IsSpelling(w: Spelling) {
    w != [] && forall i :: 0 <= i < |w| ==> IsPiece(w[i])
  }

  function RenderPiece(p: Piece): string {
    match p
    case Bare(text) => text
    case Quoted(text) => Quote(text)
    case Expanded(name, suffix) => "\"$" + (name + (suffix + "\""))
    case Assigned(name, command) => name + ("=$(" + (command + ")"))
  }

  /** The text the piece stands for. */
  function Sense(env: Env, p: Piece): string {
    match p
    case Bare(text) => text
    case Quoted(text) => text
    case Expanded(name, suffix) => Value(env, name) + suffix
    case Assigned(name, command) => name + "=" + Given(env, command)
  }

  function Render(w: Spelling): string {
    if w == [] then "" else RenderPiece(w[0]) + Render(w[1..])
  }

  function Meaning(env: Env, w: Spelling): string {
    if w == [] then "" else Sense(env, w[0]) + Meaning(env, w[1..])
  }

  lemma LexPiece(env: Env, st: State, p: Piece)
    requires st.mode == Outside && IsPiece(p)
    ensures Lex(env, st, RenderPiece(p)) == Some(Add(st, Sense(env, p)))
  {
    match p {
      case Bare(text) => LexBare(env, st, text);
      case Quoted(text) => LexQuoted(env, st, text);
      case Expanded(name, suffix) => LexExpansion(env, st, name, suffix);
      case Assigned(name, command) => LexAssigned(env, st, name, command);
    }
  }

  lemma LexTwo(env: Env, st: State, p: Piece, rest: string, meaning: string)
    requires st.mode == Outside && IsPiece(p)
    requires Lex(env, Add(st, Sense(env, p)), rest) == Some(Add(Add(st, Sense(env, p)), meaning))
    ensures Lex(env, st, RenderPiece(p) + rest) == Some(Add(st, Sense(env, p) + meaning))
  {
    LexPiece(env, st, p);
    LexAppend(env, st, RenderPiece(p), rest);
    AddAdd(st, Sense(env, p), meaning);
  }

  lemma {:induction false} LexSpelling(env: Env, st: State, w: Spelling)
    requires st.mode == Outside && IsSpelling(w)
    ensures Lex(env, st, Render(w)) == Some(Add(st, Meaning(env, w)))
    decreases |w|
  {
    if |w| == 1 {
      LexPiece(env, st, w[0]);
      AddNothing(RenderPiece(w[0]));
      AddNothing(Sense(env, w[0]));
    } else {
      LexSpelling(env, Add(st, Sense(env, w[0])), w[1..]);
      LexTwo(env, st, w[0], Render(w[1..]), Meaning(env, w[1..]));
    }
  }

  /** A space and a spelling, for each word. */
  function Spaced(words: seq<Spelling>): string {
    if words == [] then "" else " " + Render(words[0]) + Spaced(words[1..])
  }

  function Meanings(env: Env, words: seq<Spelling>): (r: seq<string>)
    ensures |r| == |words| && forall i :: 0 <= i < |r| ==> r[i] == Meaning(env, words[i])
  {
    seq(|words|, i requires 0 <= i < |words| => Meaning(env, words[i]))
  }

  ghost predicate AreSpellings(words: seq<Spelling>) {
    forall i :: 0 <= i < |words| ==> IsSpelling(words[i])
  }

  /** What every whole word leaves behind: the words, pending, outside quotes. */
  ghost predicate Leads(env: Env, st: State, s: string, tokens: seq<Token>) {
    var end := Lex(env, st, s);
    end.Some? && end.value.mode == Outside && Pending(end.value) == Pending(st) + tokens
  }

  lemma LeadsOn(env: Env, st: State, a: string, b: string, first: seq<Token>, rest: seq<Token>)
    requires Leads(env, st, a, first) && Leads(env, Lex(env, st, a).value, b, rest)
    ensures Leads(env, st, a + b, first + rest)
  {
    LexAppend(env, st, a, b);
    Regroup(Pending(st), first, rest);
  }

  lemma LeadsFirst(env: Env, st: State, w: Spelling)
    requires st.mode == Outside && st.word == None && IsSpelling(w)
    ensures Leads(env, st, Render(w), [Word(Meaning(env, w))])
  {
    LexSpelling(env, st, w);
    AddNothing(Meaning(env, w));
    assert Pending(st) == st.tokens;
  }

  lemma LeadsWord(env: Env, st: State, w: Spelling)
    requires st.mode == Outside && IsSpelling(w)
    ensures Leads(env, st, " " + Render(w), [Word(Meaning(env, w))])
  {
    var next := State(Pending(st), Outside, None);
    LexPair(env, st, ' ', Render(w));
    LexSpelling(env, next, w);
    AddNothing(Meaning(env, w));
  }

  lemma WordsStep(env: Env, words: seq<Spelling>)
    requires words != []
    ensures [Word(Meaning(env, words[0]))] + Words(Meanings(env, words[1..])) == Words(Meanings(env, words))
  {
  }

  lemma {:induction false} LeadsWords(env: Env, st: State, words: seq<Spelling>)
    requires st.mode == Outside && AreSpellings(words)
    ensures Leads(env, st, Spaced(words), Words(Meanings(env, words)))
    decreases |words|
  {
    if words == [] {
      assert Words(Meanings(env, words)) == [] && Pending(st) + [] == Pending(st);
    } else {
      var first := " " + Render(words[0]);
      LeadsWord(env, st, words[0]);
      LeadsWords(env, Lex(env, st, first).value, words[1..]);
      LeadsOn(env, st, first, Spaced(words[1..]), [Word(Meaning(env, words[0]))], Words(Meanings(env, words[1..])));
      WordsStep(env, words);
    }
  }

  /** The words of a command separated by one space. */
  function Command(words: seq<Spelling>): string
    requires words != []
  {
    Render(words[0]) + Spaced(words[1..])
  }

  lemma CommandLeads(env: Env, st: State, words: seq<Spelling>)
    requires words != [] && AreSpellings(words) && st.mode == Outside && st.word == None
    ensures Leads(env, st, Command(words), Words(Meanings(env, words)))
  {
    LeadsFirst(env, st, words[0]);
    LeadsWords(env, Lex(env, st, Render(words[0])).value, words[1..]);
    LeadsOn(env, st, Render(words[0]), Spaced(words[1..]), [Word(Meaning(env, words[0]))],
            Words(Meanings(env, words[1..])));
    WordsStep(env, words);
  }

  lemma TokensOf(env: Env, command: string, tokens: seq<Token>)
    requires Leads(env, START, command, tokens)
    ensures Tokens(env, command) == Some(tokens)
  {
    assert Pending(START) + tokens == tokens;
  }

  lemma TrailingSpace(env: Env, command: string)
    requires Tokens(env, command).Some?
    ensures Tokens(env, command + " ") == Tokens(env, command)
  {
    var end := Lex(env, START, command).value;
    LexAppend(env, START, command, [' ']);
    LexOne(env, end, ' ');
    assert Pending(end) + [] == Pending(end);
  }

  /** A command line built of pieces is read as exactly the words it was built from. */
  lemma CommandRoundTrip(env: Env, words: seq<Spelling>)
    requires words != [] && AreSpellings(words)
    ensures Tokens(env, Command(words)) == Some(Words(Meanings(env, words)))
    ensures Tokens(env, Command(words) + " ") == Some(Words(Meanings(env, words)))
  {
    CommandLeads(env, START, words);
    TokensOf(env, Command(words), Words(Meanings(env, words)));
    TrailingSpace(env, Command(words));
  }

  /** A simple command: its words, and where its output goes, if anywhere. */
  datatype Simple = Simple(words: seq<Spelling>, out: Option<Spelling>)

  predicate IsSimple(c: Simple) {
    && c.words != [] && (forall i :: 0 <= i < |c.words| ==> IsSpelling(c.words[i]))
    && (c.out.Some? ==> IsSpelling(c.out.value))
  }

  function RenderSimple(c: Simple): string
    requires IsSimple(c)
  {
    Command(c.words) + if c.out.Some? then " > " + Render(c.out.value) else ""
  }

  function SimpleTokens(env: Env, c: Simple): seq<Token> {
    Words(Meanings(env, c.words)) + if c.out.Some? then [Great, Word(Meaning(env, c.out.value))] else []
  }

  lemma LexGreat(env: Env, st: State, tail: string)
    requires st.mode == Outside && st.word.Some?
    ensures Lex(env, st, " >" + tail) == Lex(env, State(Pending(st) + [Great], Outside, None), tail)
  {
    var gap := State(Pending(st), Outside, None);
    assert " >" + tail == [' '] + (['>'] + tail);
    LexPair(env, st, ' ', ['>'] + tail);
    LexPair(env, gap, '>', tail);
  }

  lemma GreatSplits(s: string)
    ensures " > " + s == " >" + (" " + s)
  {
    assert " > " == " >" + " ";
    Regroup(" >", " ", s);
  }

  lemma GreatAndWord(tokens: seq<Token>, word: Token)
    ensures tokens + [Great] + [word] == tokens + [Great, word]
  {
  }

  /** ` > ` and a file name behind the words of a command. */
  lemma LeadsGreat(env: Env, st: State, w: Spelling)
    requires st.mode == Outside && st.word.Some? && IsSpelling(w)
    ensures Leads(env, st, " > " + Render(w), [Great, Word(Meaning(env, w))])
  {
    var great := State(Pending(st) + [Great], Outside, None);
    GreatSplits(Render(w));
    LexGreat(env, st, " " + Render(w));
    LeadsWord(env, great, w);
    GreatAndWord(Pending(st), Word(Meaning(env, w)));
  }

  /** After words, a word is being read. */
  lemma LeadsInWord(env: Env, st: State, words: seq<Spelling>)
    requires words != [] && AreSpellings(words) && st.mode == Outside && st.word == None
    ensures Lex(env, st, Command(words)).Some? && Lex(env, st, Command(words)).value.word.Some?
  {
    LexSpelling(env, st, words[0]);
    LexAppend(env, st, Render(words[0]), Spaced(words[1..]));
    StaysInWord(env, Lex(env, st, Render(words[0])).value, words[1..]);
  }

  lemma {:induction false} StaysInWord(env: Env, st: State, words: seq<Spelling>)
    requires AreSpellings(words) && st.mode == Outside && st.word.Some?
    ensures Lex(env, st, Spaced(words)).Some? && Lex(env, st, Spaced(words)).value.word.Some?
    decreases |words|
  {
    if words != [] {
      var first := " " + Render(words[0]);
      LexPair(env, st, ' ', Render(words[0]));
      LexSpelling(env, State(Pending(st), Outside, None), words[0]);
      LexAppend(env, st, first, Spaced(words[1..]));
      StaysInWord(env, Lex(env, st, first).value, words[1..]);
    }
  }

  lemma LeadsSimple(env: Env, st: State, c: Simple)
    requires IsSimple(c) && st.mode == Outside && st.word == None
    ensures Leads(env, st, RenderSimple(c), SimpleTokens(env, c))
  {
    CommandLeads(env, st, c.words);
    if c.out.Some? {
      LeadsInWord(env, st, c.words);
      var now := Lex(env, st, Command(c.words)).value;
      LeadsGreat(env, now, c.out.value);
      LeadsOn(env, st, Command(c.words), " > " + Render(c.out.value), Words(Meanings(env, c.words)),
              [Great, Word(Meaning(env, c.out.value))]);
    } else {
      AddNothing(Command(c.words));
      assert Words(Meanings(env, c.words)) + [] == Words(Meanings(env, c.words));
    }
  }

  /** Simple commands separated by `; `. */
  function Script(commands: seq<Simple>): string
    requires commands != [] && forall i :: 0 <= i < |commands| ==> IsSimple(commands[i])
  {
    RenderSimple(commands[0]) + if |commands| == 1 then "" else "; " + Script(commands[1..])
  }

  function ScriptTokens(env: Env, commands: seq<Simple>): seq<Token>
    requires commands != []
  {
    SimpleTokens(env, commands[0]) + if |commands| == 1 then [] else [Semicolon] + ScriptTokens(env, commands[1..])
  }

  /** `; ` ends a command, and what follows starts anew. */
  lemma LeadsSemicolon(env: Env, st: State, rest: string, tokens: seq<Token>)
    requires st.mode == Outside && Leads(env, State(Pending(st) + [Semicolon], Outside, None), rest, tokens)
    ensures Leads(env, st, "; " + rest, [Semicolon] + tokens)
  {
    var next := State(Pending(st) + [Semicolon], Outside, None);
    assert "; " + rest == [';'] + ([' '] + rest);
    assert Pending(next) == next.tokens + [] == next.tokens;
    LexPair(env, st, ';', [' '] + rest);
    LexPair(env, next, ' ', rest);
    Regroup(Pending(st), [Semicolon], tokens);
  }

  /** A script is read as exactly the commands it was built from. */
  lemma {:induction false} LeadsScript(env: Env, st: State, commands: seq<Simple>)
    requires commands != [] && forall i :: 0 <= i < |commands| ==> IsSimple(commands[i])
    requires st.mode == Outside && st.word == None
    ensures Leads(env, st, Script(commands), ScriptTokens(env, commands))
    decreases |commands|
  {
    LeadsSimple(env, st, commands[0]);
    var first, tokens := RenderSimple(commands[0]), SimpleTokens(env, commands[0]);
    if |commands| == 1 {
      AddNothing(first);
      assert tokens + [] == tokens;
    } else {
      var now := Lex(env, st, first).value;
      LeadsScript(env, State(Pending(now) + [Semicolon], Outside, None), commands[1..]);
      LeadsSemicolon(env, now, Script(commands[1..]), ScriptTokens(env, commands[1..]));
      LeadsOn(env, st, first, "; " + Script(commands[1..]), tokens, [Semicolon] + ScriptTokens(env, commands[1..]));
    }
  }

  /** What stands before the first `=`. */
  function Target(text: string): string {
    if text == "" || text[0] == '=' then "" else [text[0]] + Target(text[1..])
  }

  /** The parameter a word assigns to: a name and an `=`, both unquoted, begin it (section 2.9.1). */
  function Assignee(w: Spelling): Option<string> {
    if w == [] then None
    else
      match w[0]
      case Assigned(name, _) => if IsName(name) then Some(name) else None
      case Bare(text) => if '=' in text && IsName(Target(text)) then Some(Target(text)) else None
      case _ => None
  }

  function Behind(s: string, n: nat): string {
    if n <= |s| then s[n..] else ""
  }

  /** The shell once the command has run: a lone assignment sets its parameter, any other command sets none. */
  function After(env: Env, c: Simple): Env {
    if |c.words| == 1 && c.out.None? && Assignee(c.words[0]).Some? then
      var name := Assignee(c.words[0]).value;
      env.(params := env.params[name := Behind(Meaning(env, c.words[0]), |name| + 1)])
    else env
  }

  /** Commands read in turn, each with the parameters the ones before it have set. */
  function Read(env: Env, commands: seq<Simple>): Option<seq<seq<Token>>>
    requires forall i :: 0 <= i < |commands| ==> IsSimple(commands[i])
    decreases |commands|
  {
    if commands == [] then Some([])
    else
      var first, rest := Tokens(env, RenderSimple(commands[0])), Read(After(env, commands[0]), commands[1..]);
      if first.None? || rest.None? then None else Some([first.value] + rest.value)
  }

  lemma SimpleIsRead(env: Env, c: Simple)
    requires IsSimple(c)
    ensures Tokens(env, RenderSimple(c)) == Some(SimpleTokens(env, c))
  {
    LeadsSimple(env, START, c);
    TokensOf(env, RenderSimple(c), SimpleTokens(env, c));
  }

  /** The shell before each command, and after the last. */
  ghost predicate Runs(envs: seq<Env>, commands: seq<Simple>) {
    |envs| == |commands| + 1 && forall i :: 0 <= i < |commands| ==> envs[i + 1] == After(envs[i], commands[i])
  }

  function TokensAlong(envs: seq<Env>, commands: seq<Simple>): (r: seq<seq<Token>>)
    requires |envs| == |commands| + 1
    ensures |r| == |commands| && forall i :: 0 <= i < |r| ==> r[i] == SimpleTokens(envs[i], commands[i])
  {
    seq(|commands|, i requires 0 <= i < |commands| => SimpleTokens(envs[i], commands[i]))
  }

  lemma RunsOn(envs: seq<Env>, commands: seq<Simple>)
    requires Runs(envs, commands) && commands != []
    ensures Runs(envs[1..], commands[1..]) && envs[1] == After(envs[0], commands[0])
    ensures TokensAlong(envs, commands) == [SimpleTokens(envs[0], commands[0])] + TokensAlong(envs[1..], commands[1..])
  {
  }

  lemma ReadStep(env: Env, commands: seq<Simple>, tokens: seq<seq<Token>>)
    requires commands != [] && forall i :: 0 <= i < |commands| ==> IsSimple(commands[i])
    requires Read(After(env, commands[0]), commands[1..]) == Some(tokens)
    ensures Read(env, commands) == Some([SimpleTokens(env, commands[0])] + tokens)
  {
    SimpleIsRead(env, commands[0]);
  }

  lemma {:induction false} ReadAlong(envs: seq<Env>, commands: seq<Simple>)
    requires Runs(envs, commands) && forall i :: 0 <= i < |commands| ==> IsSimple(commands[i])
    ensures Read(envs[0], commands) == Some(TokensAlong(envs, commands))
    decreases |commands|
  {
    if commands == [] {
      assert TokensAlong(envs, commands) == [];
    } else {
      RunsOn(envs, commands);
      ReadAlong(envs[1..], commands[1..]);
      ReadStep(envs[0], commands, TokensAlong(envs[1..], commands[1..]));
    }
  }
}
