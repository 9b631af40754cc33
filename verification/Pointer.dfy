/** `pointerToPath` (internal/schema/schema.go): RFC 6901 pointers rendered as "$"-rooted paths. */
module Pointer {
  import opened Text

  /** `strings.ReplaceAll` for a two-character pattern and a one-character replacement. */
  function ReplacePair(s: string, first: char, second: char, sub: char): string {
    if s == [] then []
    else if |s| >= 2 && s[0] == first && s[1] == second then [sub] + ReplacePair(s[2..], first, second, sub)
    else [s[0]] + ReplacePair(s[1..], first, second, sub)
  }

  /** The two replacements in the source's order. */
  function Unescape(token: string): string {
    ReplacePair(ReplacePair(token, '~', '1', '/'), '~', '0', '~')
  }

  function EscapeChar(c: char): string {
    if c == '~' then "~0" else if c == '/' then "~1" else [c]
  }

  /** Section 3 of RFC 6901: `~` is written ~0 and `/` is written ~1. */
  function Escape(token: string): string {
    if token == [] then [] else EscapeChar(token[0]) + Escape(token[1..])
  }

  /** What is left to undo after the first replacement. */
  function EscapeTildes(token: string): string {
    if token == [] then [] else (if token[0] == '~' then "~0" else [token[0]]) + EscapeTildes(token[1..])
  }

  lemma {:induction false} FirstReplacement(token: string)
    ensures ReplacePair(Escape(token), '~', '1', '/') == EscapeTildes(token)
  {
    if token != [] {
      FirstReplacement(token[1..]);
      var e := Escape(token);
      if token[0] == '~' {
        assert e[1..] == "0" + Escape(token[1..]) && e[1..][1..] == Escape(token[1..]);
      } else if token[0] == '/' {
        assert e[2..] == Escape(token[1..]);
      } else {
        assert e[1..] == Escape(token[1..]);
      }
    }
  }

  lemma {:induction false} SecondReplacement(token: string)
    ensures ReplacePair(EscapeTildes(token), '~', '0', '~') == token
  {
    if token != [] {
      SecondReplacement(token[1..]);
      var e := EscapeTildes(token);
      if token[0] == '~' {
        assert e[2..] == EscapeTildes(token[1..]);
      } else {
        assert e[1..] == EscapeTildes(token[1..]);
      }
      assert token == [token[0]] + token[1..];
    }
  }

  /** Unescaping undoes the escaping of section 4 of RFC 6901 on every token. */
  lemma UnescapeEscape(token: string)
    ensures Unescape(Escape(token)) == token
  {
    FirstReplacement(token);
    SecondReplacement(token);
  }

  predicate IsDigit(c: char) {
    '0' <= c <= '9'
  }

  predicate IsIdentStart(c: char) {
    'a' <= c <= 'z' || 'A' <= c <= 'Z' || c == '_'
  }

  predicate IsIdentChar(c: char) {
    IsIdentStart(c) || c == '-' || IsDigit(c)
  }

  predicate IsArrayIndex(token: string) {
    token != "" && forall i :: 0 <= i < |token| ==> IsDigit(token[i])
  }

  predicate IsIdentifier(token: string) {
    token != "" && IsIdentStart(token[0]) && forall i :: 0 <= i < |token| ==> IsIdentChar(token[i])
  }

  function HexDigit(n: nat): char
    requires n < 16
  {
    "0123456789abcdef"[n]
  }

  function Hex(n: nat, width: nat): string {
    if width == 0 then "" else Hex(n / 16, width - 1) + [HexDigit(n % 16)]
  }

  /** The letter of the short escape of a control character, if it has one. */
  function Letter(c: char): Option<char> {
    if c == '\U{7}' then Some('a')
    else if c == '\U{8}' then Some('b')
    else if c == '\U{C}' then Some('f')
    else if c == '\n' then Some('n')
    else if c == '\r' then Some('r')
    else if c == '\t' then Some('t')
    else if c == '\U{B}' then Some('v')
    else None
  }

  function HexEscape(c: char): string {
    if c < ' ' || c == '\U{7F}' then ['\\', 'x'] + Hex(c as int, 2)
    else if c < '\U{10000}' then ['\\', 'u'] + Hex(c as int, 4)
    else ['\\', 'U'] + Hex(c as int, 8)
  }

  /** One character of strconv.Quote; `printable` is unicode.IsPrint. */
  function QuoteChar(c: char, printable: char -> bool): string {
    if c == '"' || c == '\\' then ['\\', c]
    else if printable(c) then [c]
    else if Letter(c).Some? then ['\\', Letter(c).value]
    else HexEscape(c)
  }

  function QuoteBody(s: string, printable: char -> bool): string {
    if s == [] then [] else QuoteChar(s[0], printable) + QuoteBody(s[1..], printable)
  }

  function RenderToken(token: string, printable: char -> bool): string {
    if IsArrayIndex(token) then "[" + (token + "]")
    else if IsIdentifier(token) then "." + token
    else "[\"" + (QuoteBody(token, printable) + "\"]")
  }

  function RenderAll(tokens: seq<string>, printable: char -> bool): string {
    if tokens == [] then "" else RenderToken(tokens[0], printable) + RenderAll(tokens[1..], printable)
  }

  /** The path of a token list. */
  function Path(tokens: seq<string>, printable: char -> bool): string {
    "$" + RenderAll(tokens, printable)
  }

  function MapUnescape(tokens: seq<string>): (r: seq<string>)
    ensures |r| == |tokens| && forall i :: 0 <= i < |r| ==> r[i] == Unescape(tokens[i])
  {
    seq(|tokens|, i requires 0 <= i < |tokens| => Unescape(tokens[i]))
  }

  function TrimSlash(pointer: string): string {
    if pointer != [] && pointer[0] == '/' then pointer[1..] else pointer
  }

  function PathOf(pointer: string, printable: char -> bool): string {
    var trimmed := TrimSpace(pointer);
    if trimmed == "" || trimmed == "/" then "$"
    else Path(MapUnescape(Split(TrimSlash(trimmed), '/')), printable)
  }

  lemma {:induction false} RenderAllAppend(a: seq<string>, b: seq<string>, printable: char -> bool)
    ensures RenderAll(a + b, printable) == RenderAll(a, printable) + RenderAll(b, printable)
  {
    if a == [] {
      assert a + b == b;
    } else {
      assert (a + b)[1..] == a[1..] + b;
      RenderAllAppend(a[1..], b, printable);
    }
  }

  /**
   * How one more token lengthens a path: a row of digits in brackets, a name behind a dot, and other text in brackets
   * and quotes, as it is where every character is printable and neither a quote nor a backslash.
   */
  lemma PathGrows(tokens: seq<string>, token: string, printable: char -> bool)
    ensures Path([], printable) == "$"
    ensures var digits := token != "" && forall i :: 0 <= i < |token| ==> '0' <= token[i] <= '9';
            var letters := forall i :: 0 <= i < |token| ==>
              || 'a' <= token[i] <= 'z' || 'A' <= token[i] <= 'Z' || '0' <= token[i] <= '9'
              || token[i] == '_' || token[i] == '-';
            var name := token != "" && letters && token[0] != '-' && !('0' <= token[0] <= '9');
            var plain := forall i :: 0 <= i < |token| ==> printable(token[i]) && token[i] != '"' && token[i] != '\\';
            && (digits ==> Path(tokens + [token], printable) == Path(tokens, printable) + ("[" + (token + "]")))
            && (name ==> Path(tokens + [token], printable) == Path(tokens, printable) + ("." + token))
            && (!digits && !name && plain ==>
                  Path(tokens + [token], printable) == Path(tokens, printable) + ("[\"" + (token + "\"]")))
  {
    var all := tokens + [token];
    RenderNext(all, |tokens|, printable);
    assert all[..|tokens|] == tokens && all[..|tokens| + 1] == all;
    if forall i :: 0 <= i < |token| ==> printable(token[i]) && token[i] != '"' && token[i] != '\\' {
      PlainBody(token, printable);
    }
  }

  lemma {:induction false} PlainBody(s: string, printable: char -> bool)
    requires forall i :: 0 <= i < |s| ==> printable(s[i]) && s[i] != '"' && s[i] != '\\'
    ensures QuoteBody(s, printable) == s
  {
    if s != [] {
      PlainBody(s[1..], printable);
      assert s == [s[0]] + s[1..];
    }
  }

  lemma RenderNext(tokens: seq<string>, i: nat, printable: char -> bool)
    requires i < |tokens|
    ensures Path(tokens[..i + 1], printable) == Path(tokens[..i], printable) + RenderToken(tokens[i], printable)
  {
    PrefixStep(tokens, i);
    RenderAllAppend(tokens[..i], [tokens[i]], printable);
  }

  /** The switch of the loop: what the builder holds after one more token. */
  method WriteToken(builder: string, token: string, printable: char -> bool) returns (longer: string)
    ensures longer == builder + RenderToken(token, printable)
  {
    if IsArrayIndex(token) {
      longer := builder + ("[" + (token + "]"));
    } else if IsIdentifier(token) {
      longer := builder + ("." + token);
    } else {
      longer := builder + ("[\"" + (QuoteBody(token, printable) + "\"]"));
    }
  }

  method PointerToPath(pointer: string, printable: char -> bool) returns (path: string)
    ensures path == PathOf(pointer, printable)
  {
    var trimmed := TrimSpace(pointer);
    if trimmed == "" || trimmed == "/" {
      return "$";
    }
    path := "$";
    var tokens := Split(TrimSlash(trimmed), '/');
    ghost var plain := MapUnescape(tokens);
    for i := 0 to |tokens|
      invariant path == Path(plain[..i], printable)
    {
      var token := ReplacePair(tokens[i], '~', '1', '/');
      token := ReplacePair(token, '~', '0', '~');
      RenderNext(plain, i, printable);
      path := WriteToken(path, token, printable);
    }
    assert plain[..|tokens|] == plain;
  }

  // ---- Reading a path back ----

  lemma {:induction false} HexInjective(n: nat, m: nat, width: nat)
    requires Hex(n, width) == Hex(m, width) && Fits(n, width) && Fits(m, width)
    ensures n == m
  {
    if width > 0 {
      var a, b := Hex(n, width), Hex(m, width);
      assert a[|a| - 1] == b[|b| - 1] && a[..|a| - 1] == b[..|b| - 1];
      assert n % 16 == m % 16;
      HexInjective(n / 16, m / 16, width - 1);
    }
  }

  ghost predicate Fits(n: nat, width: nat) {
    if width == 0 then n == 0 else Fits(n / 16, width - 1)
  }

  lemma {:induction false} HexLength(n: nat, width: nat)
    ensures |Hex(n, width)| == width
  {
    if width > 0 { HexLength(n / 16, width - 1); }
  }

  lemma CharsFit(c: char)
    ensures c as int < 256 ==> Fits(c as int, 2)
    ensures c < '\U{10000}' ==> Fits(c as int, 4)
    ensures Fits(c as int, 8)
  {
    var n := c as int;
    FitsFour(n);
    FitsEight(n);
  }

  lemma FitsFour(n: nat)
    ensures n < 65536 ==> Fits(n, 4)
    ensures n < 256 ==> Fits(n, 2)
  {
    if n < 65536 {
      assert n / 16 / 16 / 16 / 16 == 0;
      assert Fits(n / 16 / 16 / 16 / 16, 0) && Fits(n / 16 / 16 / 16, 1) && Fits(n / 16 / 16, 2) && Fits(n / 16, 3);
    }
    if n < 256 {
      assert n / 16 / 16 == 0;
      assert Fits(n / 16, 1);
    }
  }

  lemma FitsEight(n: nat)
    requires n < 0x110000
    ensures Fits(n, 8)
  {
    var a := n / 16;
    var b := a / 16;
    var c := b / 16;
    var d := c / 16;
    assert d < 65536;
    FitsFour(d);
    assert Fits(c, 5) && Fits(b, 6) && Fits(a, 7);
  }

  /** The length of the escape a quoted body starts with. */
  function CodeLength(s: string): nat {
    if s == [] then 0
    else if s[0] != '\\' || |s| == 1 then 1
    else if s[1] == 'x' then 4
    else if s[1] == 'u' then 6
    else if s[1] == 'U' then 10
    else 2
  }

  /** The character a two-character escape stands for. */
  function Meaning(letter: char): char {
    if letter == 'a' then '\U{7}'
    else if letter == 'b' then '\U{8}'
    else if letter == 'f' then '\U{C}'
    else if letter == 'n' then '\n'
    else if letter == 'r' then '\r'
    else if letter == 't' then '\t'
    else if letter == 'v' then '\U{B}'
    else letter
  }

  lemma LettersMean(c: char)
    requires Letter(c).Some?
    ensures Meaning(Letter(c).value) == c && Letter(c).value !in {'x', 'u', 'U', '"', '\\'}
  {
  }

  /** Which hexadecimal escape q is, and that it is c's. */
  ghost predicate IsHexOf(q: string, c: char) {
    || (q == ['\\', 'x'] + Hex(c as int, 2) && Fits(c as int, 2) && |q| == 4)
    || (q == ['\\', 'u'] + Hex(c as int, 4) && Fits(c as int, 4) && |q| == 6)
    || (q == ['\\', 'U'] + Hex(c as int, 8) && Fits(c as int, 8) && |q| == 10)
  }

  lemma HexEscapeShape(c: char)
    ensures IsHexOf(HexEscape(c), c) && CodeLength(HexEscape(c)) == |HexEscape(c)|
  {
    CharsFit(c);
    HexLength(c as int, 2);
    HexLength(c as int, 4);
    HexLength(c as int, 8);
  }

  lemma HexEscapeInjective(q: string, c: char, d: char)
    requires IsHexOf(q, c) && IsHexOf(q, d)
    ensures c == d
  {
    var digits := q[2..];
    assert digits == Hex(c as int, |q| - 2) && digits == Hex(d as int, |q| - 2);
    HexInjective(c as int, d as int, |q| - 2);
  }

  ghost predicate IsCodeOf(q: string, c: char) {
    || (q == [c] && c != '\\')
    || (|q| == 2 && q[0] == '\\' && q[1] !in {'x', 'u', 'U'} && c == Meaning(q[1]))
    || IsHexOf(q, c)
  }

  lemma QuoteShape(c: char, printable: char -> bool)
    ensures var q := QuoteChar(c, printable);
            IsCodeOf(q, c) && q != [] && q[0] != '"' && CodeLength(q) == |q|
  {
    HexEscapeShape(c);
    if Letter(c).Some? { LettersMean(c); }
  }

  lemma QuoteCharInjective(c: char, d: char, printable: char -> bool)
    requires QuoteChar(c, printable) == QuoteChar(d, printable)
    ensures c == d
  {
    var q := QuoteChar(c, printable);
    QuoteShape(c, printable);
    QuoteShape(d, printable);
    if IsHexOf(q, c) && IsHexOf(q, d) {
      HexEscapeInjective(q, c, d);
    }
  }

  /** No escape is the beginning of another: the first character can be read off. */
  lemma QuoteCharReads(c: char, d: char, x: string, y: string, printable: char -> bool)
    requires QuoteChar(c, printable) + x == QuoteChar(d, printable) + y
    ensures c == d && x == y
  {
    var p, q := QuoteChar(c, printable), QuoteChar(d, printable);
    QuoteShape(c, printable);
    QuoteShape(d, printable);
    assert CodeLength(p + x) == |p| && CodeLength(q + y) == |q|;
    assert p == (p + x)[..|p|] && q == (q + y)[..|q|];
    assert x == (p + x)[|p|..] && y == (q + y)[|q|..];
    QuoteCharInjective(c, d, printable);
  }

  lemma BodyHead(s: string, x: string, printable: char -> bool)
    ensures var whole := QuoteBody(s, printable) + ("\"" + x);
            && whole != [] && (s == [] <==> whole[0] == '"')
            && (s == [] ==> whole[1..] == x)
            && (s != [] ==> whole == QuoteChar(s[0], printable) + (QuoteBody(s[1..], printable) + ("\"" + x)))
  {
    if s == [] {
      assert (QuoteBody(s, printable) + ("\"" + x)) == "\"" + x;
    } else {
      QuoteShape(s[0], printable);
      Regroup(QuoteChar(s[0], printable), QuoteBody(s[1..], printable), "\"" + x);
    }
  }

  /** A quoted body is read up to its closing quote. */
  lemma {:induction false} QuoteBodyReads(s: string, t: string, x: string, y: string, printable: char -> bool)
    requires QuoteBody(s, printable) + ("\"" + x) == QuoteBody(t, printable) + ("\"" + y)
    ensures s == t && x == y
    decreases |s|
  {
    BodyHead(s, x, printable);
    BodyHead(t, y, printable);
    if s != [] {
      QuoteCharReads(s[0], t[0], QuoteBody(s[1..], printable) + ("\"" + x), QuoteBody(t[1..], printable) + ("\"" + y),
                     printable);
      QuoteBodyReads(s[1..], t[1..], x, y, printable);
      assert s == [s[0]] + s[1..] && t == [t[0]] + t[1..];
    }
  }

  lemma RunHead(s: string, x: string, inClass: char -> bool)
    requires (forall i :: 0 <= i < |s| ==> inClass(s[i])) && (x != [] ==> !inClass(x[0]))
    ensures s == [] <==> s + x == [] || !inClass((s + x)[0])
    ensures s == [] ==> s + x == x
    ensures s != [] ==> (s + x)[0] == s[0] && (s + x)[1..] == s[1..] + x
  {
  }

  /** Two runs of characters of one class, each followed by nothing or by a character outside it. */
  lemma {:induction false} RunReads(s: string, t: string, x: string, y: string, inClass: char -> bool)
    requires s + x == t + y
    requires (forall i :: 0 <= i < |s| ==> inClass(s[i])) && (forall i :: 0 <= i < |t| ==> inClass(t[i]))
    requires (x != [] ==> !inClass(x[0])) && (y != [] ==> !inClass(y[0]))
    ensures s == t && x == y
  {
    RunHead(s, x, inClass);
    RunHead(t, y, inClass);
    if s != [] {
      RunReads(s[1..], t[1..], x, y, inClass);
      assert s == [s[0]] + s[1..] && t == [t[0]] + t[1..];
    }
  }

  /** The rest of a path: nothing, or the next rendered token. */
  ghost predicate IsRest(x: string) {
    x != [] ==> x[0] == '.' || x[0] == '['
  }

  /** A token in one of the three forms, its text behind the first one or two characters. */
  lemma ShapeOf(a: string, x: string, printable: char -> bool)
    ensures var whole := RenderToken(a, printable) + x;
            if IsArrayIndex(a) then |whole| >= 2 && whole[0] == '[' && whole[1] != '"' && whole[1..] == a + ("]" + x)
            else if IsIdentifier(a) then |whole| >= 2 && whole[0] == '.' && whole[1..] == a + x
            else |whole| >= 2 && whole[0] == '[' && whole[1] == '"'
                 && whole[2..] == QuoteBody(a, printable) + ("\"" + ("]" + x))
  {
    if IsArrayIndex(a) {
      Regroup("[", a + "]", x);
      Regroup(a, "]", x);
    } else if IsIdentifier(a) {
      Regroup(".", a, x);
    } else {
      Regroup("[\"", QuoteBody(a, printable) + "\"]", x);
      Regroup(QuoteBody(a, printable), "\"]", x);
      assert "\"]" + x == "\"" + ("]" + x);
    }
  }

  lemma RenderReads(a: string, b: string, x: string, y: string, printable: char -> bool)
    requires RenderToken(a, printable) + x == RenderToken(b, printable) + y && IsRest(x) && IsRest(y)
    ensures a == b && x == y
  {
    ShapeOf(a, x, printable);
    ShapeOf(b, y, printable);
    SameForm(a, b, x, y, printable);
    if IsArrayIndex(a) {
      RunReads(a, b, "]" + x, "]" + y, IsDigit);
    } else if IsIdentifier(a) {
      RunReads(a, b, x, y, IsIdentChar);
    } else {
      QuoteBodyReads(a, b, "]" + x, "]" + y, printable);
    }
    assert x == ("]" + x)[1..] && y == ("]" + y)[1..];
  }

  /** The first two characters tell which of the three forms a token has. */
  lemma SameForm(a: string, b: string, x: string, y: string, printable: char -> bool)
    requires RenderToken(a, printable) + x == RenderToken(b, printable) + y
    ensures IsArrayIndex(a) == IsArrayIndex(b)
    ensures !IsArrayIndex(a) ==> IsIdentifier(a) == IsIdentifier(b)
  {
    ShapeOf(a, x, printable);
    ShapeOf(b, y, printable);
  }

  lemma {:induction false} PathsReads(a: seq<string>, b: seq<string>, printable: char -> bool)
    requires RenderAll(a, printable) == RenderAll(b, printable)
    ensures a == b
  {
    if a != [] { RestOf(a, printable); ShapeOf(a[0], RenderAll(a[1..], printable), printable); }
    if b != [] { RestOf(b, printable); ShapeOf(b[0], RenderAll(b[1..], printable), printable); }
    if a != [] && b != [] {
      RenderReads(a[0], b[0], RenderAll(a[1..], printable), RenderAll(b[1..], printable), printable);
      PathsReads(a[1..], b[1..], printable);
      assert a == [a[0]] + a[1..] && b == [b[0]] + b[1..];
    }
  }

  lemma RestOf(a: seq<string>, printable: char -> bool)
    requires a != []
    ensures IsRest(RenderAll(a[1..], printable))
  {
    if a[1..] != [] {
      ShapeOf(a[1], RenderAll(a[1..][1..], printable), printable);
    }
  }

  /** Different token lists never render to the same path. */
  lemma PathInjective(a: seq<string>, b: seq<string>, printable: char -> bool)
    requires Path(a, printable) == Path(b, printable)
    ensures a == b
  {
    assert Path(a, printable)[1..] == RenderAll(a, printable) && Path(b, printable)[1..] == RenderAll(b, printable);
    PathsReads(a, b, printable);
  }

  // ---- Pointers, trimmed and split ----

  /** The pointer of a token list (section 3 of RFC 6901). */
  function PointerOf(tokens: seq<string>): string {
    if tokens == [] then "" else "/" + Escape(tokens[0]) + PointerOf(tokens[1..])
  }

  function MapEscape(tokens: seq<string>): (r: seq<string>)
    ensures |r| == |tokens| && forall i :: 0 <= i < |r| ==> r[i] == Escape(tokens[i])
  {
    seq(|tokens|, i requires 0 <= i < |tokens| => Escape(tokens[i]))
  }

  lemma {:induction false} EscapeHidesSlash(token: string)
    ensures '/' !in Escape(token)
  {
    if token != [] { EscapeHidesSlash(token[1..]); }
  }

  lemma {:induction false} PointerIsJoin(tokens: seq<string>)
    requires tokens != []
    ensures PointerOf(tokens) == "/" + Join(MapEscape(tokens), "/")
  {
    var e := MapEscape(tokens);
    assert e[1..] == MapEscape(tokens[1..]);
    if |tokens| == 1 {
      assert PointerOf(tokens[1..]) == "";
      assert "/" + Escape(tokens[0]) + "" == "/" + Escape(tokens[0]);
    } else {
      PointerIsJoin(tokens[1..]);
      assert "/" + Escape(tokens[0]) + ("/" + Join(e[1..], "/")) == "/" + (Escape(tokens[0]) + "/" + Join(e[1..], "/"));
    }
  }

  /** Splitting and unescaping an untrimmed pointer gives its tokens. */
  lemma PointerReads(tokens: seq<string>)
    requires tokens != []
    ensures PointerOf(tokens) != [] && PointerOf(tokens)[0] == '/'
    ensures MapUnescape(Split(TrimSlash(PointerOf(tokens)), '/')) == tokens
  {
    var e := MapEscape(tokens);
    PointerIsJoin(tokens);
    assert PointerOf(tokens)[1..] == Join(e, "/");
    forall i | 0 <= i < |e| ensures '/' !in e[i] { EscapeHidesSlash(tokens[i]); }
    SplitOfJoin(e, '/');
    forall i | 0 <= i < |tokens| ensures Unescape(e[i]) == tokens[i] { UnescapeEscape(tokens[i]); }
    assert MapUnescape(e) == tokens;
  }

  function TrimRight(s: string): string {
    if s != [] && IsSpace(s[|s| - 1]) then TrimRight(s[..|s| - 1]) else s
  }

  lemma {:induction false} TrimSpaceIsTrimRight(s: string)
    requires s != [] && !IsSpace(s[0])
    ensures TrimSpace(s) == TrimRight(s)
  {
    if IsSpace(s[|s| - 1]) {
      assert |s| > 1;
      TrimSpaceIsTrimRight(s[..|s| - 1]);
    }
  }

  lemma {:induction false} TrimRightConcat(a: string, b: string)
    requires a != [] && !IsSpace(a[|a| - 1])
    ensures TrimRight(a + b) == a + TrimRight(b)
    decreases |b|
  {
    if b == [] {
      assert a + b == a;
    } else if IsSpace(b[|b| - 1]) {
      assert (a + b)[..|a + b| - 1] == a + b[..|b| - 1];
      TrimRightConcat(a, b[..|b| - 1]);
    }
  }

  lemma {:induction false} EscapeAppend(a: string, c: char)
    ensures Escape(a + [c]) == Escape(a) + EscapeChar(c)
  {
    if a == [] {
      assert a + [c] == [c] && [c][1..] == [];
      assert Escape([c]) == EscapeChar(c) + [];
    } else {
      assert (a + [c])[1..] == a[1..] + [c];
      EscapeAppend(a[1..], c);
    }
  }

  /** White space is not escaped and no escape ends in it, so trimming and escaping commute. */
  lemma {:induction false} TrimEscape(token: string)
    ensures TrimRight(Escape(token)) == Escape(TrimRight(token))
    decreases |token|
  {
    if token != [] {
      var n := |token| - 1;
      var front, last := token[..n], token[n];
      assert token == front + [last];
      EscapeAppend(front, last);
      var e := Escape(token);
      assert e[|e| - 1] == EscapeChar(last)[|EscapeChar(last)| - 1];
      if IsSpace(last) {
        assert e[..|e| - 1] == Escape(front);
        TrimEscape(front);
      }
    }
  }

  /** The token list a pointer stands for once its trailing white space is gone: the last token is trimmed, and a lone
      empty token is the whole document. */
  function Normal(tokens: seq<string>): seq<string> {
    if tokens == [] then []
    else
      var n := |tokens| - 1;
      var trimmed := tokens[..n] + [TrimRight(tokens[n])];
      if trimmed == [""] then [] else trimmed
  }

  lemma {:induction false} PointerLast(front: seq<string>, last: string)
    ensures PointerOf(front + [last]) == PointerOf(front) + ("/" + Escape(last))
  {
    if front == [] {
      assert front + [last] == [last] && [last][1..] == [];
      assert PointerOf([last]) == "/" + Escape(last) + "";
    } else {
      assert (front + [last])[1..] == front[1..] + [last];
      PointerLast(front[1..], last);
    }
  }

  /** A pointer before its last token. */
  function PointerHead(tokens: seq<string>): string {
    PointerOf(tokens) + "/"
  }

  lemma PointerOnto(front: seq<string>, last: string)
    ensures PointerOf(front + [last]) == PointerHead(front) + Escape(last)
  {
    PointerLast(front, last);
  }

  lemma HeadIsSlashed(tokens: seq<string>)
    ensures var head := PointerHead(tokens);
            head != "" && head[0] == '/' && head[|head| - 1] == '/'
  {
    if tokens != [] {
      PointerReads(tokens);
    }
  }

  lemma TrimBehindSlash(head: string, last: string)
    requires head != "" && head[0] == '/' && head[|head| - 1] == '/'
    ensures TrimSpace(head + Escape(last)) == head + Escape(TrimRight(last))
  {
    TrimSpaceIsTrimRight(head + Escape(last));
    TrimRightConcat(head, Escape(last));
    TrimEscape(last);
  }

  /** What TrimSpace does to a pointer. */
  lemma TrimPointer(front: seq<string>, last: string)
    ensures TrimSpace(PointerOf(front + [last])) == PointerOf(front + [TrimRight(last)])
  {
    PointerOnto(front, last);
    PointerOnto(front, TrimRight(last));
    HeadIsSlashed(front);
    TrimBehindSlash(PointerHead(front), last);
  }

  lemma PointerIsSlash(tokens: seq<string>)
    requires tokens != []
    ensures PointerOf(tokens) == "/" <==> tokens == [""]
  {
    PointerReads(tokens);
    if PointerOf(tokens) == "/" {
      assert TrimSlash("/") == "";
      assert Split("", '/') == [""];
      assert MapUnescape([""]) == [""];
    }
    assert [""][1..] == [];
  }

  /** The path of any pointer is the rendering of its normal token list. */
  lemma PathOfPointer(tokens: seq<string>, printable: char -> bool)
    ensures PathOf(PointerOf(tokens), printable) == Path(Normal(tokens), printable)
  {
    if tokens != [] {
      var n := |tokens| - 1;
      var trimmed := tokens[..n] + [TrimRight(tokens[n])];
      assert tokens == tokens[..n] + [tokens[n]];
      TrimPointer(tokens[..n], tokens[n]);
      PointerReads(trimmed);
      PointerIsSlash(trimmed);
    }
  }

  /** Two token lists get the same path exactly when their normal lists are the same. */
  lemma SamePathIffSameNormal(a: seq<string>, b: seq<string>, printable: char -> bool)
    ensures PathOf(PointerOf(a), printable) == PathOf(PointerOf(b), printable) <==> Normal(a) == Normal(b)
  {
    PathOfPointer(a, printable);
    PathOfPointer(b, printable);
    if Path(Normal(a), printable) == Path(Normal(b), printable) {
      PathInjective(Normal(a), Normal(b), printable);
    }
  }

  predicate EndsInSpace(s: string) {
    s != "" && IsSpace(s[|s| - 1])
  }

  /** A token list is its own normal list unless it is the lone empty token or its pointer ends in white space. */
  lemma NormalIffUntrimmed(tokens: seq<string>)
    ensures Normal(tokens) == tokens
       <==> tokens != [""] && (tokens == [] || !EndsInSpace(tokens[|tokens| - 1]))
  {
    if tokens != [] {
      var n := |tokens| - 1;
      TrimShortens(tokens[n]);
      var trimmed := tokens[..n] + [TrimRight(tokens[n])];
      assert tokens == tokens[..n] + [tokens[n]];
      assert trimmed == tokens <==> TrimRight(tokens[n]) == tokens[n] by {
        assert trimmed[n] == TrimRight(tokens[n]);
      }
    }
  }

  lemma {:induction false} TrimShortens(s: string)
    ensures |TrimRight(s)| <= |s| && (s != [] && IsSpace(s[|s| - 1]) ==> |TrimRight(s)| < |s|)
  {
    if s != [] && IsSpace(s[|s| - 1]) { TrimShortens(s[..|s| - 1]); }
  }
}
