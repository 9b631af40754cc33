/**
 * TXT record values: `quoteTXT` (internal/aws/route53.go) against `parseDKIMRecord` (internal/cli/mail_hosting.go). A
 * `char` stands for one byte.
 */
module TxtRecord {
  import opened Text

  /** A character-string holds at most 255 octets (section 3.3 of RFC 1035). */
  const SEGMENT_MAX := 255

  function Concat(parts: seq<string>): string {
    if parts == [] then "" else parts[0] + Concat(parts[1..])
  }

  lemma {:induction false} ConcatAppend(a: seq<string>, b: seq<string>)
    ensures Concat(a + b) == Concat(a) + Concat(b)
    decreases |a|
  {
    if a == [] {
      assert a + b == b;
    } else {
      assert (a + b)[1..] == a[1..] + b;
      ConcatAppend(a[1..], b);
    }
  }

  /** Pieces of at most 255 octets, none empty and every one but the last full, that make up the value. */
  ghost predicate IsSegmentation(parts: seq<string>, value: string) {
    && Concat(parts) == value
    && (forall i :: 0 <= i < |parts| ==> 0 < |parts[i]| <= 255)
    && (forall i :: 0 <= i < |parts| - 1 ==> |parts[i]| == 255)
  }

  /** A value has only one segmentation. */
  lemma {:induction false} SegmentationUnique(a: seq<string>, b: seq<string>, value: string)
    requires IsSegmentation(a, value) && IsSegmentation(b, value)
    ensures a == b
    decreases |a|
  {
    if a == [] || b == [] {
      assert value == "";
    } else {
      SegmentHead(a, value);
      SegmentHead(b, value);
      SegmentationUnique(a[1..], b[1..], value[|a[0]|..]);
      assert a == [a[0]] + a[1..] && b == [b[0]] + b[1..];
    }
  }

  lemma SegmentHead(a: seq<string>, value: string)
    requires a != [] && IsSegmentation(a, value)
    ensures |a[0]| == (if |value| < SEGMENT_MAX then |value| else SEGMENT_MAX) && a[0] == value[..|a[0]|]
    ensures IsSegmentation(a[1..], value[|a[0]|..])
  {
    assert value[|a[0]|..] == Concat(a[1..]);
    if |a| > 1 {
      assert |Concat(a[1..])| >= |a[1]|;
    } else {
      assert a[1..] == [];
    }
  }

  function Wrap(s: string): string {
    "\"" + s + "\""
  }

  function WrapAll(parts: seq<string>): (r: seq<string>)
    ensures |r| == |parts| && forall i :: 0 <= i < |r| ==> r[i] == Wrap(parts[i])
  {
    seq(|parts|, i requires 0 <= i < |parts| => Wrap(parts[i]))
  }

  /** The record data for the segments; an empty value is one empty string. */
  function Rendered(parts: seq<string>): string {
    if parts == [] then "\"\"" else Join(WrapAll(parts), " ")
  }

  /** `min(len(b), txtSegmentMax)`. */
  function SegmentLen(b: string): (n: nat)
    ensures n <= |b| && (b != "" ==> n > 0)
  {
    if |b| < SEGMENT_MAX then |b| else SEGMENT_MAX
  }

  /** The value cut at every 255 octets. */
  function Segments(value: string): seq<string>
    decreases |value|
  {
    if value == "" then []
    else
      var n := SegmentLen(value);
      [value[..n]] + Segments(value[n..])
  }

  lemma {:induction false} SegmentsAre(value: string)
    ensures IsSegmentation(Segments(value), value)
    decreases |value|
  {
    if value != "" {
      var n := SegmentLen(value);
      var rest := value[n..];
      var parts := Segments(value);
      SegmentsAre(rest);
      assert parts[1..] == Segments(rest) && value[..n] + rest == value;
      assert forall i :: 1 <= i < |parts| ==> parts[i] == Segments(rest)[i - 1];
      assert |parts| > 1 ==> rest != "";
    }
  }

  /** Only one list of strings is such a cut of the value. */
  lemma SegmentationIff(parts: seq<string>, value: string)
    ensures IsSegmentation(parts, value) <==> parts == Segments(value)
  {
    SegmentsAre(value);
    if IsSegmentation(parts, value) {
      SegmentationUnique(parts, Segments(value), value);
    }
  }

  lemma NextSegment(segments: seq<string>, b: string)
    requires b != ""
    ensures segments + WrapAll(Segments(b))
         == segments + [Wrap(b[..SegmentLen(b)])] + WrapAll(Segments(b[SegmentLen(b)..]))
  {
    var first, rest := b[..SegmentLen(b)], Segments(b[SegmentLen(b)..]);
    assert WrapAll([first] + rest) == [Wrap(first)] + WrapAll(rest);
  }

  /** The loop of `quoteTXT`. */
  method CutUp(value: string) returns (segments: seq<string>)
    ensures segments == WrapAll(Segments(value))
  {
    ghost var all := WrapAll(Segments(value));
    var b := value;
    segments := [];
    assert segments + all == all;
    while |b| > 0
      invariant segments + WrapAll(Segments(b)) == all
      decreases |b|
    {
      var n := SegmentLen(b);
      NextSegment(segments, b);
      segments := segments + [Wrap(b[..n])];
      b := b[n..];
    }
    assert WrapAll(Segments(b)) == [] && segments + [] == segments;
  }

  /** `quoteTXT`. */
  method QuoteTXT(value: string) returns (record: string)
    ensures record == Rendered(Segments(value))
  {
    if value == "" {
      return "\"\"";
    }
    var segments := CutUp(value);
    record := Join(segments, " ");
  }

  /** The index of the first quote, or the length. */
  function QuoteIndex(s: string): (i: nat)
    ensures i <= |s| && '"' !in s[..i] && (i < |s| ==> s[i] == '"')
  {
    if s == "" || s[0] == '"' then 0
    else
      var rest := QuoteIndex(s[1..]);
      assert s[..1 + rest] == [s[0]] + s[1..][..rest];
      1 + rest
  }

  /** The submatches of every match of `"([^"]*)"`, leftmost first. */
  function Matches(raw: string): seq<string>
    decreases |raw|
  {
    var i := QuoteIndex(raw);
    if i == |raw| then []
    else
      var rest := raw[i + 1..];
      var j := QuoteIndex(rest);
      if j == |rest| then [] else [rest[..j]] + Matches(rest[j + 1..])
  }

  lemma {:induction false} QuoteIndexIs(s: string, a: string, rest: string)
    requires s == a + "\"" + rest && '"' !in a
    ensures QuoteIndex(s) == |a|
    decreases |a|
  {
    if a != "" {
      assert s[0] == a[0] && s[1..] == a[1..] + "\"" + rest;
      QuoteIndexIs(s[1..], a[1..], rest);
    }
  }

  lemma MatchesFirst(a: string, b: string, rest: string)
    requires '"' !in a && '"' !in b
    ensures Matches(a + Wrap(b) + rest) == [b] + Matches(rest)
  {
    var s := a + Wrap(b) + rest;
    var inner := b + "\"" + rest;
    assert s == a + "\"" + inner;
    QuoteIndexIs(s, a, inner);
    assert s[|a| + 1..] == inner;
    QuoteIndexIs(inner, b, rest);
    assert inner[..|b|] == b && inner[|b| + 1..] == rest;
  }

  lemma MatchesNone(s: string)
    requires '"' !in s
    ensures Matches(s) == []
  {
    assert QuoteIndex(s) == |s|;
  }

  lemma SplitTwo(a: string, b: string, rest: string)
    requires '"' !in a && '"' !in b
    ensures Split(a + Wrap(b) + rest, '"') == [a, b] + Split(rest, '"')
  {
    assert a + Wrap(b) + rest == a + ['"'] + (b + ['"'] + rest);
    SplitFirst(a, b + ['"'] + rest, '"');
    SplitFirst(b, rest, '"');
  }

  lemma SplitOpen(a: string, b: string)
    requires '"' !in a && '"' !in b
    ensures Split(a + ['"'] + b, '"') == [a, b]
  {
    SplitFirst(a, b, '"');
    SplitWhole(b, '"');
  }

  lemma MatchesOpen(a: string, b: string)
    requires '"' !in a && '"' !in b
    ensures Matches(a + ['"'] + b) == []
  {
    var s := a + "\"" + b;
    QuoteIndexIs(s, a, b);
    assert s[|a| + 1..] == b;
    MatchesNone(b);
  }

  lemma UpToQuote(s: string) returns (a: string, found: bool, rest: string)
    ensures '"' !in a && s == if found then a + ['"'] + rest else a
  {
    var i := QuoteIndex(s);
    a, found, rest := s[..i], i < |s|, "";
    if found {
      rest := s[i + 1..];
    }
  }

  /** Where the scan of `Matches` goes: no match, or a first match and the text after it. */
  lemma MatchesCases(raw: string) returns (a: string, b: string, rest: string)
    ensures '"' !in a && '"' !in b && (Matches(raw) == [] ==> raw == a || raw == a + ['"'] + b)
    ensures Matches(raw) != [] ==> raw == a + Wrap(b) + rest && Matches(raw) == [b] + Matches(rest)
  {
    b, rest := "", "";
    var begun, closed, tail;
    a, begun, tail := UpToQuote(raw);
    if !begun {
      MatchesNone(raw);
      return;
    }
    b, closed, rest := UpToQuote(tail);
    if closed {
      assert a + ['"'] + (b + ['"'] + rest) == a + Wrap(b) + rest;
      MatchesFirst(a, b, rest);
    } else {
      MatchesOpen(a, b);
    }
  }

  /** The second part, the fourth, and so on, each with a part after it. */
  function OddParts(parts: seq<string>): seq<string> {
    if |parts| < 3 then [] else [parts[1]] + OddParts(parts[2..])
  }

  lemma OddPartsStep(a: string, b: string, later: seq<string>)
    requires later != []
    ensures OddParts([a, b] + later) == [b] + OddParts(later)
  {
    assert ([a, b] + later)[2..] == later;
  }

  /** The matches are what stands between the first and second quote, the third and fourth, and so on. */
  lemma {:induction false} MatchesAreOddParts(raw: string)
    ensures Matches(raw) == OddParts(Split(raw, '"'))
    decreases |raw|
  {
    var a, b, rest := MatchesCases(raw);
    if Matches(raw) == [] {
      if raw == a { SplitWhole(a, '"'); } else { SplitOpen(a, b); }
    } else {
      SplitTwo(a, b, rest);
      MatchesAreOddParts(rest);
      OddPartsStep(a, b, Split(rest, '"'));
    }
  }

  lemma {:induction false} MatchesHoldNoQuote(raw: string)
    ensures forall k :: 0 <= k < |Matches(raw)| ==> '"' !in Matches(raw)[k]
    decreases |raw|
  {
    var a, b, rest := MatchesCases(raw);
    if Matches(raw) != [] {
      MatchesHoldNoQuote(rest);
    }
  }

  lemma {:induction false} ConcatFree(parts: seq<string>, c: char)
    requires forall k :: 0 <= k < |parts| ==> c !in parts[k]
    ensures c !in Concat(parts)
    decreases |parts|
  {
    if parts != [] {
      ConcatFree(parts[1..], c);
    }
  }

  lemma {:induction false} PartsFree(parts: seq<string>, c: char)
    requires c !in Concat(parts)
    ensures forall k :: 0 <= k < |parts| ==> c !in parts[k]
    decreases |parts|
  {
    if parts != [] {
      PartsFree(parts[1..], c);
      assert parts == [parts[0]] + parts[1..];
    }
  }

  /** `strings.Contains`. */
  predicate Contains(s: string, needle: string) {
    needle <= s || (s != "" && Contains(s[1..], needle))
  }

  lemma {:induction false} ContainedStands(s: string, needle: string) returns (a: string, b: string)
    requires Contains(s, needle)
    ensures s == a + needle + b
    decreases |s|
  {
    if needle <= s {
      a, b := "", s[|needle|..];
      assert a + needle == needle;
    } else {
      a, b := ContainedStands(s[1..], needle);
      assert s == [s[0]] + s[1..];
      a := [s[0]] + a;
    }
  }

  lemma {:induction false} StandsContained(s: string, a: string, needle: string, b: string)
    requires s == a + needle + b
    ensures Contains(s, needle)
    decreases |a|
  {
    if a == "" {
      assert s == needle + b;
    } else {
      assert s[1..] == a[1..] + needle + b;
      StandsContained(s[1..], a[1..], needle, b);
    }
  }

  /** The needle stands somewhere in the text. */
  lemma ContainsIff(s: string, needle: string)
    ensures Contains(s, needle) <==> exists a, b :: s == a + needle + b
  {
    if Contains(s, needle) {
      var a, b := ContainedStands(s, needle);
    }
    if a, b :| s == a + needle + b {
      StandsContained(s, a, needle, b);
    }
  }

  const MARKER := "v=DKIM1"

  /** What `parseDKIMRecord` makes of the text of a zone file. */
  function Parsed(raw: string): string {
    var value := Concat(Matches(raw));
    if Contains(value, MARKER) then value else ""
  }

  method ParseDKIMRecord(raw: string) returns (value: string)
    ensures value == Parsed(raw)
  {
    var matches := Matches(raw);
    value := "";
    for i := 0 to |matches|
      invariant value == Concat(matches[..i])
    {
      PrefixStep(matches, i);
      ConcatAppend(matches[..i], [matches[i]]);
      assert Concat([matches[i]]) == matches[i] + "" == matches[i];
      value := value + matches[i];
    }
    assert matches[..|matches|] == matches;
    if !Contains(value, MARKER) {
      value := "";
    }
  }

  lemma JoinWrapped(parts: seq<string>)
    requires |parts| > 1
    ensures Join(WrapAll(parts), " ") == Wrap(parts[0]) + (" " + Join(WrapAll(parts[1..]), " "))
  {
    assert WrapAll(parts)[1..] == WrapAll(parts[1..]);
  }

  /** Reading the quoted strings of a list of quote-free strings gives the list back, after any quote-free lead. */
  lemma {:induction false} MatchesOfJoin(parts: seq<string>, lead: string)
    requires parts != [] && '"' !in lead && forall i :: 0 <= i < |parts| ==> '"' !in parts[i]
    ensures Matches(lead + Join(WrapAll(parts), " ")) == parts
    decreases |parts|
  {
    if |parts| == 1 {
      assert lead + Wrap(parts[0]) == lead + Wrap(parts[0]) + "";
      MatchesFirst(lead, parts[0], "");
      MatchesNone("");
    } else {
      var rest := Join(WrapAll(parts[1..]), " ");
      JoinWrapped(parts);
      assert lead + (Wrap(parts[0]) + (" " + rest)) == lead + Wrap(parts[0]) + (" " + rest);
      MatchesFirst(lead, parts[0], " " + rest);
      MatchesOfJoin(parts[1..], " ");
      assert parts == [parts[0]] + parts[1..];
    }
  }

  /** Reading back a rendered value gives the value exactly when it holds no quote. */
  lemma ReadBackIff(parts: seq<string>, value: string)
    requires IsSegmentation(parts, value)
    ensures Concat(Matches(Rendered(parts))) == value <==> '"' !in value
  {
    var read := Matches(Rendered(parts));
    MatchesHoldNoQuote(Rendered(parts));
    ConcatFree(read, '"');
    if '"' !in value {
      PartsFree(parts, '"');
      if parts == [] {
        assert "\"\"" == "" + Wrap("") + "";
        MatchesFirst("", "", "");
        MatchesNone("");
        assert Concat([""]) == "" + Concat([""][1..]) == "";
      } else {
        MatchesOfJoin(parts, "");
        assert "" + Join(WrapAll(parts), " ") == Join(WrapAll(parts), " ");
      }
    }
  }

  /** A value survives `quoteTXT` and `parseDKIMRecord` exactly when it is empty or a quote-free DKIM value. */
  lemma ParseUndoesQuoteIff(parts: seq<string>, value: string)
    requires IsSegmentation(parts, value)
    ensures Parsed(Rendered(parts)) == value <==> value == "" || ('"' !in value && Contains(value, "v=DKIM1"))
  {
    ReadBackIff(parts, value);
    if value == "" {
      assert !Contains("", MARKER);
    }
  }

  /** What `parseDKIMRecord` returns survives publication: quoting it and parsing it again changes nothing. */
  lemma PublishedValueSurvives(raw: string, parts: seq<string>)
    requires IsSegmentation(parts, Parsed(raw))
    ensures Parsed(Rendered(parts)) == Parsed(raw)
  {
    MatchesHoldNoQuote(raw);
    ConcatFree(Matches(raw), '"');
    ParseUndoesQuoteIff(parts, Parsed(raw));
  }
}
