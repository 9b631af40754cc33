/** Strings as the Go source uses them: the order of `sort.Strings`, and lists sorted by it. */
module Text {

  datatype Option<+T> = None | Some(value: T)

  /** Lexicographic order, the one `sort.Strings` and `slices.Sort` sort by. */
  predicate LessEq(a: string, b: string) {
    a == [] || (b != [] && (a[0] < b[0] || (a[0] == b[0] && LessEq(a[1..], b[1..]))))
  }

  /** The two agree up to i, and there the first has the lesser character. */
  ghost predicate LessAt(a: string, b: string, i: nat) {
    i < |a| && i < |b| && a[..i] == b[..i] && a[i] < b[i]
  }

  lemma LessAtTail(a: string, b: string, i: nat)
    requires a != [] && b != [] && a[0] == b[0]
    ensures LessAt(a, b, i + 1) <==> LessAt(a[1..], b[1..], i)
  {
    if i + 1 < |a| && i + 1 < |b| {
      assert a[..i + 1] == [a[0]] + a[1..][..i] && b[..i + 1] == [b[0]] + b[1..][..i];
      assert a[1..][..i] == a[..i + 1][1..] && b[1..][..i] == b[..i + 1][1..];
    }
  }

  lemma LessAtHead(a: string, b: string, i: nat)
    ensures LessAt(a, b, i) && i > 0 ==> a[0] == b[0]
  {
    if LessAt(a, b, i) && i > 0 {
      assert a[..i][0] == b[..i][0];
    }
  }

  lemma PrefixTail(a: string, b: string)
    requires a != [] && b != [] && a[0] == b[0]
    ensures a <= b <==> a[1..] <= b[1..]
  {
    assert a == [a[0]] + a[1..] && b == [b[0]] + b[1..];
  }

  /**
   * Lexicographic order, spelled out: a begins b, or at the first place where they differ it has the lesser character.
   */
  lemma {:induction false} LessEqIff(a: string, b: string)
    ensures LessEq(a, b) <==> a <= b || exists i: nat :: LessAt(a, b, i)
  {
    if a != [] && b != [] {
      if a[0] == b[0] {
        LessEqIff(a[1..], b[1..]);
        PrefixTail(a, b);
        if i: nat :| LessAt(a[1..], b[1..], i) { LessAtTail(a, b, i); }
        if i: nat :| LessAt(a, b, i) {
          LessAtTail(a, b, i - 1);
        }
      } else {
        assert LessAt(a, b, 0) <==> a[0] < b[0];
        forall i: nat ensures LessAt(a, b, i) ==> i == 0 {
          LessAtHead(a, b, i);
        }
      }
    }
  }

  predicate Less(a: string, b: string) {
    LessEq(a, b) && a != b
  }

  lemma {:induction false} LessEqTotal(a: string, b: string)
    ensures LessEq(a, b) || LessEq(b, a)
    ensures LessEq(a, b) && LessEq(b, a) ==> a == b
  {
    if a != [] && b != [] && a[0] == b[0] {
      LessEqTotal(a[1..], b[1..]);
      assert a == [a[0]] + a[1..] && b == [b[0]] + b[1..];
    }
  }

  lemma {:induction false} LessEqTransitive(a: string, b: string, c: string)
    requires LessEq(a, b) && LessEq(b, c)
    ensures LessEq(a, c)
  {
    if a != [] && a[0] == b[0] == c[0] {
      LessEqTransitive(a[1..], b[1..], c[1..]);
    }
  }

  ghost predicate IsSorted(s: seq<string>) {
    forall i, j :: 0 <= i < j < |s| ==> LessEq(s[i], s[j])
  }

  function Members(s: seq<string>): set<string> {
    set x | x in s
  }

  ghost predicate Distinct<T>(s: seq<T>) {
    forall i, j :: 0 <= i < j < |s| ==> s[i] != s[j]
  }

  function Insert(x: string, s: seq<string>): (r: seq<string>)
    ensures multiset(r) == multiset(s) + multiset{x}
  {
    if s == [] then [x]
    else if LessEq(x, s[0]) then [x] + s
    else
      assert s == [s[0]] + s[1..];
      [s[0]] + Insert(x, s[1..])
  }

  /** `sort.Strings`. */
  function Sorted(s: seq<string>): (r: seq<string>)
    ensures multiset(r) == multiset(s)
  {
    if s == [] then []
    else
      assert s == [s[0]] + s[1..];
      Insert(s[0], Sorted(s[1..]))
  }

  lemma {:induction false} InsertKeepsSorted(x: string, s: seq<string>)
    requires IsSorted(s)
    ensures IsSorted(Insert(x, s))
  {
    if s != [] {
      LessEqTotal(x, s[0]);
      if LessEq(x, s[0]) {
        forall j | 0 <= j < |s| ensures LessEq(x, s[j]) {
          if j > 0 { LessEqTransitive(x, s[0], s[j]); }
        }
      } else {
        InsertKeepsSorted(x, s[1..]);
        var r := Insert(x, s[1..]);
        forall j | 0 <= j < |r| ensures LessEq(s[0], r[j]) {
          assert r[j] in multiset(s[1..]) + multiset{x};
          if r[j] != x {
            var k :| 0 <= k < |s[1..]| && s[1..][k] == r[j];
          }
        }
      }
    }
  }

  lemma {:induction false} SortedIsSorted(s: seq<string>)
    ensures IsSorted(Sorted(s))
  {
    if s != [] {
      SortedIsSorted(s[1..]);
      InsertKeepsSorted(s[0], Sorted(s[1..]));
    }
  }

  lemma SameMembers<T>(a: seq<T>, b: seq<T>)
    requires multiset(a) == multiset(b)
    ensures |a| == |b|
    ensures forall x :: x in a <==> x in b
  {
    assert |multiset(a)| == |a| && |multiset(b)| == |b|;
    forall x ensures x in a <==> x in b {
      assert x in multiset(a) <==> x in multiset(b);
    }
  }

  /** The head of a sorted list is below every element of the list. */
  lemma HeadIsLeast(a: seq<string>, x: string)
    requires IsSorted(a) && x in a
    ensures LessEq(a[0], x)
  {
    var j :| 0 <= j < |a| && a[j] == x;
    LessEqTotal(a[0], a[0]);
  }

  lemma TailMultiset<T>(a: seq<T>)
    requires a != []
    ensures multiset(a[1..]) == multiset(a) - multiset{a[0]}
  {
    assert a == [a[0]] + a[1..];
  }

  /** Two sorted lists of the same strings are the same list. */
  lemma {:induction false} SortedUnique(a: seq<string>, b: seq<string>)
    requires IsSorted(a) && IsSorted(b) && multiset(a) == multiset(b)
    ensures a == b
  {
    SameMembers(a, b);
    if a != [] {
      assert a[0] == b[0] by {
        assert a[0] in b && b[0] in a;
        HeadIsLeast(a, b[0]);
        HeadIsLeast(b, a[0]);
        LessEqTotal(a[0], b[0]);
      }
      TailMultiset(a);
      TailMultiset(b);
      SortedUnique(a[1..], b[1..]);
      assert a == [a[0]] + a[1..] && b == [b[0]] + b[1..];
    }
  }

  /** Sorting forgets the arrangement of its input. */
  lemma SortedIgnoresArrangement(a: seq<string>, b: seq<string>)
    requires multiset(a) == multiset(b)
    ensures Sorted(a) == Sorted(b)
  {
    SortedIsSorted(a);
    SortedIsSorted(b);
    SortedUnique(Sorted(a), Sorted(b));
  }

  /** The two maps say the same at p. */
  ghost predicate SameAt<V>(a: map<string, V>, b: map<string, V>, p: string) {
    (p in a <==> p in b) && (p in a ==> a[p] == b[p])
  }

  lemma Regroup<T>(a: seq<T>, b: seq<T>, c: seq<T>)
    ensures a + b + c == a + (b + c)
  {
  }

  lemma PrefixStep<T>(s: seq<T>, i: nat)
    requires i < |s|
    ensures s[..i + 1] == s[..i] + [s[i]] && s[..i + 1][..i] == s[..i]
  {
  }

  lemma {:induction false} MembersAtMost(s: seq<string>)
    ensures |Members(s)| <= |s|
    decreases |s|
  {
    if s != [] {
      assert Members(s) == {s[0]} + Members(s[1..]);
      MembersAtMost(s[1..]);
    }
  }

  /** A list with as many members as entries has no entry twice. */
  lemma {:induction false} CountedIsDistinct(s: seq<string>)
    requires |Members(s)| == |s|
    ensures Distinct(s)
    decreases |s|
  {
    if s != [] {
      var tail := s[1..];
      assert Members(s) == {s[0]} + Members(tail);
      MembersAtMost(tail);
      assert s[0] !in tail;
      CountedIsDistinct(tail);
      assert forall j :: 1 <= j < |s| ==> s[j] == tail[j - 1];
    }
  }

  /** Go map iteration: the keys in some order. */
  method AnyOrder(keys: set<string>) returns (names: seq<string>)
    ensures Distinct(names) && Members(names) == keys && |names| == |keys|
  {
    names := [];
    var todo := keys;
    while todo != {}
      invariant Distinct(names) && Members(names) + todo == keys && Members(names) !! todo
      invariant |names| + |todo| == |keys|
    {
      var name :| name in todo;
      todo := todo - {name};
      names := names + [name];
    }
  }

  /** `sortedKeys`. */
  method SortedKeys(keys: set<string>) returns (names: seq<string>)
    ensures IsSorted(names) && Members(names) == keys && |names| == |keys|
  {
    var unsorted := AnyOrder(keys);
    names := Sorted(unsorted);
    SortedIsSorted(unsorted);
    SameMembers(names, unsorted);
  }

  /** Go's white space (`unicode.IsSpace`). */
  predicate IsSpace(c: char) {
    || '\t' <= c <= '\r' || c == ' ' || c == '\U{85}' || c == '\U{A0}' || c == '\U{1680}'
    || '\U{2000}' <= c <= '\U{200A}' || c == '\U{2028}' || c == '\U{2029}' || c == '\U{202F}'
    || c == '\U{205F}' || c == '\U{3000}'
  }

  /** `strings.Split` by a one-character separator. */
  function Split(s: string, sep: char): (parts: seq<string>)
    ensures parts != []
  {
    if s == [] then [""]
    else if s[0] == sep then [""] + Split(s[1..], sep)
    else
      var rest := Split(s[1..], sep);
      [[s[0]] + rest[0]] + rest[1..]
  }

  /** `strings.Join`. */
  function Join(parts: seq<string>, sep: string): string {
    if parts == [] then ""
    else if |parts| == 1 then parts[0]
    else parts[0] + sep + Join(parts[1..], sep)
  }

  lemma JoinSeparated(rest: seq<string>, sep: string)
    requires rest != []
    ensures Join([""] + rest, sep) == sep + Join(rest, sep)
  {
    var parts := [""] + rest;
    assert parts[1..] == rest && parts[0] == "";
    assert "" + sep == sep;
  }

  lemma JoinExtended(c: char, rest: seq<string>, sep: string)
    requires rest != []
    ensures Join([[c] + rest[0]] + rest[1..], sep) == [c] + Join(rest, sep)
  {
    var more := [[c] + rest[0]] + rest[1..];
    assert more[1..] == rest[1..];
    if |rest| > 1 {
      assert ([c] + rest[0]) + sep + Join(rest[1..], sep) == [c] + (rest[0] + sep + Join(rest[1..], sep));
    }
  }

  /** Joining the parts gives the string back, and no part holds the separator. */
  lemma {:induction false} JoinOfSplit(s: string, sep: char)
    ensures Join(Split(s, sep), [sep]) == s
    ensures forall i :: 0 <= i < |Split(s, sep)| ==> sep !in Split(s, sep)[i]
  {
    if s != [] {
      JoinOfSplit(s[1..], sep);
      var rest := Split(s[1..], sep);
      assert s == [s[0]] + s[1..];
      if s[0] == sep {
        assert Split(s, sep) == [""] + rest;
        JoinSeparated(rest, [sep]);
      } else {
        assert Split(s, sep) == [[s[0]] + rest[0]] + rest[1..];
        JoinExtended(s[0], rest, [sep]);
      }
    }
  }

  lemma {:induction false} SplitFirst(first: string, rest: string, sep: char)
    requires sep !in first
    ensures Split(first + [sep] + rest, sep) == [first] + Split(rest, sep)
    decreases |first|
  {
    var s := first + [sep] + rest;
    if first == [] {
      assert s[1..] == rest;
    } else {
      assert s[1..] == first[1..] + [sep] + rest;
      assert sep !in first[1..];
      SplitFirst(first[1..], rest, sep);
      assert first == [first[0]] + first[1..];
    }
  }

  lemma {:induction false} SplitWhole(s: string, sep: char)
    requires sep !in s
    ensures Split(s, sep) == [s]
  {
    if s != [] {
      assert sep !in s[1..];
      SplitWhole(s[1..], sep);
      assert s == [s[0]] + s[1..];
    }
  }

  /** Splitting a join of parts without the separator gives the parts back. */
  lemma {:induction false} SplitOfJoin(parts: seq<string>, sep: char)
    requires parts != [] && forall i :: 0 <= i < |parts| ==> sep !in parts[i]
    ensures Split(Join(parts, [sep]), sep) == parts
  {
    if |parts| == 1 {
      SplitWhole(parts[0], sep);
    } else {
      SplitOfJoin(parts[1..], sep);
      SplitFirst(parts[0], Join(parts[1..], [sep]), sep);
      assert parts == [parts[0]] + parts[1..];
    }
  }

  /** `strings.TrimSpace`. */
  function TrimSpace(s: string): string {
    if s != [] && IsSpace(s[0]) then TrimSpace(s[1..])
    else if s != [] && IsSpace(s[|s| - 1]) then TrimSpace(s[..|s| - 1])
    else s
  }

  ghost predicate AllSpace(s: string) {
    forall i :: 0 <= i < |s| ==> IsSpace(s[i])
  }

  lemma FrontTaken(s: string, lead: string, t: string, tail: string)
    requires s != "" && s[1..] == lead + t + tail && AllSpace(lead) && IsSpace(s[0])
    ensures s == [s[0]] + lead + t + tail && AllSpace([s[0]] + lead)
  {
    assert s == [s[0]] + s[1..];
  }

  lemma BackTaken(s: string, lead: string, t: string, tail: string)
    requires s != "" && s[..|s| - 1] == lead + t + tail && AllSpace(tail) && IsSpace(s[|s| - 1])
    ensures s == lead + t + (tail + [s[|s| - 1]]) && AllSpace(tail + [s[|s| - 1]])
  {
    assert s == s[..|s| - 1] + [s[|s| - 1]];
  }

  /** Trimming takes white space off both ends and leaves none there. */
  lemma {:induction false} TrimSpaceTakes(s: string) returns (lead: string, tail: string)
    ensures s == lead + TrimSpace(s) + tail && AllSpace(lead) && AllSpace(tail)
    decreases |s|
  {
    lead, tail := "", "";
    if s != [] && IsSpace(s[0]) {
      var less;
      less, tail := TrimSpaceTakes(s[1..]);
      FrontTaken(s, less, TrimSpace(s[1..]), tail);
      lead := [s[0]] + less;
    } else if s != [] && IsSpace(s[|s| - 1]) {
      var n, less := |s| - 1, "";
      lead, less := TrimSpaceTakes(s[..n]);
      BackTaken(s, lead, TrimSpace(s[..n]), less);
      tail := less + [s[n]];
    }
  }

  lemma {:induction false} TrimSpaceEnds(s: string)
    ensures var t := TrimSpace(s);
            t == "" || (!IsSpace(t[0]) && !IsSpace(t[|t| - 1]))
    decreases |s|
  {
    if s != [] && IsSpace(s[0]) {
      TrimSpaceEnds(s[1..]);
    } else if s != [] && IsSpace(s[|s| - 1]) {
      TrimSpaceEnds(s[..|s| - 1]);
    }
  }

  /** `filepath.Base` on a slash-separated path. */
  function Base(path: string): string {
    if path == "" then "."
    else if path == "/" then "/"
    else if path[|path| - 1] == '/' then Base(path[..|path| - 1])
    else
      var parts := Split(path, '/');
      parts[|parts| - 1]
  }
}
