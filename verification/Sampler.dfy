/** `randomAlphanumeric` (internal/secrets/secrets.go): rejection sampling over the letters and digits. */
module Sampler {
  import opened Text

  type Byte = b: int | 0 <= b < 256

  /** The 62 characters of the alphabet, in order. */
  function Letter(i: nat): char
    requires i < 62
  {
    if i < 26 then 'A' + i as char
    else if i < 52 then 'a' + (i - 26) as char
    else '0' + (i - 52) as char
  }

  /** Bytes below 248 are kept; 248 is four times 62. */
  function Kept(b: Byte): string {
    if b >= 248 then "" else [Letter(b % 62)]
  }

  function Accepted(bytes: seq<Byte>): string {
    if bytes == [] then "" else Kept(bytes[0]) + Accepted(bytes[1..])
  }

  lemma {:induction false} AcceptedAppend(a: seq<Byte>, b: seq<Byte>)
    ensures Accepted(a + b) == Accepted(a) + Accepted(b)
    decreases |a|
  {
    if a == [] {
      assert a + b == b;
    } else {
      var all, k := a + b, Kept(a[0]);
      assert all[0] == a[0] && all[1..] == a[1..] + b;
      AcceptedAppend(a[1..], b);
      assert k + (Accepted(a[1..]) + Accepted(b)) == k + Accepted(a[1..]) + Accepted(b);
    }
  }

  lemma AcceptedOne(bytes: seq<Byte>, b: Byte)
    ensures Accepted(bytes + [b]) == if b >= 248 then Accepted(bytes) else Accepted(bytes) + [Letter(b % 62)]
  {
    AcceptedAppend(bytes, [b]);
    assert [b][1..] == [] && Accepted([b][1..]) == "";
    assert Accepted([b]) == Kept(b) + Accepted([b][1..]);
    assert Accepted(bytes) + "" == Accepted(bytes);
  }

  /** The bytes of the buffers read so far. */
  function Flat(buffers: seq<seq<Byte>>): seq<Byte> {
    if buffers == [] then [] else Flat(buffers[..|buffers| - 1]) + buffers[|buffers| - 1]
  }

  /** `Exhausted` says only that the model's finite random source ended. */
  datatype Sampled = Text(text: string) | ReadFailed | Exhausted

  lemma AcceptedPrefix(a: seq<Byte>, b: seq<Byte>)
    ensures Accepted(a) <= Accepted(a + b)
  {
    AcceptedAppend(a, b);
  }

  lemma FlatStep(buffers: seq<seq<Byte>>, buf: seq<Byte>)
    ensures Flat(buffers + [buf]) == Flat(buffers) + buf
  {
    assert (buffers + [buf])[..|buffers|] == buffers;
  }

  /** The bytes read once the first k of a buffer are. */
  function UpTo(before: seq<Byte>, buf: seq<Byte>, k: nat): seq<Byte>
    requires k <= |buf|
  {
    before + buf[..k]
  }

  lemma UpToStep(before: seq<Byte>, buf: seq<Byte>, i: nat)
    requires i < |buf|
    ensures UpTo(before, buf, i + 1) == UpTo(before, buf, i) + [buf[i]]
    ensures UpTo(before, buf, i + 1) + buf[i + 1..] == before + buf
  {
  }

  /** One pass over a freshly read buffer. */
  method TakeLetters(n: nat, ghost before: seq<Byte>, sofar: string, buf: seq<Byte>) returns (out: string)
    requires sofar == Accepted(before) && |sofar| < n
    ensures |out| <= n && out <= Accepted(before + buf)
    ensures |out| < n ==> out == Accepted(before + buf)
  {
    out := sofar;
    ghost var seen := before;
    assert UpTo(before, buf, 0) == before;
    for i := 0 to |buf|
      invariant seen == UpTo(before, buf, i) && out == Accepted(seen) && |out| < n
    {
      UpToStep(before, buf, i);
      AcceptedOne(seen, buf[i]);
      seen := seen + [buf[i]];
      if buf[i] >= 248 {
        continue;
      }
      out := out + [Letter(buf[i] % 62)];
      if |out| == n {
        AcceptedPrefix(seen, buf[i + 1..]);
        return;
      }
    }
    assert UpTo(before, buf, |buf|) == before + buf;
  }

  /** The buffers are the first reads of the source, and the last of them was needed. */
  ghost predicate Needed(n: nat, source: seq<Option<seq<Byte>>>, buffers: seq<seq<Byte>>) {
    && |buffers| <= |source| && (forall i :: 0 <= i < |buffers| ==> source[i] == Some(buffers[i]))
    && (buffers != [] ==> Lacks(n, buffers[..|buffers| - 1]))
  }

  /** The buffers give fewer than n letters. */
  ghost predicate Lacks(n: nat, buffers: seq<seq<Byte>>) {
    |Accepted(Flat(buffers))| < n
  }

  lemma OneMoreRead(n: nat, source: seq<Option<seq<Byte>>>, buffers: seq<seq<Byte>>, buf: seq<Byte>)
    requires Needed(n, source, buffers) && |buffers| < |source| && source[|buffers|] == Some(buf)
    requires Lacks(n, buffers)
    ensures Needed(n, source, buffers + [buf])
  {
    var more := buffers + [buf];
    assert more[..|more| - 1] == buffers;
    assert Lacks(n, more[..|more| - 1]);
  }

  /**
   * `randomAlphanumeric`: the text is the first n kept bytes of the random source, through the alphabet, and no more of
   * the source is read than that takes. A read that fails is None.
   */
  method RandomAlphanumeric(n: nat, source: seq<Option<seq<Byte>>>) returns (r: Sampled, buffers: seq<seq<Byte>>)
    ensures Needed(n, source, buffers)
    ensures r.Text? ==> |r.text| == n && r.text <= Accepted(Flat(buffers))
    ensures !r.Text? ==> Lacks(n, buffers)
    ensures r.ReadFailed? ==> |buffers| < |source| && source[|buffers|] == None
    ensures r.Exhausted? ==> |buffers| == |source|
  {
    var out := "";
    buffers := [];
    ghost var seen: seq<Byte> := [];
    while |out| < n
      invariant Needed(n, source, buffers) && seen == Flat(buffers)
      invariant |out| <= n && out <= Accepted(seen) && (|out| < n ==> out == Accepted(seen))
      decreases |source| - |buffers|
    {
      if |buffers| == |source| {
        return Exhausted, buffers;
      }
      if source[|buffers|] == None {
        return ReadFailed, buffers;
      }
      var buf := source[|buffers|].value;
      OneMoreRead(n, source, buffers, buf);
      FlatStep(buffers, buf);
      out := TakeLetters(n, seen, out, buf);
      buffers, seen := buffers + [buf], seen + buf;
    }
    r := Text(out);
  }

  /** The bytes that give a letter. */
  ghost function Preimages(c: char): set<Byte> {
    set b: Byte | 0 <= b < 248 && Letter(b % 62) == c
  }

  lemma LetterInjective(i: nat, j: nat)
    requires i < 62 && j < 62 && Letter(i) == Letter(j)
    ensures i == j
  {
  }

  /** Every letter has exactly four kept bytes: none is likelier than another. */
  lemma FourPreimages(i: nat)
    requires i < 62
    ensures Preimages(Letter(i)) == {i, i + 62, i + 124, i + 186} && |Preimages(Letter(i))| == 4
  {
    var four: set<Byte> := {i, i + 62, i + 124, i + 186};
    forall b: Byte ensures b in Preimages(Letter(i)) <==> b in four {
      if 0 <= b < 248 && Letter(b % 62) == Letter(i) {
        LetterInjective(b % 62, i);
        assert b == b / 62 * 62 + i && b / 62 < 4;
      }
    }
    assert Preimages(Letter(i)) == four;
  }

  ghost predicate IsLetter(c: char) {
    exists i: nat :: i < 62 && c == Letter(i)
  }

  /** The alphabet is the letters of either case and the digits. */
  lemma IsLetterIff(c: char)
    ensures IsLetter(c) <==> 'A' <= c <= 'Z' || 'a' <= c <= 'z' || '0' <= c <= '9'
  {
    if 'A' <= c <= 'Z' {
      assert c == Letter(c as int - 'A' as int);
    } else if 'a' <= c <= 'z' {
      assert c == Letter(c as int - 'a' as int + 26);
    } else if '0' <= c <= '9' {
      assert c == Letter(c as int - '0' as int + 52);
    }
  }

  ghost predicate InAlphabet(text: string) {
    forall k :: 0 <= k < |text| ==> IsLetter(text[k])
  }

  lemma TailInAlphabet(text: string)
    requires text != "" && InAlphabet(text)
    ensures IsLetter(text[0]) && InAlphabet(text[1..])
  {
  }

  lemma {:induction false} AcceptedInAlphabet(bytes: seq<Byte>)
    ensures InAlphabet(Accepted(bytes))
  {
    if bytes != [] {
      AcceptedInAlphabet(bytes[1..]);
      if bytes[0] < 248 {
        assert IsLetter(Letter(bytes[0] % 62)) && Accepted(bytes)[0] == Letter(bytes[0] % 62);
        assert forall k :: 1 <= k < |Accepted(bytes)| ==> Accepted(bytes)[k] == Accepted(bytes[1..])[k - 1];
      } else {
        assert Accepted(bytes) == Accepted(bytes[1..]);
      }
    }
  }

  function Power(n: nat): nat {
    if n == 0 then 1 else 4 * Power(n - 1)
  }

  /** One of the bytes, then one of the rests. */
  ghost function Product(bytes: set<Byte>, rests: set<seq<Byte>>): set<seq<Byte>> {
    set b: Byte, rest | b in bytes && rest in rests :: [b] + rest
  }

  /** The runs of kept bytes that give a text. */
  ghost function Runs(text: string): set<seq<Byte>> {
    if text == "" then {[]} else Product(Preimages(text[0]), Runs(text[1..]))
  }

  lemma {:induction false} RunsAre(text: string, bytes: seq<Byte>)
    ensures bytes in Runs(text)
       <==> Accepted(bytes) == text && forall i :: 0 <= i < |bytes| ==> bytes[i] < 248
    decreases |text|
  {
    if bytes == [] {
    } else if text == "" {
      assert bytes[0] < 248 ==> |Accepted(bytes)| > 0;
    } else {
      RunsAre(text[1..], bytes[1..]);
      assert bytes == [bytes[0]] + bytes[1..] && text == [text[0]] + text[1..];
      if bytes in Runs(text) {
        var b: Byte, rest :| b in Preimages(text[0]) && rest in Runs(text[1..]) && bytes == [b] + rest;
        assert rest == bytes[1..];
      } else if bytes[0] < 248 && Accepted(bytes) == text {
        assert Accepted(bytes) == [Letter(bytes[0] % 62)] + Accepted(bytes[1..]);
        assert Accepted(bytes)[1..] == Accepted(bytes[1..]);
        assert bytes[0] in Preimages(text[0]);
      }
    }
  }

  lemma ProductHas(bytes: set<Byte>, rests: set<seq<Byte>>, s: seq<Byte>)
    ensures s in Product(bytes, rests) <==> s != [] && s[0] in bytes && s[1..] in rests
  {
    if s != [] && s[0] in bytes && s[1..] in rests {
      assert s == [s[0]] + s[1..];
    }
    if s in Product(bytes, rests) {
      var b: Byte, rest :| b in bytes && rest in rests && s == [b] + rest;
      assert s[1..] == rest;
    }
  }

  lemma {:induction false} ProductOfOneSize(b: Byte, rests: set<seq<Byte>>)
    ensures |Product({b}, rests)| == |rests|
    decreases |rests|
  {
    if rests == {} {
      assert Product({b}, rests) == {};
    } else {
      var rest :| rest in rests;
      var s, fewer := [b] + rest, Product({b}, rests - {rest});
      assert s[1..] == rest;
      ProductOfOneSize(b, rests - {rest});
      forall t ensures t in Product({b}, rests) <==> t in fewer || t == s {
        ProductHas({b}, rests, t);
        ProductHas({b}, rests - {rest}, t);
        assert t != [] ==> t == [t[0]] + t[1..];
      }
      assert Product({b}, rests) == fewer + {s};
      ProductHas({b}, rests - {rest}, s);
    }
  }

  lemma ProductSplits(b: Byte, bytes: set<Byte>, rests: set<seq<Byte>>)
    requires b in bytes
    ensures Product(bytes, rests) == Product({b}, rests) + Product(bytes - {b}, rests)
    ensures Product({b}, rests) !! Product(bytes - {b}, rests)
  {
    forall s ensures s in Product(bytes, rests) <==> s in Product({b}, rests) || s in Product(bytes - {b}, rests)
             ensures !(s in Product({b}, rests) && s in Product(bytes - {b}, rests)) {
      ProductHas(bytes, rests, s);
      ProductHas({b}, rests, s);
      ProductHas(bytes - {b}, rests, s);
    }
  }

  lemma UnionSize<T>(a: set<T>, b: set<T>)
    requires a !! b
    ensures |a + b| == |a| + |b|
  {
  }

  lemma ProductStep(b: Byte, bytes: set<Byte>, rests: set<seq<Byte>>)
    requires b in bytes
    ensures |Product(bytes, rests)| == |rests| + |Product(bytes - {b}, rests)|
  {
    ProductOfOneSize(b, rests);
    ProductSplits(b, bytes, rests);
    UnionSize(Product({b}, rests), Product(bytes - {b}, rests));
  }

  lemma {:induction false} ProductSize(bytes: set<Byte>, rests: set<seq<Byte>>, n: nat, m: nat)
    requires |bytes| == n && |rests| == m
    ensures |Product(bytes, rests)| == n * m
    decreases n
  {
    if n == 0 {
      assert Product(bytes, rests) == {};
    } else {
      var b :| b in bytes;
      ProductStep(b, bytes, rests);
      ProductSize(bytes - {b}, rests, n - 1, m);
      assert (n - 1) * m + m == n * m;
    }
  }

  /** Every text of n letters is given by exactly 4^n runs of n kept bytes: the sampler is uniform over texts. */
  lemma {:induction false} RunsCount(text: string)
    requires InAlphabet(text)
    ensures |Runs(text)| == Power(|text|)
    decreases |text|
  {
    if text != "" {
      TailInAlphabet(text);
      RunsCount(text[1..]);
      var i: nat :| i < 62 && text[0] == Letter(i);
      FourPreimages(i);
      ProductSize(Preimages(text[0]), Runs(text[1..]), 4, |Runs(text[1..])|);
    }
  }
}
