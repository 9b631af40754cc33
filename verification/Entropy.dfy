/**
 * What "at least nbytes of entropy" above `EnsureRandom` comes to (internal/secrets/secrets.go): the sampler makes all
 * texts of a length equally likely, so what counts is how many there are.
 */
module Entropy {
  import opened Secrets

  function Pow(base: nat, n: nat): nat {
    if n == 0 then 1 else base * Pow(base, n - 1)
  }

  lemma PowStep(base: nat, n: nat)
    ensures Pow(base, n + 1) == base * Pow(base, n)
  {
  }

  lemma {:induction false} PowAdds(base: nat, a: nat, b: nat)
    ensures Pow(base, a + b) == Pow(base, a) * Pow(base, b)
    decreases a
  {
    if a > 0 {
      PowAdds(base, a - 1, b);
      PowStep(base, a - 1 + b);
      Associate(base, Pow(base, a - 1), Pow(base, b));
    }
  }

  lemma Associate(x: nat, y: nat, z: nat)
    ensures x * (y * z) == x * y * z
  {
  }

  lemma {:induction false} PowOfPow(base: nat, m: nat, k: nat)
    ensures Pow(Pow(base, m), k) == Pow(base, m * k)
    decreases k
  {
    if k > 0 {
      PowOfPow(base, m, k - 1);
      PowAdds(base, m, m * (k - 1));
      assert m * k == m + m * (k - 1);
    }
  }

  /** Texts of four letters, and three bytes: 14776336 is 62 to the fourth, 16777216 is 256 to the third. */
  lemma Groups(k: nat)
    ensures Pow(62, 4 * k) == Pow(14776336, k) && Pow(256, 3 * k) == Pow(16777216, k)
  {
    assert Pow(62, 4) == 14776336 && Pow(256, 3) == 16777216;
    PowOfPow(62, 4, k);
    PowOfPow(256, 3, k);
  }

  lemma TimesMore(a: nat, b: nat, c: nat, d: nat)
    requires a >= b && c >= d
    ensures a * c >= b * d
  {
    assert a * c >= b * c && b * c >= b * d;
  }

  lemma Regroup4(a: nat, b: nat, c: nat, d: nat)
    ensures (a * b) * (c * d) == (a * c) * (b * d)
  {
    Associate(a * b, c, d);
    Associate(a, b, c);
    Associate(a, c, b);
    Associate(a * c, b, d);
  }

  /** Once the texts are too few they stay too few, as each group of letters is worth less than its group of bytes. */
  lemma {:induction false} FewStayFew(f: nat, t: nat, c: nat, d: nat, k: nat, j: nat)
    requires 0 < f <= t && k <= j && c * Pow(f, k) < d * Pow(t, k)
    ensures c * Pow(f, j) < d * Pow(t, j)
    decreases j
  {
    if k < j {
      FewStayFew(f, t, c, d, k, j - 1);
      MoreOfBoth(f, t, c, d, Pow(f, j - 1), Pow(t, j - 1));
    }
  }

  lemma MoreOfBoth(f: nat, t: nat, c: nat, d: nat, x: nat, y: nat)
    requires 0 < f <= t && c * x < d * y
    ensures c * (f * x) < d * (t * y)
  {
    Associate(c, f, x);
    Associate(f, c, x);
    Associate(d, t, y);
    Associate(t, d, y);
    TimesMore(t, f, d * y, c * x + 1);
    assert f * (c * x + 1) == f * (c * x) + f;
  }

  lemma Times(x1: nat, x2: nat, y1: nat, y2: nat, p1: nat, p2: nat, q: nat)
    requires q * x1 >= p1 * y1 && q * x2 >= p2 * y2
    ensures (q * q) * (x1 * x2) >= (p1 * p2) * (y1 * y2)
  {
    TimesMore(q * x1, p1 * y1, q * x2, p2 * y2);
    Regroup4(q, x1, q, x2);
    Regroup4(p1, y1, p2, y2);
  }

  lemma TenGroupsAtLeast()
    ensures 28084 * Pow(16777216, 10) <= 100000 * Pow(14776336, 10)
  {
  }

  lemma TenGroupsAtMost()
    ensures 100000 * Pow(14776336, 10) <= 28085 * Pow(16777216, 10)
  {
  }

  lemma TenGroups(f: nat, t: nat)
    requires f == 14776336 && t == 16777216
    ensures 28084 * Pow(t, 10) <= 100000 * Pow(f, 10) <= 28085 * Pow(t, 10)
  {
    TenGroupsAtLeast();
    TenGroupsAtMost();
  }

  lemma ElevenGroups(f: nat, t: nat)
    requires f == 14776336 && t == 16777216
    ensures 24734 * Pow(t, 11) <= 100000 * Pow(f, 11) <= 24736 * Pow(t, 11)
  {
    TenGroups(f, t);
    PowStep(f, 10);
    PowStep(t, 10);
  }

  /** With two letters over, 21 groups of three bytes still fit, and 22 do not. */
  lemma TwoLettersOver(f: nat, t: nat)
    requires f == 14776336 && t == 16777216
    ensures 3844 * Pow(f, 21) >= 256 * Pow(t, 21) && 3844 * Pow(f, 22) < 256 * Pow(t, 22)
  {
    TenGroups(f, t);
    ElevenGroups(f, t);
    PowAdds(f, 11, 10);
    PowAdds(t, 11, 10);
    PowAdds(f, 11, 11);
    PowAdds(t, 11, 11);
    Times(Pow(f, 11), Pow(f, 10), Pow(t, 11), Pow(t, 10), 24734, 28084, 100000);
    Times(Pow(t, 11), Pow(t, 11), Pow(f, 11), Pow(f, 11), 100000, 100000, 24736);
    assert Pow(f, 22) > 0 && Pow(t, 22) > 0 by { PowIsPositive(f, 22); PowIsPositive(t, 22); }
  }

  lemma {:induction false} PowIsPositive(base: nat, n: nat)
    requires base > 0
    ensures Pow(base, n) > 0
  {
    if n > 0 { PowIsPositive(base, n - 1); }
  }

  /** With three letters over, 10 groups fit, and 11 do not. */
  lemma ThreeLettersOver(f: nat, t: nat)
    requires f == 14776336 && t == 16777216
    ensures 238328 * Pow(f, 10) >= 65536 * Pow(t, 10) && 238328 * Pow(f, 11) < 65536 * Pow(t, 11)
  {
    TenGroups(f, t);
    ElevenGroups(f, t);
    PowIsPositive(t, 11);
  }

  lemma LengthOf(bytes: nat, k: nat)
    ensures bytes == 3 * k ==> EncodedLen(bytes) == 4 * k
    ensures bytes == 3 * k + 1 ==> EncodedLen(bytes) == 4 * k + 2
    ensures bytes == 3 * k + 2 ==> EncodedLen(bytes) == 4 * k + 3
  {
  }

  lemma GroupsAndRest(k: nat, letters: nat, rest: nat)
    ensures Pow(62, 4 * k + letters) == Pow(62, letters) * Pow(14776336, k)
    ensures Pow(256, 3 * k + rest) == Pow(256, rest) * Pow(16777216, k)
  {
    Groups(k);
    PowAdds(62, letters, 4 * k);
    PowAdds(256, rest, 3 * k);
  }

  lemma ShortOfWholeGroups(f: nat, t: nat, k: nat)
    requires f == 14776336 && t == 16777216 && k > 0
    ensures Pow(62, 4 * k) < Pow(256, 3 * k)
  {
    Groups(k);
    assert Pow(f, 0) == 1 && Pow(t, 0) == 1 && Pow(f, 1) == f && Pow(t, 1) == t;
    FewStayFew(f, t, 1, 1, 1, k);
  }

  lemma OneByteOver(f: nat, t: nat, k: nat)
    requires f == 14776336 && t == 16777216
    ensures Pow(62, 4 * k + 2) >= Pow(256, 3 * k + 1) <==> k <= 21
  {
    GroupsAndRest(k, 2, 1);
    assert Pow(62, 2) == 3844 && Pow(256, 1) == 256;
    TwoLettersOver(f, t);
    if k > 21 {
      FewStayFew(f, t, 3844, 256, 22, k);
    } else if 3844 * Pow(f, k) < 256 * Pow(t, k) {
      FewStayFew(f, t, 3844, 256, k, 21);
    }
  }

  lemma TwoBytesOver(f: nat, t: nat, k: nat)
    requires f == 14776336 && t == 16777216
    ensures Pow(62, 4 * k + 3) >= Pow(256, 3 * k + 2) <==> k <= 10
  {
    GroupsAndRest(k, 3, 2);
    assert Pow(62, 3) == 238328 && Pow(256, 2) == 65536;
    ThreeLettersOver(f, t);
    if k > 10 {
      FewStayFew(f, t, 238328, 65536, 11, k);
    } else if 238328 * Pow(f, k) < 65536 * Pow(t, k) {
      FewStayFew(f, t, 238328, 65536, k, 10);
    }
  }

  lemma EntropyOf(k: nat, rest: nat)
    requires rest < 3 && 3 * k + rest >= 16
    ensures Pow(62, EncodedLen(3 * k + rest)) >= Pow(256, 3 * k + rest)
       <==> (rest == 1 && k <= 21) || (rest == 2 && k <= 10)
  {
    LengthOf(3 * k + rest, k);
    if rest == 0 {
      ShortOfWholeGroups(14776336, 16777216, k);
    } else if rest == 1 {
      OneByteOver(14776336, 16777216, k);
    } else {
      TwoBytesOver(14776336, 16777216, k);
    }
  }

  lemma EntropyFor(bytes: nat)
    requires bytes >= 16
    ensures Pow(62, EncodedLen(bytes)) >= Pow(256, bytes)
       <==> (bytes % 3 == 1 && bytes <= 64) || (bytes % 3 == 2 && bytes <= 32)
  {
    var k, rest := bytes / 3, bytes % 3;
    EntropyOf(k, rest);
    assert bytes == 3 * k + rest;
  }

  /**
   * There are as many texts of the length as values of the bytes asked for, of which there are at least sixteen,
   * exactly for 16, 19, ... 64 bytes and for 17, 20, ... 32: at most 64, one more than a multiple of three, or at most
   * 32, two more.
   */
  lemma EntropyIff(nbytes: int)
    ensures var bytes := if nbytes < 16 then 16 else nbytes;
            Pow(62, SecretLen(nbytes)) >= Pow(256, bytes)
            <==> (bytes % 3 == 1 && bytes <= 64) || (bytes % 3 == 2 && bytes <= 32)
  {
    EntropyFor(if nbytes < 16 then 16 else nbytes);
  }

  /** The database passwords ask for 24 bytes, and there are fewer of them than that. */
  lemma DatabasePasswordFallsShort(nbytes: int)
    requires nbytes == 24
    ensures Pow(62, SecretLen(nbytes)) < Pow(256, nbytes)
  {
    EntropyIff(nbytes);
  }
}
