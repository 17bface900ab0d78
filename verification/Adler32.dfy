/** The Adler-32 checksum, as section 8.2 of RFC 1950 defines it. */
module Adler32 {
  import opened Bytes

  const BASE: nat := 65521

  /** The two running sums after a byte sequence, starting from s1 = 1 and s2 = 0. */
  function Sums(s: seq<Byte>): (r: (nat, nat))
    ensures r.0 < BASE && r.1 < BASE
    decreases |s|
  {
    if |s| == 0 then (1, 0)
    else
      var (s1, s2) := Sums(s[..|s| - 1]);
      var t1 := (s1 + s[|s| - 1]) % BASE;
      (t1, (s2 + t1) % BASE)
  }

  function Checksum(s: seq<Byte>): (r: nat)
    ensures r < TWO32
  {
    var (s1, s2) := Sums(s);
    s2 * 65536 + s1
  }

  function ByteSum(s: seq<Byte>): nat
    decreases |s|
  {
    if |s| == 0 then 0 else ByteSum(s[..|s| - 1]) + s[|s| - 1]
  }

  lemma {:induction false} FirstSum(s: seq<Byte>)
    ensures Sums(s).0 == (1 + ByteSum(s)) % BASE
    decreases |s|
  {
    if |s| > 0 {
      FirstSum(s[..|s| - 1]);
      ModStep(1 + ByteSum(s[..|s| - 1]), s[|s| - 1]);
    }
  }

  /** Each byte times the number of bytes from it to the end. */
  function WeightedSum(s: seq<Byte>): nat
    decreases |s|
  {
    if |s| == 0 then 0 else |s| * s[0] + WeightedSum(s[1..])
  }

  lemma {:induction false} WeightedSumAdd(s: seq<Byte>, x: Byte)
    ensures WeightedSum(s + [x]) == WeightedSum(s) + ByteSum(s) + x
    decreases |s|
  {
    if |s| == 0 {
      assert [x][1..] == [];
    } else {
      assert (s + [x])[1..] == s[1..] + [x];
      WeightedSumAdd(s[1..], x);
      ByteSumFront(s);
      hide ByteSum;
      assert (|s| + 1) * s[0] == |s| * s[0] + s[0];
    }
  }

  lemma {:induction false} ByteSumFront(s: seq<Byte>)
    requires |s| > 0
    ensures ByteSum(s) == s[0] + ByteSum(s[1..])
    decreases |s|
  {
    var n := |s| - 1;
    if n > 0 {
      ByteSumFront(s[..n]);
      assert s[1..][..n - 1] == s[..n][1..];
    }
  }

  lemma {:induction false} SecondSum(s: seq<Byte>)
    ensures Sums(s).1 == (|s| + WeightedSum(s)) % BASE
    decreases |s|
  {
    if |s| > 0 {
      var n := |s| - 1;
      var t := s[..n];
      assert t + [s[n]] == s;
      assert Sums(s).1 == (Sums(t).1 + Sums(s).0) % BASE && ByteSum(s) == ByteSum(t) + s[n];
      hide Sums, ByteSum, WeightedSum;
      SecondSum(t);
      FirstSum(s);
      WeightedSumAdd(t, s[n]);
      ModTwice(n + WeightedSum(t), 1 + ByteSum(s));
    }
  }

  lemma ModTwice(a: nat, b: nat)
    ensures (a % BASE + b % BASE) % BASE == (a + b) % BASE
  {
    ModStep(a, b % BASE);
    ModStep(b, a);
  }

  /** The checksum in closed form: in the upper half the length and the weighted bytes, in the lower half one
      and the bytes, each modulo 65521. */
  lemma ChecksumValue(s: seq<Byte>)
    ensures Checksum(s) == ((|s| + WeightedSum(s)) % 65521) * 65536 + (1 + ByteSum(s)) % 65521
  {
    FirstSum(s);
    SecondSum(s);
  }

  lemma ModStep(a: nat, b: nat)
    ensures (a % BASE + b) % BASE == (a + b) % BASE
  {
    ModAddMultiple(a % BASE + b, a / BASE, BASE);
  }

  lemma {:induction false} ByteSumUpdate(s: seq<Byte>, i: nat, c: Byte)
    requires i < |s|
    ensures ByteSum(s[i := c]) == ByteSum(s) + c - s[i]
    decreases |s|
  {
    var n := |s| - 1;
    if i == n {
      assert s[i := c][..n] == s[..n];
    } else {
      assert s[i := c][..n] == s[..n][i := c];
      ByteSumUpdate(s[..n], i, c);
    }
  }

  /** Changing one byte always changes the checksum. */
  lemma OneByteChanges(s: seq<Byte>, i: nat, c: Byte)
    requires i < |s| && c != s[i]
    ensures Checksum(s[i := c]) != Checksum(s)
  {
    FirstSum(s);
    FirstSum(s[i := c]);
    ByteSumUpdate(s, i, c);
    NotCongruent(1 + ByteSum(s), c - s[i]);
    FirstSumDiffers(s, s[i := c]);
  }

  lemma NotCongruent(a: int, d: int)
    requires d != 0 && -256 < d < 256
    ensures (a + d) % BASE != a % BASE
  {
    var q := (a + d) / BASE - a / BASE;
    assert (a + d) % BASE - a % BASE == d - q * BASE;
  }

  lemma FirstSumDiffers(s: seq<Byte>, t: seq<Byte>)
    requires Sums(s).0 != Sums(t).0
    ensures Checksum(s) != Checksum(t)
  {
    hide Sums;
    assert Checksum(s) % 65536 == Sums(s).0;
  }
}
