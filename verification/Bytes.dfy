/** Bytes, fixed-width integer encodings and the bit operations the sources use on sizes. */
module Bytes {

  type Byte = b: int | 0 <= b < 256

  // ---------------------------------------------------------------- powers and bit masks

  function Pow2(k: nat): (r: nat)
    ensures r >= 1
  {
    if k == 0 then 1 else 2 * Pow2(k - 1)
  }

  ghost predicate IsPow2(s: nat) {
    exists k: nat :: k <= 63 && s == Pow2(k)
  }

  /** Bitwise "and" on naturals, one bit at a time. */
  function BitAnd(a: nat, b: nat): nat {
    if a == 0 || b == 0 then 0 else (a % 2) * (b % 2) + 2 * BitAnd(a / 2, b / 2)
  }

  const TWO64: nat := 0x1_0000_0000_0000_0000

  /** Bitwise complement of a 64-bit size_t. */
  function Not64(n: nat): nat
    requires n < TWO64
  {
    TWO64 - 1 - n
  }

  lemma {:induction false} BitAndMask(a: nat, k: nat)
    ensures BitAnd(a, Pow2(k) - 1) == a % Pow2(k)
    decreases k
  {
    if k == 0 {
    } else if a == 0 {
    } else {
      var h := Pow2(k - 1);
      BitAndMask(a / 2, k - 1);
      assert (2 * h - 1) / 2 == h - 1 && (2 * h - 1) % 2 == 1;
      HalfMod(a, h);
    }
  }

  lemma HalfMod(a: nat, h: nat)
    requires h >= 1
    ensures a % (2 * h) == a % 2 + 2 * ((a / 2) % h)
  {
    var q, r := (a / 2) / h, (a / 2) % h;
    assert a / 2 == q * h + r;
    assert a == 2 * (q * h + r) + a % 2;
    assert a == q * (2 * h) + (2 * r + a % 2) by { assert 2 * (q * h) == q * (2 * h); }
    ModUnique(a, 2 * h, q, 2 * r + a % 2);
  }

  lemma SmallMultiple(d: int, m: int)
    requires m >= 1 && -m < d * m < m
    ensures d == 0
  {
    if d >= 1 {
      assert false;
    }
  }

  lemma ModUnique(n: int, m: int, q: int, r: int)
    requires m >= 1 && n == q * m + r && 0 <= r < m
    ensures n % m == r && n / m == q
  {
    var q', r' := n / m, n % m;
    assert n == q' * m + r';
    assert (q - q') * m == r' - r;
    SmallMultiple(q - q', m);
  }

  // ---------------------------------------------------------------- divisibility

  lemma ModAddMultiple(a: int, k: int, m: int)
    requires m >= 1
    ensures (a + k * m) % m == a % m
  {
    var q, r := a / m, a % m;
    assert a + k * m == (q + k) * m + r;
    ModUnique(a + k * m, m, q + k, r);
  }

  lemma ModSum(a: int, b: int, m: int)
    requires m >= 1 && a % m == 0 && b % m == 0
    ensures (a + b) % m == 0 && (a - b) % m == 0
  {
    var p, q := a / m, b / m;
    assert a == p * m && b == q * m;
    assert a + b == (p + q) * m && a - b == (p - q) * m;
    ModUnique(a + b, m, p + q, 0);
    ModUnique(a - b, m, p - q, 0);
  }

  lemma ModTransitive(a: int, m: int, s: int)
    requires m >= 1 && s >= 1 && a % m == 0 && m % s == 0
    ensures a % s == 0
  {
    var p, q := a / m, m / s;
    assert a == p * m && m == q * s;
    assert a == (p * q) * s by { assert p * (q * s) == (p * q) * s; }
    ModUnique(a, s, p * q, 0);
  }

  lemma {:induction false} Pow2Divides(j: nat, k: nat)
    requires j <= k
    ensures Pow2(k) % Pow2(j) == 0 && Pow2(j) <= Pow2(k)
    decreases k - j
  {
    if j == k {
      ModUnique(Pow2(k), Pow2(k), 1, 0);
    } else {
      Pow2Divides(j + 1, k);
      ModUnique(Pow2(j + 1), Pow2(j), 2, 0);
      ModTransitive(Pow2(k), Pow2(j + 1), Pow2(j));
    }
  }

  lemma Pow2_64()
    ensures Pow2(64) == TWO64
  {
    assert Pow2(8) == 256;
    assert Pow2(16) == 0x1_0000 by { assert Pow2(12) == 4096; }
    assert Pow2(24) == 0x100_0000 by { assert Pow2(20) == 0x10_0000; }
    assert Pow2(32) == 0x1_0000_0000 by { assert Pow2(28) == 0x1000_0000; }
    assert Pow2(40) == 0x100_0000_0000 by { assert Pow2(36) == 0x10_0000_0000; }
    assert Pow2(48) == 0x1_0000_0000_0000 by { assert Pow2(44) == 0x1000_0000_0000; }
    assert Pow2(56) == 0x100_0000_0000_0000 by { assert Pow2(52) == 0x10_0000_0000_0000; }
    assert Pow2(60) == 0x1000_0000_0000_0000;
  }

  /** Of two powers of two the smaller divides the larger. */
  lemma Pow2Order(s: nat, m: nat)
    requires IsPow2(s) && IsPow2(m) && s <= m
    ensures m % s == 0
  {
    var j: nat :| j <= 63 && s == Pow2(j);
    var k: nat :| k <= 63 && m == Pow2(k);
    if j <= k {
      Pow2Divides(j, k);
    } else {
      Pow2Divides(k, j);
      ModUnique(m, s, 1, 0);
    }
  }

  lemma SmallPow2()
    ensures IsPow2(1) && IsPow2(2) && IsPow2(4) && IsPow2(8)
  {
    assert Pow2(0) == 1 && Pow2(1) == 2 && Pow2(2) == 4 && Pow2(3) == 8;
  }

  // ---------------------------------------------------------------- integer encodings

  function Pow256(n: nat): (r: nat)
    ensures r >= 1
  {
    if n == 0 then 1 else 256 * Pow256(n - 1)
  }

  function LittleEndian(v: nat, n: nat): (s: seq<Byte>)
    ensures |s| == n
  {
    if n == 0 then [] else [v % 256] + LittleEndian(v / 256, n - 1)
  }

  function FromLittleEndian(s: seq<Byte>): nat {
    if |s| == 0 then 0 else s[0] + 256 * FromLittleEndian(s[1..])
  }

  lemma {:induction false} LittleEndianRoundTrip(v: nat, n: nat)
    requires v < Pow256(n)
    ensures FromLittleEndian(LittleEndian(v, n)) == v
    decreases n
  {
    if n > 0 {
      LittleEndianRoundTrip(v / 256, n - 1);
      assert LittleEndian(v, n)[1..] == LittleEndian(v / 256, n - 1);
    }
  }

  lemma Pow256Values()
    ensures Pow256(1) == 0x100 && Pow256(2) == 0x1_0000 && Pow256(4) == TWO32 && Pow256(8) == TWO64
  {
    assert Pow256(3) == 0x100_0000 && Pow256(4) == 0x1_0000_0000;
    assert Pow256(6) == 0x1_0000_0000_0000;
  }

  function BigEndian(v: nat, n: nat): (s: seq<Byte>)
    ensures |s| == n
  {
    if n == 0 then [] else BigEndian(v / 256, n - 1) + [v % 256]
  }

  function FromBigEndian(s: seq<Byte>): (v: nat)
  {
    if |s| == 0 then 0 else 256 * FromBigEndian(s[..|s| - 1]) + s[|s| - 1]
  }

  lemma ByteBehind(q: nat, r: nat, p: nat)
    requires r < 256
    ensures (256 * q + r) / 256 == q && (256 * q + r) % 256 == r
    ensures q < p ==> 256 * q + r < 256 * p
  {
  }

  lemma {:induction false} BigEndianRoundTrip(v: nat, n: nat)
    requires v < Pow256(n)
    ensures FromBigEndian(BigEndian(v, n)) == v
    decreases n
  {
    if n > 0 {
      BigEndianRoundTrip(v / 256, n - 1);
      assert BigEndian(v, n)[..n - 1] == BigEndian(v / 256, n - 1);
    }
  }

  lemma {:induction false} BigEndianOfFrom(s: seq<Byte>)
    ensures FromBigEndian(s) < Pow256(|s|)
    ensures BigEndian(FromBigEndian(s), |s|) == s
    decreases |s|
  {
    if |s| > 0 {
      var front, last := s[..|s| - 1], s[|s| - 1];
      var q := FromBigEndian(front);
      BigEndianOfFrom(front);
      ByteBehind(q, last, Pow256(|front|));
      assert BigEndian(256 * q + last, |s|) == BigEndian(q, |front|) + [last];
      hide BigEndian;
      assert s == front + [last];
    }
  }

  lemma {:induction false} LittleEndianByte(v: nat, n: nat, i: nat)
    requires i < n
    ensures LittleEndian(v, n)[i] == v / Pow256(i) % 256
  {
    if i > 0 {
      LittleEndianByte(v / 256, n - 1, i - 1);
      DivideTwice(v, 256, Pow256(i - 1));
    }
  }

  lemma {:induction false} BigEndianByte(v: nat, n: nat, i: nat)
    requires i < n
    ensures BigEndian(v, n)[n - 1 - i] == v / Pow256(i) % 256
  {
    if i > 0 {
      BigEndianByte(v / 256, n - 1, i - 1);
      DivideTwice(v, 256, Pow256(i - 1));
    }
  }

  lemma DivideTwice(v: nat, a: nat, b: nat)
    requires a >= 1 && b >= 1
    ensures v / a / b == v / (a * b)
  {
    var q, r := v / a / b, v / a % b;
    assert v == a * (b * q + r) + v % a;
    assert v == q * (a * b) + (a * r + v % a) by {
      assert a * (b * q) == q * (a * b);
    }
    assert a * r <= a * (b - 1);
    ModUnique(v, a * b, q, a * r + v % a);
  }

  const TWO31: int := 0x8000_0000
  const TWO32: nat := 0x1_0000_0000

  /** The 32-bit pattern of an integer, as a conversion to uint32_t keeps it. */
  function ToUnsigned32(v: int): (r: nat)
    ensures r < TWO32
  {
    v % TWO32
  }

  /** The signed reading of a 32-bit pattern. */
  function ToSigned32(u: nat): (r: int)
    requires u < TWO32
    ensures -TWO31 <= r < TWO31
  {
    if u < TWO31 then u else u - TWO32
  }

  lemma Signed32RoundTrip(v: int)
    requires -TWO31 <= v < TWO31
    ensures ToSigned32(ToUnsigned32(v)) == v
  {
    if v < 0 {
      ModUnique(v, TWO32, -1, v + TWO32);
    }
  }

  // ---------------------------------------------------------------- byte sequences

  function Zeros(n: nat): (s: seq<Byte>)
    ensures |s| == n && forall i :: 0 <= i < n ==> s[i] == 0
  {
    seq(n, i => 0)
  }

  /** The sequence s with the bytes at position i overwritten. */
  function Patch(s: seq<Byte>, i: nat, bytes: seq<Byte>): (r: seq<Byte>)
    requires i + |bytes| <= |s|
    ensures |r| == |s|
  {
    s[..i] + bytes + s[i + |bytes|..]
  }
}
