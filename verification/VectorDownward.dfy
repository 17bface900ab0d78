/** The byte vector that grows from high to low addresses. */
module VectorDownward {
  import opened Bytes
  import opened FlatReader

  /** size() must stay below this for signed 32-bit offsets to reach everywhere. */
  const MAX_SIZE: int := TWO31 - 1

  function GrowthPolicy(bytes: nat): nat {
    BitAnd(bytes / 2, Not64(7))
  }

  /** A buffer too small grows by half, rounded down to a multiple of 8, or by what is asked for if that is
      more. */
  ghost predicate Grown(before: nat, after: nat, len: nat) {
    && after >= before + len
    && (before < TWO64 ==> after == before + if len > 8 * (before / 16) then len else 8 * (before / 16))
  }

  lemma GrowthIsHalf(bytes: nat)
    ensures bytes < TWO64 ==> GrowthPolicy(bytes) == 8 * (bytes / 16)
  {
    hide BitAnd, Pow2;
    var a := bytes / 2;
    EvenMask(a, TWO64 / 2 - 4);
    EvenMask(a / 2, TWO64 / 4 - 2);
    EvenMask(a / 2 / 2, TWO64 / 8 - 1);
    Pow2_61();
    BitAndMask(a / 2 / 2 / 2, 61);
    assert a / 2 / 2 / 2 == bytes / 16;
  }

  lemma EvenMask(a: nat, m: nat)
    ensures BitAnd(a, 2 * m) == 2 * BitAnd(a / 2, m)
  {
    assert 2 * m / 2 == m && 2 * m % 2 == 0;
  }

  lemma Pow2_61()
    ensures Pow2(61) == TWO64 / 8
  {
    Pow2_64();
    assert Pow2(64) == 2 * Pow2(63) && Pow2(63) == 2 * Pow2(62) && Pow2(62) == 2 * Pow2(61);
  }

  class VectorDownward {
    var reserved: nat
    var buf: array<Byte>
    var cur: nat  // between the unused space (below) and the bytes written (above)

    ghost predicate Valid()
      reads this
    {
      buf.Length == reserved && cur <= reserved
    }

    /** The bytes written, lowest address first. */
    ghost function Contents(): (s: seq<Byte>)
      requires Valid()
      reads this, buf
    {
      buf[cur..]
    }

    function Size(): (n: nat)
      requires Valid()
      reads this, buf
      ensures n == |Contents()|
    {
      reserved - cur
    }

    constructor (initialSize: nat)
      requires initialSize % 8 == 0
      ensures Valid() && fresh(buf) && Contents() == []
    {
      reserved := initialSize;
      buf := new Byte[initialSize];
      cur := initialSize;
    }

    method Clear()
      requires Valid()
      modifies this`cur
      ensures Valid() && Contents() == []
    {
      cur := reserved;
    }

    /** Makes room for len bytes below the bytes written, which keep their place counted from
        the end even when the buffer is reallocated. */
    method MakeSpace(len: nat)
      requires Valid() && Size() + len < MAX_SIZE
      modifies this
      ensures Valid() && (buf == old(buf) || fresh(buf))
      ensures Size() == old(Size()) + len
      ensures Contents()[len..] == old(Contents())
      ensures if old(cur) >= len then buf == old(buf) && reserved == old(reserved)
              else Grown(old(reserved), reserved, len)
    {
      if cur < len {
        Reallocate(len);
      }
      assert buf[cur - len..][len..] == buf[cur..];
      cur := cur - len;
    }

    /** Moves the contents to the end of a larger array with room for len more bytes. */
    method Reallocate(len: nat)
      requires Valid()
      modifies this
      ensures Valid() && fresh(buf) && cur >= len
      ensures Contents() == old(Contents())
      ensures Grown(old(reserved), reserved, len)
    {
      GrowthIsHalf(reserved);
      hide GrowthPolicy;
      var oldSize := Size();
      var growth := GrowthPolicy(reserved);
      var newReserved := reserved + if len > growth then len else growth;
      var newBuf := new Byte[newReserved];
      var newCur := newReserved - oldSize;
      forall i | 0 <= i < oldSize {
        newBuf[newCur + i] := buf[cur + i];
      }
      assert newBuf[newCur..] == buf[cur..];
      reserved, cur, buf := newReserved, newCur, newBuf;
    }

    method Push(bytes: seq<Byte>)
      requires Valid() && Size() + |bytes| < MAX_SIZE
      modifies this, buf
      ensures Valid() && (buf == old(buf) || fresh(buf))
      ensures Contents() == bytes + old(Contents())
    {
      MakeSpace(|bytes|);
      CopyTo(buf, cur, bytes);
    }

    method Fill(zeroPadBytes: nat)
      requires Valid() && Size() + zeroPadBytes < MAX_SIZE
      modifies this, buf
      ensures Valid() && (buf == old(buf) || fresh(buf))
      ensures Contents() == Zeros(zeroPadBytes) + old(Contents())
    {
      MakeSpace(zeroPadBytes);
      ZeroOut(buf, cur, zeroPadBytes);
    }

    /** Drops the bytes most recently pushed. */
    method Pop(bytesToRemove: nat)
      requires Valid() && bytesToRemove <= Size()
      modifies this`cur
      ensures Valid()
      ensures Contents() == old(Contents())[bytesToRemove..]
    {
      cur := cur + bytesToRemove;
    }

    /** Overwrites the bytes at data_at(offset). */
    method WriteAt(offset: nat, bytes: seq<Byte>)
      requires Valid() && |bytes| <= offset <= Size()
      modifies buf
      ensures Valid()
      ensures Contents() == Patch(old(Contents()), old(Size()) - offset, bytes)
    {
      var at := reserved - offset;
      ghost var before := Contents();
      forall i | 0 <= i < |bytes| {
        buf[at + i] := bytes[i];
      }
      assert Contents() == Patch(before, |before| - offset, bytes);
    }

    /** The scalar of n bytes at data_at(offset). */
    method ReadAt(offset: nat, n: nat) returns (v: nat)
      requires Valid() && n <= offset <= Size()
      ensures v == ReadScalar(Contents(), offset, n)
    {
      var at := reserved - offset;
      assert Slice(Contents(), offset, n) == buf[at..at + n];
      v := FromLittleEndian(buf[at..at + n]);
    }

    /** memcmp(data_at(a), data_at(b), n) == 0. The comparison stops at the first difference, so it
        stays inside the buffer as soon as an equal two-byte head implies that n bytes are there. */
    method EqualAt(a: nat, b: nat, n: nat) returns (eq: bool)
      requires Valid() && n <= b <= Size() && 2 <= a <= Size() && 2 <= n
      requires Slice(Contents(), a, 2) == Slice(Contents(), b, 2) ==> n <= a
      ensures eq <==> n <= a && Slice(Contents(), a, n) == Slice(Contents(), b, n)
    {
      ghost var all := buf[..];
      assert Contents() == all[cur..];
      hide Slice, Same;
      SliceSame(all, cur, a, b, 2);
      eq := MemEqual(buf, reserved - a, reserved - b, n);
      if n <= a {
        SliceSame(all, cur, a, b, n);
      }
    }
  }

  /** The loop of push. */
  method CopyTo(dest: array<Byte>, base: nat, bytes: seq<Byte>)
    requires base + |bytes| <= dest.Length
    modifies dest
    ensures dest[base..] == bytes + old(dest[base..])[|bytes|..]
  {
    ghost var rest := dest[base + |bytes|..];
    assert rest == dest[base..][|bytes|..];
    var i := 0;
    while i < |bytes|
      invariant 0 <= i <= |bytes|
      invariant forall j :: base <= j < base + i ==> dest[j] == bytes[j - base]
      invariant dest[base + |bytes|..] == rest
    {
      dest[base + i] := bytes[i];
      i := i + 1;
    }
    assert dest[base..base + |bytes|] == bytes;
    Halves(dest[base..], |bytes|);
  }

  /** The loop of fill. */
  method ZeroOut(dest: array<Byte>, base: nat, n: nat)
    requires base + n <= dest.Length
    modifies dest
    ensures dest[base..] == Zeros(n) + old(dest[base..])[n..]
  {
    ghost var rest := dest[base + n..];
    assert rest == dest[base..][n..];
    var i := 0;
    while i < n
      invariant 0 <= i <= n
      invariant forall j :: base <= j < base + i ==> dest[j] == 0
      invariant dest[base + n..] == rest
    {
      dest[base + i] := 0;
      i := i + 1;
    }
    AllZeros(dest[base..base + n]);
    Halves(dest[base..], n);
  }

  lemma Halves(s: seq<Byte>, k: nat)
    requires k <= |s|
    ensures s == s[..k] + s[k..]
  {
  }

  lemma AllZeros(s: seq<Byte>)
    requires forall i :: 0 <= i < |s| ==> s[i] == 0
    ensures s == Zeros(|s|)
  {
  }

  /** The n bytes at p and those at q are the same. */
  ghost predicate Same(s: seq<Byte>, p: nat, q: nat, n: nat) {
    p + n <= |s| && q + n <= |s| && s[p..p + n] == s[q..q + n]
  }

  lemma SliceSame(s: seq<Byte>, cur: nat, a: nat, b: nat, n: nat)
    requires cur <= |s| && n <= a <= |s| - cur && n <= b <= |s| - cur
    ensures Slice(s[cur..], a, n) == Slice(s[cur..], b, n) <==> Same(s, |s| - a, |s| - b, n)
  {
    SliceBehind(s, cur, a, n);
    SliceBehind(s, cur, b, n);
    hide Slice;
  }

  lemma SliceBehind(s: seq<Byte>, cur: nat, o: nat, n: nat)
    requires cur <= |s| && n <= o <= |s| - cur
    ensures Slice(s[cur..], o, n) == s[|s| - o..|s| - o + n]
  {
  }

  /** memcmp: stops at the first difference. */
  method MemEqual(buf: array<Byte>, p: nat, q: nat, n: nat) returns (eq: bool)
    requires 2 <= n && p + 2 <= buf.Length && q + n <= buf.Length
    requires Same(buf[..], p, q, 2) ==> p + n <= buf.Length
    ensures eq <==> Same(buf[..], p, q, n)
  {
    ghost var s := buf[..];
    var i := 0;
    while i < n && buf[p + i] == buf[q + i]
      invariant 0 <= i <= n
      invariant i < 2 || p + n <= buf.Length
      invariant Same(s, p, q, i)
    {
      SameNext(s, p, q, i);
      i := i + 1;
    }
    eq := i == n;
    if !eq && p + n <= buf.Length {
      assert s[p..p + n][i] != s[q..q + n][i];
    }
  }

  lemma SameNext(s: seq<Byte>, p: nat, q: nat, i: nat)
    requires p + i < |s| && q + i < |s|
    requires s[p..p + i] == s[q..q + i] && s[p + i] == s[q + i]
    ensures s[p..p + i + 1] == s[q..q + i + 1]
  {
    assert s[p..p + i + 1] == s[p..p + i] + [s[p + i]];
    assert s[q..q + i + 1] == s[q..q + i] + [s[q + i]];
  }
}
