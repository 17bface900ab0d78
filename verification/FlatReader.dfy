/** Reading a finished buffer: scalars, tables, vectors and strings.
    A pointer into the buffer is its distance from the END of the buffer, which is what the
    builder's uoffset_t values are; moving a pointer forward by n bytes subtracts n. */
module FlatReader {
  import opened Bytes
  import opened Wrappers

  /** The n bytes a pointer o refers to. */
  function Slice(buf: seq<Byte>, o: int, n: nat): (s: seq<Byte>)
    requires n <= o <= |buf|
    ensures |s| == n
  {
    buf[|buf| - o..|buf| - o + n]
  }

  /** Part of a slice is the slice of a pointer moved forward. */
  lemma SlicePart(buf: seq<Byte>, o: int, n: nat, i: nat, m: nat)
    requires i + m <= n <= o <= |buf|
    ensures Slice(buf, o, n)[i..i + m] == Slice(buf, o - i, m)
  {
    var p, q := Slice(buf, o, n)[i..i + m], Slice(buf, o - i, m);
    forall k | 0 <= k < m
      ensures p[k] == q[k]
    {
      assert p[k] == Slice(buf, o, n)[i + k];
    }
  }

  function ReadScalar(buf: seq<Byte>, o: int, n: nat): nat
    requires n <= o <= |buf|
  {
    FromLittleEndian(Slice(buf, o, n))
  }

  lemma {:induction false} FromLittleEndianBound(s: seq<Byte>)
    ensures FromLittleEndian(s) < Pow256(|s|)
  {
    if |s| > 0 {
      FromLittleEndianBound(s[1..]);
    }
  }

  function ReadSigned32(buf: seq<Byte>, o: int): int
    requires 4 <= o <= |buf|
  {
    FromLittleEndianBound(Slice(buf, o, 4));
    Pow256Values();
    ToSigned32(ReadScalar(buf, o, 4))
  }

  // ---------------------------------------------------------------- tables

  /** data_ - ReadScalar<soffset_t>(data_) */
  function VtableOf(buf: seq<Byte>, t: int): int
    requires 4 <= t <= |buf|
  {
    t + ReadSigned32(buf, t)
  }

  /** The table word and a whole vtable of even size lie in the buffer. */
  predicate TableReadable(buf: seq<Byte>, t: int) {
    && 4 <= t <= |buf|
    && var vt := VtableOf(buf, t);
    && 2 <= vt <= |buf|
    && ReadScalar(buf, vt, 2) <= vt
    && ReadScalar(buf, vt, 2) % 2 == 0
  }

  function GetOptionalFieldOffset(buf: seq<Byte>, t: int, field: nat): nat
    requires TableReadable(buf, t) && field % 2 == 0
  {
    var vt := VtableOf(buf, t);
    if field < ReadScalar(buf, vt, 2) then ReadScalar(buf, vt - field, 2) else 0
  }

  /** A present field of n bytes lies in the buffer. */
  predicate FieldReadable(buf: seq<Byte>, t: int, field: nat, n: nat) {
    && TableReadable(buf, t)
    && field % 2 == 0
    && var fo := GetOptionalFieldOffset(buf, t, field);
    && (fo == 0 || fo + n <= t)
  }

  function GetField(buf: seq<Byte>, t: int, field: nat, size: nat, def: nat): nat
    requires FieldReadable(buf, t, field, size)
  {
    var fo := GetOptionalFieldOffset(buf, t, field);
    if fo != 0 then ReadScalar(buf, t - fo, size) else def
  }

  function GetPointer(buf: seq<Byte>, t: int, field: nat): Option<int>
    requires FieldReadable(buf, t, field, 4)
  {
    var fo := GetOptionalFieldOffset(buf, t, field);
    if fo != 0 then Some(t - fo - ReadScalar(buf, t - fo, 4)) else None
  }

  function GetStruct(buf: seq<Byte>, t: int, field: nat): Option<int>
    requires TableReadable(buf, t) && field % 2 == 0
  {
    var fo := GetOptionalFieldOffset(buf, t, field);
    if fo != 0 then Some(t - fo) else None
  }

  function GetRoot(buf: seq<Byte>): int
    requires |buf| >= 4
  {
    |buf| - ReadScalar(buf, |buf|, 4)
  }

  // ---------------------------------------------------------------- vectors and strings

  function VectorLength(buf: seq<Byte>, v: int): nat
    requires 4 <= v <= |buf|
  {
    ReadScalar(buf, v, 4)
  }

  /** The extent of n elements. */
  function Stride(n: nat, size: nat): nat {
    n * size
  }

  lemma StrideStep(n: nat, size: nat)
    ensures Stride(n + 1, size) == Stride(n, size) + size
  {
  }

  lemma StrideMonotone(m: nat, n: nat, size: nat)
    requires m <= n
    ensures Stride(m, size) <= Stride(n, size)
  {
    assert (n - m) * size >= 0;
    assert n * size == m * size + (n - m) * size;
  }

  /** Vector::Get for scalar elements of the given size. */
  function VectorGet(buf: seq<Byte>, v: int, i: nat, size: nat): nat
    requires 4 + Stride(i, size) + size <= v <= |buf|
  {
    ReadScalar(buf, v - 4 - Stride(i, size), size)
  }

  /** Vector::Get for offset elements: the element's target. */
  function VectorGetRef(buf: seq<Byte>, v: int, i: nat): int
    requires 4 + Stride(i, 4) + 4 <= v <= |buf|
  {
    var p := v - 4 - Stride(i, 4);
    p - ReadScalar(buf, p, 4)
  }

  // ---------------------------------------------------------------- the verifier

  /** Verifier::Verify(elem, elem_len) */
  predicate VerifyRange(buf: seq<Byte>, o: int, n: nat) {
    n <= o <= |buf|
  }

  /** Verifier::VerifyVector; on success the result is the end of the elements. */
  function VerifyVector(buf: seq<Byte>, v: int, elemSize: nat): (end: Option<int>) {
    if !VerifyRange(buf, v, 4) then None
    else
      var byteSize := 4 + Stride(ReadScalar(buf, v, 4), elemSize);
      if VerifyRange(buf, v, byteSize) then Some(v - byteSize) else None
  }

  /** Verifier::Verify for a vector pointer, which may be null. */
  predicate VerifyVectorPointer(buf: seq<Byte>, p: Option<int>, elemSize: nat) {
    p.None? || VerifyVector(buf, p.value, elemSize).Some?
  }

  /** Verifier::Verify for a string pointer, which may be null. */
  predicate VerifyString(buf: seq<Byte>, p: Option<int>) {
    || p.None?
    || (var end := VerifyVector(buf, p.value, 1);
        end.Some? && VerifyRange(buf, end.value, 1) && ReadScalar(buf, end.value, 1) == 0)
  }

  /** Table::VerifyTable. The last conjunct is not checked by the source: an odd vtable size
      lets a later field read run one byte past the vtable, and such a table is treated as rejected. */
  predicate VerifyTable(buf: seq<Byte>, t: int) {
    && VerifyRange(buf, t, 4)
    && var vt := VtableOf(buf, t);
    && VerifyRange(buf, vt, 2)
    && VerifyRange(buf, vt, ReadScalar(buf, vt, 2))
    && ReadScalar(buf, vt, 2) % 2 == 0
  }

  /** Table::VerifyField, after VerifyTable */
  predicate VerifyField(buf: seq<Byte>, t: int, field: nat, n: nat)
    requires VerifyTable(buf, t) && field % 2 == 0
  {
    var fo := GetOptionalFieldOffset(buf, t, field);
    fo == 0 || VerifyRange(buf, t - fo, n)
  }

  // ---------------------------------------------------------------- stability under growth

  /** The buffer d' was grown from d: d is what lies at its end. */
  ghost predicate Extends(d': seq<Byte>, d: seq<Byte>) {
    |d| <= |d'| && d'[|d'| - |d|..] == d
  }

  lemma ExtendsTransitive(d2: seq<Byte>, d1: seq<Byte>, d0: seq<Byte>)
    requires Extends(d2, d1) && Extends(d1, d0)
    ensures Extends(d2, d0)
  {
    assert d2[|d2| - |d0|..] == d2[|d2| - |d1|..][|d1| - |d0|..];
  }

  lemma ExtendsPrefix(pre: seq<Byte>, d: seq<Byte>)
    ensures Extends(pre + d, d)
  {
  }

  /** Bytes at an end-relative offset never move when a buffer grows. */
  lemma ExtendsSlices(d': seq<Byte>, d: seq<Byte>)
    requires Extends(d', d)
    ensures forall o: int, n: nat | n <= o <= |d| :: Slice(d', o, n) == Slice(d, o, n)
  {
    forall o: int, n: nat | n <= o <= |d|
      ensures Slice(d', o, n) == Slice(d, o, n)
    {
      assert d'[|d'| - |d|..][|d| - o..|d| - o + n] == d'[|d'| - o..|d'| - o + n];
    }
  }
}
