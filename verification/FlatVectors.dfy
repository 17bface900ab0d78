/** Strings, vectors and the finished buffer: layout, reading back, alignment. */
module FlatVectors {
  import opened Bytes
  import opened Wrappers
  import opened FlatReader
  import opened FlatSpec
  import opened FlatTables

  // ---------------------------------------------------------------- growing a builder

  /** b' was reached from b by builder calls: everything b had written is still where it was,
      counted from the end, and the alignment the buffer needs only got stricter. */
  ghost predicate Grows(b': Builder, b: Builder) {
    && Extends(b'.data, b.data)
    && b.minalign <= b'.minalign
    && b.vtables <= b'.vtables
    && b'.force == b.force
  }

  lemma GrowsTransitive(b2: Builder, b1: Builder, b0: Builder)
    requires Grows(b2, b1) && Grows(b1, b0)
    ensures Grows(b2, b0)
  {
    ExtendsTransitive(b2.data, b1.data, b0.data);
  }

  lemma PrependGrows(b: Builder, bytes: seq<Byte>)
    ensures Grows(Prepend(b, bytes), b)
  {
    ExtendsPrefix(bytes, b.data);
  }

  lemma AlignGrows(b: Builder, size: nat)
    requires size >= 1
    ensures Grows(Align(b, size), b)
    ensures IsPow2(size) && IsPow2(b.minalign) ==> IsPow2(Align(b, size).minalign)
  {
    hide PaddingBytes;
    ExtendsPrefix(Zeros(PaddingBytes(|b.data|, size)), b.data);
  }

  lemma PushElementKeeps(b: Builder, v: nat, size: nat)
    requires ScalarSize(size) && IsPow2(b.minalign)
    ensures Grows(PushElement(b, v, size), b) && IsPow2(PushElement(b, v, size).minalign)
    ensures size <= PushElement(b, v, size).minalign
  {
    hide PaddingBytes, IsPow2;
    SmallPow2();
    AlignGrows(b, size);
    PrependGrows(Align(b, size), LittleEndian(v, size));
    GrowsTransitive(PushElement(b, v, size), Align(b, size), b);
  }

  // ---------------------------------------------------------------- strings

  lemma PreAlignGrows(b: Builder, len: nat, alignment: nat)
    requires IsPow2(alignment)
    ensures alignment >= 1
    ensures Grows(PreAlign(b, len, alignment), b)
    ensures PreAlign(b, len, alignment).minalign == b.minalign
    ensures Aligned(|PreAlign(b, len, alignment).data| + len, alignment)
  {
    Pow2Positive(alignment);
    hide PaddingBytes, IsPow2, Zeros;
    PaddingAligns(|b.data| + len, alignment);
    PrependGrows(b, Zeros(PaddingBytes(|b.data| + len, alignment)));
  }

  /** The bytes of a string lie after its length word, followed by a zero. */
  ghost predicate IsString(data: seq<Byte>, s: int, str: seq<Byte>) {
    && 5 + |str| <= s <= |data|
    && VectorLength(data, s) == |str|
    && Slice(data, s - 4, |str|) == str
    && Slice(data, s - 4 - |str|, 1) == [0]
  }

  lemma IsStringExtends(d': seq<Byte>, d: seq<Byte>, s: int, str: seq<Byte>)
    requires Extends(d', d) && IsString(d, s, str)
    ensures IsString(d', s, str)
  {
    ExtendsSlices(d', d);
  }

  /** A string is written without a gap between its length word, its bytes and its terminator,
      whatever its length, and the length word is aligned. */
  lemma CreateStringReads(b: Builder, str: seq<Byte>)
    requires |CreateString(b, str).data| < TWO31
    ensures var r := CreateString(b, str);
            && IsString(r.data, |r.data|, str)
            && |r.data| == |PreAlign(b, |str| + 1, 4).data| + 1 + |str| + 4
            && Aligned(|r.data|, 4)
            && Extends(r.data, b.data)
  {
    hide PaddingBytes, LittleEndian, FromLittleEndian;
    SmallPow2();
    PreAlignGrows(b, |str| + 1, 4);
    var p := PreAlign(b, |str| + 1, 4);
    var body := Prepend(Fill(p, 1), str);
    NoPadding(|body.data|, 4);
    PushElementGrows(body, |str|, 4);
    var r := CreateString(b, str);
    Pow256Values();
    LittleEndianRoundTrip(|str|, 4);
    assert body.data == (str + Zeros(1)) + p.data;
    ExtendsPrefix(str + Zeros(1), p.data);
    ExtendsTransitive(body.data, p.data, b.data);
    ExtendsTransitive(r.data, body.data, b.data);
    ExtendsSlices(r.data, body.data);
    assert Slice(body.data, |body.data|, |str|) == str;
    assert Slice(body.data, |body.data| - |str|, 1) == [0];
    ModAddMultiple(|body.data|, 1, 4);
  }

  lemma CreateStringKeeps(b: Builder, str: seq<Byte>)
    requires IsPow2(b.minalign)
    ensures Grows(CreateString(b, str), b) && IsPow2(CreateString(b, str).minalign)
    ensures CreateString(b, str).fields == b.fields && CreateString(b, str).vtables == b.vtables
  {
    hide PaddingBytes, IsPow2;
    SmallPow2();
    PreAlignGrows(b, |str| + 1, 4);
    var p := PreAlign(b, |str| + 1, 4);
    PrependGrows(p, Zeros(1));
    PrependGrows(Fill(p, 1), str);
    PushElementKeeps(Prepend(Fill(p, 1), str), |str|, 4);
    GrowsTransitive(Fill(p, 1), p, b);
    GrowsTransitive(Prepend(Fill(p, 1), str), Fill(p, 1), b);
    GrowsTransitive(CreateString(b, str), Prepend(Fill(p, 1), str), b);
  }

  // ---------------------------------------------------------------- vectors

  ghost predicate ValidVector(elems: seq<Elem>, size: nat) {
    && ScalarSize(size)
    && forall i :: 0 <= i < |elems| ==>
         match elems[i] {
           case Value(v) => v < Pow256(size)
           case Target(_) => size == 4
         }
  }

  /** Element e lies at pointer o. */
  ghost predicate ElemAt(data: seq<Byte>, o: int, e: Elem, size: nat) {
    && size <= o <= |data|
    && match e
       case Value(v) => ReadScalar(data, o, size) == v
       case Target(off) => size == 4 && o - ReadScalar(data, o, 4) == off
  }

  lemma PushElemReads(b: Builder, e: Elem, size: nat)
    requires ScalarSize(size) && Aligned(|b.data|, size)
    requires match e case Value(v) => v < Pow256(size) case Target(off) => size == 4 && off <= |b.data|
    requires |b.data| + size < TWO31
    ensures var r := PushElem(b, e, size);
            && Extends(r.data, b.data)
            && |r.data| == |b.data| + size
            && Aligned(|r.data|, size)
            && ElemAt(r.data, |r.data|, e, size)
  {
    hide PaddingBytes, LittleEndian, FromLittleEndian, BitAnd;
    SmallPow2();
    NoPadding(|b.data|, size);
    match e {
      case Value(v) =>
        PushElementReads(b, v, size);
        PushElementGrows(b, v, size);
      case Target(off) =>
        var b1 := Align(b, 4);
        assert b1.data == b.data;
        Pow256Values();
        PushElementReads(b1, Distance(b1, off), 4);
        PushElementGrows(b1, Distance(b1, off), 4);
    }
  }

  lemma ElemAtExtends(d': seq<Byte>, d: seq<Byte>, o: int, e: Elem, size: nat)
    requires Extends(d', d) && ElemAt(d, o, e, size)
    ensures ElemAt(d', o, e, size)
  {
    ExtendsSlices(d', d);
  }

  /** Element i of elems lies i elements after pointer o. */
  ghost predicate ElemsAt(data: seq<Byte>, o: int, elems: seq<Elem>, size: nat) {
    forall i :: 0 <= i < |elems| ==> ElemAt(data, o - Stride(i, size), elems[i], size)
  }

  lemma {:induction false} PushElemsReads(b: Builder, elems: seq<Elem>, size: nat)
    requires ValidVector(elems, size) && ValidElems(elems, |b.data|)
    requires Aligned(|b.data|, size) && |b.data| + Stride(|elems|, size) < TWO31
    ensures var r := PushElems(b, elems, size);
            && Extends(r.data, b.data)
            && |r.data| == |b.data| + Stride(|elems|, size)
            && Aligned(|r.data|, size)
            && ElemsAt(r.data, |r.data|, elems, size)
    decreases |elems|
  {
    if |elems| == 0 {
      assert Stride(0, size) == 0;
    } else {
      assert Stride(0, size) == 0;
      hide PaddingBytes, BitAnd, Aligned, ElemAt, PushElem, Stride, ElemsAt, Extends;
      var rest := elems[1..];
      StrideStep(|rest|, size);
      assert forall i :: 0 <= i < |rest| ==> rest[i] == elems[i + 1];
      var m := PushElems(b, rest, size);
      PushElemsReads(b, rest, size);
      assert elems[0].Target? ==> elems[0].off <= |b.data|;
      PushElemReads(m, elems[0], size);
      var r := PushElems(b, elems, size);
      ExtendsTransitive(r.data, m.data, b.data);
      ElemsAtStep(m.data, r.data, elems, size);
    }
  }

  lemma ElemsAtStep(d: seq<Byte>, d': seq<Byte>, elems: seq<Elem>, size: nat)
    requires |elems| >= 1 && ElemsAt(d, |d|, elems[1..], size)
    requires Extends(d', d) && |d'| == |d| + size && ElemAt(d', |d'|, elems[0], size)
    ensures ElemsAt(d', |d'|, elems, size)
  {
    forall i | 0 <= i < |elems|
      ensures ElemAt(d', |d'| - Stride(i, size), elems[i], size)
    {
      if i > 0 {
        StrideStep(i - 1, size);
        assert elems[i] == elems[1..][i - 1];
        ElemAtExtends(d', d, |d| - Stride(i - 1, size), elems[i], size);
      }
    }
  }

  /** The elements follow the length word with no gap, and Get(i) is element i. */
  ghost predicate IsVector(data: seq<Byte>, v: int, elems: seq<Elem>, size: nat) {
    && 4 + Stride(|elems|, size) <= v <= |data|
    && VectorLength(data, v) == |elems|
    && forall i :: 0 <= i < |elems| ==>
         && 4 + Stride(i, size) + size <= v
         && match elems[i] {
              case Value(x) => VectorGet(data, v, i, size) == x
              case Target(off) => size == 4 && VectorGetRef(data, v, i) == off
            }
  }

  lemma IsVectorExtends(d': seq<Byte>, d: seq<Byte>, v: int, elems: seq<Elem>, size: nat)
    requires Extends(d', d) && IsVector(d, v, elems, size)
    ensures IsVector(d', v, elems, size)
  {
    hide Stride, FromLittleEndian;
    ExtendsSlices(d', d);
  }

  /** For every element type, len elements end at a word boundary once StartVector padded. */
  lemma StartVectorAligns(b: Builder, len: nat, size: nat)
    requires ScalarSize(size)
    ensures var p := StartVector(b, len, size);
            && Extends(p.data, b.data)
            && Aligned(|p.data|, size) && Aligned(|p.data| + Stride(len, size), 4)
            && p.minalign == b.minalign && p.fields == b.fields && p.vtables == b.vtables && p.force == b.force
  {
    hide PaddingBytes, BitAnd;
    SmallPow2();
    var p1 := PreAlign(b, Stride(len, size), 4);
    PreAlignGrows(b, Stride(len, size), 4);
    PreAlignGrows(p1, Stride(len, size), size);
    var p := StartVector(b, len, size);
    ExtendsTransitive(p.data, p1.data, b.data);
    hide PreAlign, IsPow2;
    BeforeElements(|p.data|, len, size);
    if size <= 4 {
      NoSecondPadding(|p1.data| + Stride(len, size), size);
      assert |p.data| == |p1.data|;
    } else {
      ModTransitive(|p.data| + Stride(len, size), 8, 4);
    }
  }

  /** Where the elements can begin they can end. */
  lemma BeforeElements(n: nat, len: nat, size: nat)
    requires size >= 1 && Aligned(n + Stride(len, size), size)
    ensures Aligned(n, size)
  {
    ModAddMultiple(n, len, size);
  }

  /** What is aligned to 4 needs no more padding for a smaller element. */
  lemma NoSecondPadding(n: nat, size: nat)
    requires ScalarSize(size) && size <= 4 && Aligned(n, 4)
    ensures PaddingBytes(n, size) == 0
  {
    hide PaddingBytes, BitAnd, IsPow2;
    SmallPow2();
    Pow2Order(size, 4);
    ModTransitive(n, 4, size);
    NoPadding(n, size);
  }

  lemma CreateVectorReads(b: Builder, elems: seq<Elem>, size: nat)
    requires ValidVector(elems, size) && ValidElems(elems, |b.data|)
    requires |StartVector(b, |elems|, size).data| + Stride(|elems|, size) + 4 < TWO31
    ensures var r := CreateVector(b, elems, size);
            && Extends(r.data, b.data)
            && |r.data| == |StartVector(b, |elems|, size).data| + Stride(|elems|, size) + 4
            && IsVector(r.data, |r.data|, elems, size)
            && Aligned(|r.data|, 4)
  {
    hide PaddingBytes, LittleEndian, FromLittleEndian, BitAnd, PushElems, ElemsAt, IsVector;
    StartVectorAligns(b, |elems|, size);
    var p := StartVector(b, |elems|, size);
    PushElemsReads(p, elems, size);
    var m := PushElems(p, elems, size);
    SmallPow2();
    NoPadding(|m.data|, 4);
    Pow256Values();
    assert |elems| < TWO31 by { assert Stride(|elems|, size) >= |elems|; }
    hide Stride;
    PushElementReads(m, |elems|, 4);
    PushElementGrows(m, |elems|, 4);
    var r := CreateVector(b, elems, size);
    ExtendsTransitive(m.data, p.data, b.data);
    ExtendsTransitive(r.data, m.data, b.data);
    ModAddMultiple(|m.data|, 1, 4);
    ElemsMakeVector(m.data, r.data, elems, size);
  }

  lemma ElemsMakeVector(d: seq<Byte>, d': seq<Byte>, elems: seq<Elem>, size: nat)
    requires ElemsAt(d, |d|, elems, size) && Stride(|elems|, size) <= |d|
    requires Extends(d', d) && |d'| == |d| + 4 && VectorLength(d', |d'|) == |elems|
    ensures IsVector(d', |d'|, elems, size)
  {
    hide Stride, FromLittleEndian;
    forall i | 0 <= i < |elems|
      ensures 4 + Stride(i, size) + size <= |d'|
      ensures ElemAt(d', |d'| - 4 - Stride(i, size), elems[i], size)
    {
      StrideStep(i, size);
      StrideMonotone(i + 1, |elems|, size);
      ElemAtExtends(d', d, |d| - Stride(i, size), elems[i], size);
    }
  }

  lemma {:induction false} PushElemsKeeps(b: Builder, elems: seq<Elem>, size: nat)
    requires ScalarSize(size) && ValidElems(elems, |b.data|) && IsPow2(b.minalign)
    ensures var r := PushElems(b, elems, size);
            Grows(r, b) && IsPow2(r.minalign) && r.fields == b.fields && r.vtables == b.vtables
    decreases |elems|
  {
    hide PaddingBytes, IsPow2;
    if |elems| > 0 {
      var m := PushElems(b, elems[1..], size);
      PushElemsKeeps(b, elems[1..], size);
      SmallPow2();
      match elems[0] {
        case Value(v) => PushElementKeeps(m, v, size);
        case Target(off) =>
          AlignGrows(m, 4);
          var b1 := Align(m, 4);
          PushElementKeeps(b1, Distance(b1, off), 4);
          GrowsTransitive(PushElem(m, elems[0], size), b1, m);
      }
      GrowsTransitive(PushElem(m, elems[0], size), m, b);
    }
  }

  lemma CreateVectorKeeps(b: Builder, elems: seq<Elem>, size: nat)
    requires ScalarSize(size) && ValidElems(elems, |b.data|) && IsPow2(b.minalign)
    ensures var r := CreateVector(b, elems, size);
            Grows(r, b) && IsPow2(r.minalign) && r.fields == b.fields && r.vtables == b.vtables
  {
    hide PaddingBytes, IsPow2;
    StartVectorAligns(b, |elems|, size);
    var p := StartVector(b, |elems|, size);
    PushElemsKeeps(p, elems, size);
    var m := PushElems(p, elems, size);
    PushElementKeeps(m, |elems|, 4);
    assert Grows(p, b);
    GrowsTransitive(m, p, b);
    GrowsTransitive(CreateVector(b, elems, size), m, b);
  }

  // ---------------------------------------------------------------- the finished buffer

  /** The whole buffer is a multiple of the strictest alignment, the root word leads to the root,
      and an identifier sits right behind the root word once anything word-sized was written. */
  lemma FinishReads(b: Builder, root: nat, ident: Option<seq<Byte>>)
    requires IsPow2(b.minalign) && root <= |b.data| && b.minalign >= 1
    requires ident.Some? ==> |ident.value| == 4
    requires |Finish(b, root, ident).data| < TWO31
    ensures var f := Finish(b, root, ident);
            && Grows(f, b) && IsPow2(f.minalign) && f.minalign >= 4
            && Aligned(|f.data|, f.minalign)
            && |f.data| >= 4 && GetRoot(f.data) == root
            && (ident.Some? && b.minalign >= 4 ==> |f.data| >= 8 && Slice(f.data, |f.data| - 4, 4) == ident.value)
  {
    hide PaddingBytes, LittleEndian, FromLittleEndian, BitAnd, IsPow2;
    SmallPow2();
    var extra := if ident.Some? then 4 else 0;
    PreAlignGrows(b, 4 + extra, b.minalign);
    var b1 := PreAlign(b, 4 + extra, b.minalign);
    var b2 := if ident.Some? then Prepend(b1, ident.value) else b1;
    if ident.Some? {
      PrependGrows(b1, ident.value);
      GrowsTransitive(b2, b1, b);
    }
    FinishTail(b2, root, b.minalign);
    var b3 := Align(b2, 4);
    var f := Finish(b, root, ident);
    GrowsTransitive(f, b2, b);
    if ident.Some? && b.minalign >= 4 {
      FinishIdent(b2, f, ident.value);
    }
  }

  lemma FinishTail(b2: Builder, root: nat, m: nat)
    requires IsPow2(m) && m >= 1 && b2.minalign == m && Aligned(|b2.data| + 4, m)
    requires root <= |b2.data|
    requires var b3 := Align(b2, 4); |PushElement(b3, Distance(b3, root), 4).data| < TWO31
    ensures var b3 := Align(b2, 4);
            var f := PushElement(b3, Distance(b3, root), 4);
            && Grows(f, b2) && IsPow2(f.minalign) && f.minalign >= 4
            && Aligned(|f.data|, f.minalign) && GetRoot(f.data) == root
            && (m >= 4 ==> |f.data| == |b2.data| + 4)
  {
    hide PaddingBytes, LittleEndian, FromLittleEndian, BitAnd, IsPow2;
    SmallPow2();
    AlignGrows(b2, 4);
    var b3 := Align(b2, 4);
    PaddingAligns(|b2.data|, 4);
    NoPadding(|b3.data|, 4);
    Pow256Values();
    PushElementGrows(b3, Distance(b3, root), 4);
    PushElementReads(b3, Distance(b3, root), 4);
    PushElementKeeps(b3, Distance(b3, root), 4);
    var f := PushElement(b3, Distance(b3, root), 4);
    GrowsTransitive(f, b3, b2);
    if m >= 4 {
      RoomForRoot(|b2.data|, m);
    }
  }

  lemma RoomForRoot(n: nat, m: nat)
    requires IsPow2(m) && m >= 4 && Aligned(n + 4, m)
    ensures PaddingBytes(n, 4) == 0
  {
    hide PaddingBytes, BitAnd, IsPow2;
    SmallPow2();
    Pow2Order(4, m);
    ModTransitive(n + 4, m, 4);
    assert n == 4 * ((n + 4) / 4 - 1);
    NoPadding(n, 4);
  }

  /** Where Finish puts the identifier: right behind the root word if and only if no padding was needed
      between them, which holds whenever the buffer is aligned to at least 4. */
  lemma IdentifierPlace(b: Builder, root: nat, ident: seq<Byte>)
    requires IsPow2(b.minalign) && b.minalign >= 1 && root <= |b.data| && |ident| == 4
    requires |Finish(b, root, Some(ident)).data| < TWO31
    ensures var f, p := Finish(b, root, Some(ident)), PreAlign(b, 8, b.minalign);
            && |p.data| + 8 <= |f.data|
            && Slice(f.data, |p.data| + 4, 4) == ident
            && (|f.data| - 4 == |p.data| + 4 <==> |p.data| % 4 == 0)
  {
    hide PaddingBytes, LittleEndian, BitAnd, IsPow2;
    SmallPow2();
    var p := PreAlign(b, 8, b.minalign);
    var b2 := Prepend(p, ident);
    var b3 := Align(b2, 4);
    var v := Distance(b3, root);
    PaddingAligns(|b2.data|, 4);
    NoPadding(|b3.data|, 4);
    assert |b2.data| % 4 == 0 ==> PaddingBytes(|b2.data|, 4) == 0 by {
      if |b2.data| % 4 == 0 { NoPadding(|b2.data|, 4); }
    }
    AlignGrows(b2, 4);
    PushElementGrows(b3, v, 4);
    ExtendsTransitive(PushElement(b3, v, 4).data, b3.data, b2.data);
    assert Slice(b2.data, |b2.data|, 4) == ident;
    ExtendsSlices(PushElement(b3, v, 4).data, b2.data);
  }

  lemma OneByte()
    ensures var b := PushElement(Builder([], [], [], 1, false), 7, 1);
            |b.data| == 1 && b.minalign == 1 && |PreAlign(b, 8, 1).data| == 1
  {
    SmallPow2();
    NoPadding(0, 1);
    NoPadding(9, 1);
    hide PaddingBytes, LittleEndian;
  }

  /** With nothing of 4-byte alignment before it, a single pushed byte say, the identifier can lie further
      back. */
  lemma IdentifierApart(ident: seq<Byte>)
    requires |ident| == 4
    ensures var b := PushElement(Builder([], [], [], 1, false), 7, 1);
            var f := Finish(b, 1, Some(ident));
            |b.data| == 1 && |f.data| - 4 > |PreAlign(b, 8, b.minalign).data| + 4
  {
    var b := PushElement(Builder([], [], [], 1, false), 7, 1);
    OneByte();
    SmallPow2();
    hide PaddingBytes, LittleEndian, BitAnd, IsPow2, PushElement;
    PaddingAligns(5, 4);
    var b3 := Align(Prepend(PreAlign(b, 8, 1), ident), 4);
    NoPadding(|b3.data|, 4);
    PushElementGrows(b3, Distance(b3, 1), 4);
  }

  lemma FinishIdent(b2: Builder, f: Builder, ident: seq<Byte>)
    requires |ident| == 4
    requires Extends(f.data, b2.data) && |f.data| == |b2.data| + 4
    requires |b2.data| >= 4 && Slice(b2.data, |b2.data|, 4) == ident
    ensures Slice(f.data, |f.data| - 4, 4) == ident
  {
    ExtendsSlices(f.data, b2.data);
  }

  /** A place that is a multiple of some alignment from the END of the buffer, and an alignment the buffer
      was told of, is a multiple of it from the START of the finished buffer. */
  lemma AlignedFromStart(later: Builder, root: nat, ident: Option<seq<Byte>>, o: nat, size: nat)
    requires IsPow2(size) && size <= later.minalign && IsPow2(later.minalign) && Aligned(o, size)
    requires o <= |later.data| && root <= |later.data| && (ident.Some? ==> |ident.value| == 4)
    requires |Finish(later, root, ident).data| < TWO31
    ensures o <= |Finish(later, root, ident).data| && Aligned(|Finish(later, root, ident).data| - o, size)
  {
    Pow2Positive(size);
    hide PaddingBytes, LittleEndian, BitAnd, IsPow2, Finish;
    var f := Finish(later, root, ident);
    FinishReads(later, root, ident);
    Pow2Order(size, f.minalign);
    ModTransitive(|f.data|, f.minalign, size);
    ModSum(|f.data|, o, size);
  }
}
