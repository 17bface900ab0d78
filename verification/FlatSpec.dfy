/** The FlatBuffers builder as a function of its state: what each builder call leaves in the
    buffer, in the offset list and in the vtable list. The class FlatBufferBuilder is proved
    against these functions. */
module FlatSpec {
  import opened Bytes
  import opened Wrappers
  import opened FlatReader

  /** A field of the table under construction: its vtable slot and where it was written. */
  datatype FieldLoc = FieldLoc(id: nat, off: nat)

  datatype Builder = Builder(
    data: seq<Byte>,          // the bytes written so far, lowest address first
    fields: seq<FieldLoc>,
    vtables: seq<nat>,        // end-relative offsets of the vtables written so far
    minalign: nat,
    force: bool)

  // ---------------------------------------------------------------- padding

  /** ((~buf_size) + 1) & (scalar_size - 1) on a 64-bit size_t */
  function PaddingBytes(bufSize: nat, scalarSize: nat): nat
    requires scalarSize >= 1
  {
    BitAnd((Not64(bufSize % TWO64) + 1) % TWO64, scalarSize - 1)
  }

  predicate Aligned(n: int, s: nat)
    requires s >= 1
  {
    n % s == 0
  }

  lemma PaddingValue(n: nat, k: nat)
    requires k <= 63
    ensures PaddingBytes(n, Pow2(k)) == ((TWO64 - n % TWO64) % TWO64) % Pow2(k)
  {
    BitAndMask((TWO64 - n % TWO64) % TWO64, k);
  }

  /** The mask trick fills up to the next multiple of any power of two. */
  lemma PaddingAligns(n: nat, s: nat)
    requires IsPow2(s)
    ensures PaddingBytes(n, s) < s
    ensures Aligned(n + PaddingBytes(n, s), s)
  {
    var k: nat :| k <= 63 && s == Pow2(k);
    PaddingValue(n, k);
    Pow2_64();
    Pow2Divides(k, 64);
    ComplementAligns(n, TWO64, s);
  }

  /** Adding (-n mod m) mod s to n gives a multiple of s, when s divides m. */
  lemma ComplementAligns(n: nat, m: nat, s: nat)
    requires m >= 1 && s >= 1 && m % s == 0
    ensures (n + ((m - n % m) % m) % s) % s == 0
  {
    var a := (m - n % m) % m;
    var c := if n % m == 0 then n / m else n / m + 1;
    assert n + a == c * m by {
      assert n == (n / m) * m + n % m;
      if n % m == 0 {
        ModUnique(m, m, 1, 0);
      } else {
        ModUnique(m - n % m, m, 0, m - n % m);
        assert (n / m + 1) * m == (n / m) * m + m;
      }
    }
    ModUnique(n + a, m, c, 0);
    ModTransitive(n + a, m, s);
    ModUnique(a - a % s, s, a / s, 0);
    ModSum(n + a, a - a % s, s);
  }

  /** No smaller padding would do. */
  lemma PaddingIsLeast(n: nat, s: nat, r: nat)
    requires IsPow2(s) && Aligned(n + r, s)
    ensures PaddingBytes(n, s) <= r
  {
    PaddingAligns(n, s);
    var p := PaddingBytes(n, s);
    ModSum(n + p, n + r, s);
    if r < p {
      ModUnique(p - r, s, 0, p - r);
    }
  }

  lemma NoPadding(n: nat, s: nat)
    requires IsPow2(s) && Aligned(n, s)
    ensures PaddingBytes(n, s) == 0
  {
    PaddingIsLeast(n, s, 0);
  }

  // ---------------------------------------------------------------- primitive steps

  function Prepend(b: Builder, bytes: seq<Byte>): (r: Builder)
  {
    b.(data := bytes + b.data)
  }

  function Fill(b: Builder, n: nat): Builder {
    Prepend(b, Zeros(n))
  }

  function Align(b: Builder, size: nat): Builder
    requires size >= 1
  {
    Fill(b.(minalign := if size > b.minalign then size else b.minalign), PaddingBytes(|b.data|, size))
  }

  function PushElement(b: Builder, v: nat, size: nat): Builder
    requires size >= 1
  {
    Prepend(Align(b, size), LittleEndian(v, size))
  }

  /** The relative offset ReferTo returns, once the buffer is aligned for it. */
  function Distance(b: Builder, off: nat): nat
    requires off <= |b.data|
  {
    |b.data| - off + 4
  }

  function PreAlign(b: Builder, len: nat, alignment: nat): Builder
    requires alignment >= 1
  {
    Fill(b, PaddingBytes(|b.data| + len, alignment))
  }

  // ---------------------------------------------------------------- table fields

  /** One Add... call between StartTable and EndTable. */
  datatype FieldOp =
    | ScalarField(id: nat, size: nat, value: nat, def: nat)
    | RefField(id: nat, target: nat)
    | StructField(id: nat, alignment: nat, bytes: Option<seq<Byte>>)

  function AddElement(b: Builder, id: nat, size: nat, value: nat, def: nat): Builder
    requires size >= 1
  {
    if value == def && !b.force then b
    else Track(PushElement(b, value, size), id)
  }

  function Track(b: Builder, id: nat): Builder {
    b.(fields := b.fields + [FieldLoc(id, |b.data|)])
  }

  function AddOffset(b: Builder, id: nat, target: nat): Builder
    requires target <= |b.data|
  {
    if target == 0 then b
    else
      var b1 := Align(b, 4);
      AddElement(b1, id, 4, Distance(b1, target), 0)
  }

  function AddStruct(b: Builder, id: nat, alignment: nat, bytes: Option<seq<Byte>>): Builder
    requires alignment >= 1
  {
    match bytes
    case None => b
    case Some(s) => Track(Prepend(Align(b, alignment), s), id)
  }

  predicate ScalarSize(size: nat) {
    size == 1 || size == 2 || size == 4 || size == 8
  }

  /** What the source asks of one field: a scalar type, a target already in the buffer,
      a struct type with a power-of-two alignment. */
  ghost predicate ValidOp(op: FieldOp, size: nat) {
    match op
    case ScalarField(_, n, v, d) => ScalarSize(n) && v < Pow256(n) && d < Pow256(n)
    case RefField(_, target) => target <= size
    case StructField(_, a, s) => IsPow2(a) && (s.Some? ==> |s.value| >= 1)
  }

  function Apply(b: Builder, op: FieldOp): Builder
    requires match op
             case ScalarField(_, n, _, _) => n >= 1
             case RefField(_, target) => target <= |b.data|
             case StructField(_, a, _) => a >= 1
  {
    match op
    case ScalarField(id, n, v, d) => AddElement(b, id, n, v, d)
    case RefField(id, target) => AddOffset(b, id, target)
    case StructField(id, a, s) => AddStruct(b, id, a, s)
  }

  ghost predicate ValidOps(ops: seq<FieldOp>, size: nat) {
    forall i :: 0 <= i < |ops| ==> ValidOp(ops[i], size)
  }

  function AddFields(b: Builder, ops: seq<FieldOp>): (r: Builder)
    requires ValidOps(ops, |b.data|)
    ensures |b.data| <= |r.data|
    decreases |ops|
  {
    if |ops| == 0 then b
    else
      var last := ops[|ops| - 1];
      assert ValidOp(last, |b.data|);
      var r := AddFields(b, ops[..|ops| - 1]);
      if last.StructField? then Pow2Positive(last.alignment); Apply(r, last) else Apply(r, last)
  }

  lemma Pow2Positive(s: nat)
    requires IsPow2(s)
    ensures s >= 1
  {
  }

  // ---------------------------------------------------------------- vtables

  /** (field_id + 2) * sizeof(voffset_t), as a 16-bit value */
  function FieldIndexToOffset(n: nat): nat {
    ((n + 2) * 2) % 0x1_0000
  }

  /** The fresh vtable before its entries are filled in. */
  function BlankVtable(objectSize: nat, numFields: nat): (s: seq<Byte>)
    ensures |s| == 4 + 2 * numFields
  {
    LittleEndian(FieldIndexToOffset(numFields), 2) + LittleEndian(objectSize, 2) + Zeros(2 * numFields)
  }

  ghost predicate SlotsFit(fields: seq<FieldLoc>, loc: nat, size: nat) {
    forall i :: 0 <= i < |fields| ==> fields[i].id + 2 <= size && fields[i].off <= loc
  }

  function FillOffsets(vt: seq<Byte>, fields: seq<FieldLoc>, loc: nat): (r: seq<Byte>)
    requires SlotsFit(fields, loc, |vt|)
    ensures |r| == |vt|
    decreases |fields|
  {
    if |fields| == 0 then vt
    else
      var last := fields[|fields| - 1];
      Patch(FillOffsets(vt, fields[..|fields| - 1], loc), last.id, LittleEndian(loc - last.off, 2))
  }

  /** The bytes vt lie in the buffer at offset it. */
  predicate MatchAt(data: seq<Byte>, it: nat, vt: seq<Byte>) {
    |vt| <= it <= |data| && Slice(data, it, |vt|) == vt
  }

  /** The position in vtables of the first earlier vtable equal to vt, or |vtables|. */
  function FindVtable(data: seq<Byte>, vtables: seq<nat>, vt: seq<Byte>): (k: nat)
    ensures k <= |vtables|
    ensures k < |vtables| ==> MatchAt(data, vtables[k], vt)
    ensures forall i :: 0 <= i < k ==> !MatchAt(data, vtables[i], vt)
  {
    if |vtables| == 0 || MatchAt(data, vtables[0], vt) then 0
    else
      var k := FindVtable(data, vtables[1..], vt);
      assert forall i :: 1 <= i <= k ==> vtables[i] == vtables[1..][i - 1] || i == k;
      1 + k
  }

  /** Ready to build another buffer. */
  function Cleared(b: Builder): Builder {
    b.(data := [], fields := [], vtables := [])
  }

  /** The buffer after EndTable: the vtable word of the object holds the signed distance to its
      vtable, which is a fresh one in front of the object or an equal one written earlier. */
  function EndTable(b: Builder, start: nat, numFields: nat): (r: (Builder, nat))
    requires start <= |b.data|
    requires SlotsFit(b.fields, |b.data| + PaddingBytes(|b.data|, 4) + 4, 4 + 2 * numFields)
  {
    var b1 := PushElement(b, 0, 4);
    var loc := |b1.data|;
    var vt := FillOffsets(BlankVtable(loc - start, numFields), b.fields, loc);
    var k := FindVtable(b1.data, b.vtables, vt);
    if k < |b.vtables| then
      var use := b.vtables[k];
      (b1.(data := Patch(b1.data, 0, LittleEndian(ToUnsigned32(use - loc), 4)), fields := []), loc)
    else
      var use := loc + |vt|;
      (b1.(data := vt + Patch(b1.data, 0, LittleEndian(ToUnsigned32(use - loc), 4)),
           fields := [], vtables := b.vtables + [use]), loc)
  }

  /** StartTable, the field calls, EndTable. */
  function BuildTable(b: Builder, ops: seq<FieldOp>, numFields: nat): (r: (Builder, nat))
    requires ValidOps(ops, |b.data|)
    requires var a := AddFields(b, ops);
             SlotsFit(a.fields, |a.data| + PaddingBytes(|a.data|, 4) + 4, 4 + 2 * numFields)
  {
    EndTable(AddFields(b, ops), |b.data|, numFields)
  }

  // ---------------------------------------------------------------- strings and vectors

  function CreateString(b: Builder, str: seq<Byte>): (r: Builder) {
    PushElement(Prepend(Fill(PreAlign(b, |str| + 1, 4), 1), str), |str|, 4)
  }

  function StartVector(b: Builder, len: nat, elemSize: nat): Builder
    requires elemSize >= 1
  {
    PreAlign(PreAlign(b, Stride(len, elemSize), 4), Stride(len, elemSize), elemSize)
  }

  /** An element of a vector: a scalar, or a reference to something already in the buffer. */
  datatype Elem = Value(v: nat) | Target(off: nat)

  function PushElem(b: Builder, e: Elem, size: nat): Builder
    requires size >= 1
    requires e.Target? ==> e.off <= |b.data|
  {
    match e
    case Value(v) => PushElement(b, v, size)
    case Target(off) =>
      var b1 := Align(b, 4);
      PushElement(b1, Distance(b1, off), 4)
  }

  predicate ValidElems(elems: seq<Elem>, size: nat) {
    forall i :: 0 <= i < |elems| && elems[i].Target? ==> elems[i].off <= size
  }

  /** The elements are pushed from the last to the first. */
  function PushElems(b: Builder, elems: seq<Elem>, size: nat): (r: Builder)
    requires size >= 1 && ValidElems(elems, |b.data|)
    ensures |b.data| <= |r.data|
  {
    if |elems| == 0 then b
    else PushElem(PushElems(b, elems[1..], size), elems[0], size)
  }

  function CreateVector(b: Builder, elems: seq<Elem>, size: nat): (r: Builder)
    requires size >= 1 && ValidElems(elems, |b.data|)
  {
    PushElement(PushElems(StartVector(b, |elems|, size), elems, size), |elems|, 4)
  }

  // ---------------------------------------------------------------- finishing

  function Finish(b: Builder, root: nat, ident: Option<seq<Byte>>): (r: Builder)
    requires root <= |b.data| && b.minalign >= 1
  {
    var b1 := PreAlign(b, 4 + (if ident.Some? then 4 else 0), b.minalign);
    var b2 := if ident.Some? then Prepend(b1, ident.value) else b1;
    var b3 := Align(b2, 4);
    PushElement(b3, Distance(b3, root), 4)
  }
}
