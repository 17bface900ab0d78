/** Everything a builder writes lies at a multiple of its own size from the start of the finished buffer. */
module FlatAligned {
  import opened Bytes
  import opened Wrappers
  import opened FlatReader
  import opened FlatSpec
  import opened FlatTables
  import opened FlatVectors
  import opened FlatRuns

  /** The alignment of what a field call writes. */
  function Unit(op: FieldOp): nat {
    match op
    case ScalarField(_, n, _, _) => n
    case RefField(_, _) => 4
    case StructField(_, a, _) => a
  }

  /** Scalars and references; structs too when, as in C, their size is a multiple of their alignment. */
  ghost predicate Regular(op: FieldOp) {
    op.StructField? && op.bytes.Some? ==> op.alignment >= 1 && |op.bytes.value| % op.alignment == 0
  }

  lemma UnitPow2(op: FieldOp, size: nat)
    requires ValidOp(op, size)
    ensures IsPow2(Unit(op)) && Unit(op) >= 1
  {
    SmallPow2();
  }

  // ---------------------------------------------------------------- one field

  lemma AlignEnds(b: Builder, size: nat)
    requires IsPow2(size) && size >= 1
    ensures Aligned(|Align(b, size).data|, size) && size <= Align(b, size).minalign
  {
    hide PaddingBytes, IsPow2;
    PaddingAligns(|b.data|, size);
  }

  lemma SumAligned(a: nat, n: nat, size: nat)
    requires size >= 1 && Aligned(a, size) && n % size == 0
    ensures Aligned(a + n, size)
  {
    assert n == (n / size) * size;
    ModAddMultiple(a, n / size, size);
  }

  lemma PushAligned(b: Builder, v: nat, size: nat)
    requires ScalarSize(size)
    ensures Aligned(|PushElement(b, v, size).data|, size) && size <= PushElement(b, v, size).minalign
  {
    hide PaddingBytes, LittleEndian, IsPow2, Align;
    SmallPow2();
    AlignEnds(b, size);
    ModAddMultiple(|Align(b, size).data|, 1, size);
    assert |PushElement(b, v, size).data| == |Align(b, size).data| + 1 * size;
    hide PushElement;
  }

  /** What a field call writes ends at a multiple of its alignment, which the buffer is told of. */
  lemma ApplyAligned(b: Builder, op: FieldOp)
    requires ValidOp(op, |b.data|) && Written(b.force, op) && Regular(op)
    requires op.StructField? ==> op.alignment >= 1
    ensures Unit(op) >= 1 && Aligned(|Apply(b, op).data|, Unit(op)) && Unit(op) <= Apply(b, op).minalign
  {
    UnitPow2(op, |b.data|);
    hide PaddingBytes, LittleEndian, IsPow2;
    match op
    case ScalarField(_, n, v, _) => PushAligned(b, v, n);
    case RefField(_, target) =>
      var b1 := Align(b, 4);
      PushAligned(b1, Distance(b1, target), 4);
    case StructField(_, a, s) =>
      AlignEnds(b, a);
      SumAligned(|Align(b, a).data|, |s.value|, a);
  }

  // ---------------------------------------------------------------- all fields of a table

  /** A written field is recorded at a multiple of its alignment. */
  ghost predicate FieldAligned(b: Builder, op: FieldOp) {
    Written(b.force, op) && Regular(op) ==>
      && Find(b.fields, op.id).Some?
      && Unit(op) >= 1 && Aligned(Find(b.fields, op.id).value, Unit(op)) && Unit(op) <= b.minalign
  }

  lemma LaterAligned(b: Builder, r: Builder, op: FieldOp, last: FieldOp)
    requires FieldAligned(b, op) && op.id != last.id
    requires r.force == b.force && b.minalign <= r.minalign
    requires r.fields == b.fields || r.fields == b.fields + [FieldLoc(last.id, |r.data|)]
    ensures FieldAligned(r, op)
  {
    FindOther(b, r, last, op.id);
    hide Find, Aligned;
  }

  lemma LastAligned(b: Builder, op: FieldOp)
    requires ValidOp(op, |b.data|) && (op.StructField? ==> op.alignment >= 1)
    ensures FieldAligned(Apply(b, op), op)
  {
    ApplyFrame(b, op);
    if Written(b.force, op) && Regular(op) {
      ApplyAligned(b, op);
      hide Apply, Aligned;
    }
    hide Apply;
  }

  ghost predicate AllAligned(b: Builder, ops: seq<FieldOp>) {
    forall i :: 0 <= i < |ops| ==> FieldAligned(b, ops[i])
  }

  lemma StepAligned(a: Builder, r: Builder, ops: seq<FieldOp>, n: nat)
    requires |ops| == n + 1 && DistinctIds(ops) && AllAligned(a, ops[..n])
    requires FieldAligned(r, ops[n]) && r.force == a.force && a.minalign <= r.minalign
    requires r.fields == a.fields || r.fields == a.fields + [FieldLoc(ops[n].id, |r.data|)]
    ensures AllAligned(r, ops)
  {
    hide FieldAligned;
    forall i | 0 <= i < |ops|
      ensures FieldAligned(r, ops[i])
    {
      if i < n {
        assert ops[..n][i] == ops[i];
        LaterAligned(a, r, ops[i], ops[n]);
      }
    }
  }

  /** The last field call of several. */
  lemma LastField(b: Builder, ops: seq<FieldOp>)
    requires ValidOps(ops, |b.data|) && DistinctIds(ops) && IsPow2(b.minalign) && |ops| > 0
    ensures var n := |ops| - 1;
            && ValidOps(ops[..n], |b.data|) && DistinctIds(ops[..n])
            && var a := AddFields(b, ops[..n]);
               && ValidOp(ops[n], |a.data|) && (ops[n].StructField? ==> ops[n].alignment >= 1)
               && IsPow2(a.minalign) && AddFields(b, ops) == Apply(a, ops[n])
  {
    hide Apply, IsPow2;
    var n := |ops| - 1;
    assert ValidOp(ops[n], |b.data|);
    AddFieldsKeeps(b, ops[..n]);
    ApplyFrame(AddFields(b, ops[..n]), ops[n]);
  }

  lemma {:induction false} FieldsAligned(b: Builder, ops: seq<FieldOp>)
    requires b.fields == [] && ValidOps(ops, |b.data|) && DistinctIds(ops) && IsPow2(b.minalign)
    ensures AllAligned(AddFields(b, ops), ops)
    decreases |ops|
  {
    if |ops| > 0 {
      var n := |ops| - 1;
      LastField(b, ops);
      var a := AddFields(b, ops[..n]);
      hide *;
      FieldsAligned(b, ops[..n]);
      ApplyFrame(a, ops[n]);
      MinalignGrows(a, ops[n]);
      LastAligned(a, ops[n]);
      StepAligned(a, Apply(a, ops[n]), ops, n);
    }
  }

  lemma MinalignGrows(b: Builder, op: FieldOp)
    requires ValidOp(op, |b.data|) && IsPow2(b.minalign) && (op.StructField? ==> op.alignment >= 1)
    ensures b.minalign <= Apply(b, op).minalign
  {
    ApplyKeeps(b, op);
    hide Apply, IsPow2;
  }

  // ---------------------------------------------------------------- the finished buffer

  /** Counted from the start of the buffer, the thing at end-relative offset o lies at a multiple of size. */
  ghost predicate Lies(data: seq<Byte>, o: int, size: nat) {
    size >= 1 && 0 <= o <= |data| && Aligned(|data| - o, size)
  }

  /** The field an operation wrote into the table at t does. */
  ghost predicate FieldLies(data: seq<Byte>, t: int, op: FieldOp) {
    && TableReadable(data, t) && op.id % 2 == 0
    && var fo := GetOptionalFieldOffset(data, t, op.id);
    && fo != 0 && Lies(data, t - fo, Unit(op))
  }

  /** The 16-bit words of the vtable at v do. */
  ghost predicate VtableLies(data: seq<Byte>, v: int) {
    && 2 <= v && Lies(data, v, 2)
    && forall j :: 0 <= j && 2 * j + 2 <= ReadScalar(data, v, 2) ==> Lies(data, v - 2 * j, 2)
  }

  /** The scalars written by one call, when the call started at b: the length word of a string, the length
      word and every element of a vector, the vtable word and every written field of a table, and the words
      of all vtables written so far, which the table's own is one of. */
  ghost predicate ScalarsAligned(b: Builder, c: Call, data: seq<Byte>)
    requires CallOk(b, c)
  {
    match c
    case StringCall(str) => Lies(data, |Do(b, c).data|, 4)
    case VectorCall(elems, size) =>
      && Lies(data, |Do(b, c).data|, 4)
      && forall i :: 0 <= i < |elems| ==> Lies(data, |Do(b, c).data| - 4 - Stride(i, size), size)
    case TableCall(ops, n) =>
      var t := MakeTable(b, ops, n).1;
      && Lies(data, t, 4)
      && (forall i :: 0 <= i < |ops| && Written(b.force, ops[i]) && Regular(ops[i]) ==> FieldLies(data, t, ops[i]))
      && VtablesLie(data, MakeTable(b, ops, n).0.vtables)
      && TableReadable(data, t) && VtableOf(data, t) in MakeTable(b, ops, n).0.vtables
  }

  ghost predicate VtablesLie(data: seq<Byte>, vtables: seq<nat>) {
    forall i :: 0 <= i < |vtables| ==> VtableLies(data, vtables[i])
  }

  /** Where the fields of a table are, in any later buffer. */
  lemma FieldsPlaced(b: Builder, ops: seq<FieldOp>, n: nat, data: seq<Byte>, i: nat)
    requires Steady(b) && TableInput(b, ops, n) && i < |ops|
    requires Extends(data, MakeTable(b, ops, n).0.data)
    requires Find(AddFields(b, ops).fields, ops[i].id).Some?
    ensures var t, off := MakeTable(b, ops, n).1, Find(AddFields(b, ops).fields, ops[i].id).value;
            && TableReadable(data, t)
            && GetOptionalFieldOffset(data, t, ops[i].id) == t - off > 0
  {
    var a := AddFields(b, ops);
    hide PaddingBytes, LittleEndian, FromLittleEndian, VtablesOk, FillOffsets, AddFields, IsPow2,
         GetOptionalFieldOffset;
    TableInputEndOk(b, ops, n);
    VtablesExtend(a.data, b.data, b.vtables);
    EndTableReads(a, |b.data|, n);
    var (r, t) := MakeTable(b, ops, n);
    TableMapsExtends(data, r.data, t, a.fields);
    FindInside(a.fields, |b.data|, |a.data|, 4 + 2 * n, ops[i].id);
    assert SlotId(ops[i].id, 4 + 2 * n);
  }

  lemma TableMinalign(b: Builder, ops: seq<FieldOp>, n: nat)
    requires Steady(b) && TableInput(b, ops, n)
    ensures AddFields(b, ops).minalign <= MakeTable(b, ops, n).0.minalign
  {
    TableSlotsFit(b, ops, n);
    hide PaddingBytes, LittleEndian, FillOffsets, AddFields, IsPow2, TableInput, Patch, FindVtable;
  }

  lemma StringScalars(b: Builder, str: seq<Byte>, e: Builder, root: nat, ident: Option<seq<Byte>>)
    requires Steady(b) && Grows(e, CreateString(b, str)) && IsPow2(e.minalign)
    requires root <= |e.data| && (ident.Some? ==> |ident.value| == 4)
    requires e.minalign >= 1 && |Finish(e, root, ident).data| < TWO31
    ensures Lies(Finish(e, root, ident).data, |CreateString(b, str).data|, 4)
  {
    SmallPow2();
    hide PaddingBytes, LittleEndian, IsPow2, Finish;
    var p := Prepend(Fill(PreAlign(b, |str| + 1, 4), 1), str);
    PushAligned(p, |str|, 4);
    AlignedFromStart(e, root, ident, |CreateString(b, str).data|, 4);
  }

  lemma PlaceAligned(v: nat, i: nat, len: nat, size: nat, start: nat)
    requires size >= 1 && i < len && Aligned(start, size) && v == start + Stride(len, size)
    ensures Aligned(v - Stride(i, size), size) && v - Stride(i, size) >= start
  {
    assert v - Stride(i, size) == start + (len - i) * size;
    ModAddMultiple(start, len - i, size);
  }

  lemma {:induction false} PushElemsMinalign(b: Builder, elems: seq<Elem>, size: nat)
    requires ValidVector(elems, size) && ValidElems(elems, |b.data|) && IsPow2(b.minalign) && elems != []
    ensures size <= PushElems(b, elems, size).minalign
  {
    var m := PushElems(b, elems[1..], size);
    SmallPow2();
    PushElemsKeeps(b, elems[1..], size);
    hide PaddingBytes, LittleEndian, IsPow2, PushElems;
    match elems[0] {
      case Value(v) => PushAligned(m, v, size);
      case Target(off) =>
        var b1 := Align(m, 4);
        PushAligned(b1, Distance(b1, off), 4);
    }
  }

  lemma {:induction false} ElemsTakeRoom(b: Builder, elems: seq<Elem>, size: nat)
    requires ValidVector(elems, size) && ValidElems(elems, |b.data|)
    ensures |PushElems(b, elems, size).data| >= |b.data| + Stride(|elems|, size)
    decreases |elems|
  {
    if elems == [] {
      assert Stride(0, size) == 0;
    } else {
      var m := PushElems(b, elems[1..], size);
      ElemsTakeRoom(b, elems[1..], size);
      StrideStep(|elems| - 1, size);
      hide PaddingBytes, LittleEndian, Stride, PushElems;
      match elems[0] {
        case Value(v) => PushElementGrows(m, v, size);
        case Target(off) =>
          var b1 := Align(m, 4);
          PushElementGrows(b1, Distance(b1, off), 4);
      }
    }
  }

  lemma VectorRoom(b: Builder, elems: seq<Elem>, size: nat)
    requires ValidVector(elems, size) && ValidElems(elems, |b.data|)
    ensures |StartVector(b, |elems|, size).data| + Stride(|elems|, size) + 4 <= |CreateVector(b, elems, size).data|
  {
    var p := StartVector(b, |elems|, size);
    ElemsTakeRoom(p, elems, size);
    hide PaddingBytes, LittleEndian, Stride, PushElems, StartVector;
    PushElementGrows(PushElems(p, elems, size), |elems|, 4);
  }

  lemma VectorScalars(b: Builder, elems: seq<Elem>, size: nat, e: Builder, root: nat, ident: Option<seq<Byte>>, i: nat)
    requires Steady(b) && ValidVector(elems, size) && ValidElems(elems, |b.data|)
    requires Grows(e, CreateVector(b, elems, size)) && IsPow2(e.minalign)
    requires root <= |e.data| && (ident.Some? ==> |ident.value| == 4)
    requires e.minalign >= 1 && |Finish(e, root, ident).data| < TWO31
    ensures var f, v := Finish(e, root, ident).data, |CreateVector(b, elems, size).data|;
            && Lies(f, v, 4)
            && (i < |elems| ==> Lies(f, v - 4 - Stride(i, size), size))
  {
    SmallPow2();
    hide PaddingBytes, LittleEndian, IsPow2, Finish, PushElems, FromLittleEndian, Stride, IsVector;
    FinishReads(e, root, ident);
    VectorRoom(b, elems, size);
    CreateVectorReads(b, elems, size);
    StartVectorAligns(b, |elems|, size);
    var p := StartVector(b, |elems|, size);
    var m := PushElems(p, elems, size);
    PushAligned(m, |elems|, 4);
    var v := |CreateVector(b, elems, size).data|;
    AlignedFromStart(e, root, ident, v, 4);
    if i < |elems| {
      PushElemsMinalign(p, elems, size);
      PlaceAligned(v - 4, i, |elems|, size, |p.data|);
      AlignedFromStart(e, root, ident, v - 4 - Stride(i, size), size);
    }
  }

  lemma TableScalars(b: Builder, ops: seq<FieldOp>, n: nat, e: Builder, root: nat, ident: Option<seq<Byte>>, i: nat)
    requires Steady(b) && TableInput(b, ops, n)
    requires Grows(e, MakeTable(b, ops, n).0) && IsPow2(e.minalign)
    requires root <= |e.data| && (ident.Some? ==> |ident.value| == 4)
    requires e.minalign >= 1 && |Finish(e, root, ident).data| < TWO31
    ensures var f, t := Finish(e, root, ident).data, MakeTable(b, ops, n).1;
            && Lies(f, t, 4)
            && (i < |ops| && Written(b.force, ops[i]) && Regular(ops[i]) ==> FieldLies(f, t, ops[i]))
  {
    SmallPow2();
    hide PaddingBytes, LittleEndian, IsPow2, Finish, FromLittleEndian, MakeTable, AddFields,
         GetOptionalFieldOffset, VtableOf;
    var (r, t) := MakeTable(b, ops, n);
    var f := Finish(e, root, ident);
    TableKeeps(b, ops, n);
    FinishReads(e, root, ident);
    GrowsTransitive(f, e, r);
    TableRoundTrip(b, ops, n, f.data);
    AlignedFromStart(e, root, ident, t, 4);
    if i < |ops| && Written(b.force, ops[i]) && Regular(ops[i]) {
      FieldsAligned(b, ops);
      assert FieldAligned(AddFields(b, ops), ops[i]);
      hide AllAligned;
      TableMinalign(b, ops, n);
      AddFieldsForce(b, ops);
      var a := AddFields(b, ops);
      assert FieldAligned(a, ops[i]);
      FieldsPlaced(b, ops, n, f.data, i);
      assert ValidOp(ops[i], |b.data|);
      UnitPow2(ops[i], |b.data|);
      AlignedFromStart(e, root, ident, Find(a.fields, ops[i].id).value, Unit(ops[i]));
    }
  }

  lemma EvenLies(data: seq<Byte>, v: nat)
    requires |data| % 2 == 0 && v % 2 == 0 && 2 <= v <= |data| && ReadScalar(data, v, 2) <= v
    ensures VtableLies(data, v)
  {
    hide ReadScalar;
  }

  /** Vtables have even sizes and lie at even offsets, and the buffer is finished to a multiple of 4. */
  lemma VtablesAligned(r: Builder, e: Builder, root: nat, ident: Option<seq<Byte>>)
    requires Steady(r) && r.minalign >= 4 && Grows(e, r) && IsPow2(e.minalign)
    requires root <= |e.data| && (ident.Some? ==> |ident.value| == 4)
    requires |Finish(e, root, ident).data| < TWO31
    ensures VtablesLie(Finish(e, root, ident).data, r.vtables)
  {
    SmallPow2();
    hide PaddingBytes, LittleEndian, IsPow2, Finish, FromLittleEndian, Extends, VtableLies, ReadScalar;
    var f := Finish(e, root, ident).data;
    AlignedFromStart(e, root, ident, 0, 2);
    assert |f| % 2 == 0;
    FinishReads(e, root, ident);
    ExtendsTransitive(f, e.data, r.data);
    VtablesExtend(f, r.data, r.vtables);
    forall i | 0 <= i < |r.vtables|
      ensures VtableLies(f, r.vtables[i])
    {
      assert WellFormedVtable(f, r.vtables[i]);
      EvenLies(f, r.vtables[i]);
    }
  }

  lemma VtableOfExtends(data: seq<Byte>, d: seq<Byte>, t: int)
    requires Extends(data, d) && 4 <= t <= |d|
    ensures t <= |data| && VtableOf(data, t) == VtableOf(d, t)
  {
    ExtendsSlices(data, d);
    hide FromLittleEndian;
  }

  /** The vtable that a table uses is among those remembered. */
  lemma OwnVtable(b: Builder, ops: seq<FieldOp>, n: nat, data: seq<Byte>)
    requires Steady(b) && TableInput(b, ops, n)
    requires Extends(data, MakeTable(b, ops, n).0.data)
    ensures var (r, t) := MakeTable(b, ops, n);
            TableReadable(data, t) && VtableOf(data, t) in r.vtables
  {
    var a := AddFields(b, ops);
    hide PaddingBytes, LittleEndian, FromLittleEndian, VtablesOk, FillOffsets, AddFields, IsPow2,
         GetOptionalFieldOffset, TableReadable, VtableOf, EndTable;
    TableInputEndOk(b, ops, n);
    VtablesExtend(a.data, b.data, b.vtables);
    EndTableReads(a, |b.data|, n);
    var (r, t) := MakeTable(b, ops, n);
    TableMapsExtends(data, r.data, t, a.fields);
    VtableOfExtends(data, r.data, t);
  }

  lemma TableVtables(b: Builder, ops: seq<FieldOp>, n: nat, e: Builder, root: nat, ident: Option<seq<Byte>>)
    requires Steady(b) && TableInput(b, ops, n)
    requires Grows(e, MakeTable(b, ops, n).0) && IsPow2(e.minalign)
    requires root <= |e.data| && (ident.Some? ==> |ident.value| == 4)
    requires e.minalign >= 1 && |Finish(e, root, ident).data| < TWO31
    ensures var f, (r, t) := Finish(e, root, ident).data, MakeTable(b, ops, n);
            VtablesLie(f, r.vtables) && TableReadable(f, t) && VtableOf(f, t) in r.vtables
  {
    hide PaddingBytes, IsPow2, Finish, MakeTable, VtablesLie, Steady, TableReadable, VtableOf, TableInput;
    var r := MakeTable(b, ops, n).0;
    TableKeeps(b, ops, n);
    VtablesAligned(r, e, root, ident);
    FinishReads(e, root, ident);
    ExtendsTransitive(Finish(e, root, ident).data, e.data, r.data);
    OwnVtable(b, ops, n, Finish(e, root, ident).data);
  }

  lemma AddFieldsForce(b: Builder, ops: seq<FieldOp>)
    requires ValidOps(ops, |b.data|) && IsPow2(b.minalign)
    ensures AddFields(b, ops).force == b.force
  {
    AddFieldsKeeps(b, ops);
  }

  lemma AllElements(b: Builder, elems: seq<Elem>, size: nat, e: Builder, root: nat, ident: Option<seq<Byte>>)
    requires Steady(b) && CallOk(b, VectorCall(elems, size))
    requires Grows(e, CreateVector(b, elems, size)) && IsPow2(e.minalign)
    requires root <= |e.data| && (ident.Some? ==> |ident.value| == 4)
    requires e.minalign >= 1 && |Finish(e, root, ident).data| < TWO31
    ensures ScalarsAligned(b, VectorCall(elems, size), Finish(e, root, ident).data)
  {
    hide PaddingBytes, IsPow2, Finish, CreateVector, Stride, Lies, Steady, Grows;
    VectorScalars(b, elems, size, e, root, ident, 0);
    forall i | 0 <= i < |elems|
      ensures Lies(Finish(e, root, ident).data, |CreateVector(b, elems, size).data| - 4 - Stride(i, size), size)
    {
      VectorScalars(b, elems, size, e, root, ident, i);
    }
  }

  lemma AllFields(b: Builder, ops: seq<FieldOp>, n: nat, e: Builder, root: nat, ident: Option<seq<Byte>>)
    requires Steady(b) && CallOk(b, TableCall(ops, n))
    requires Grows(e, MakeTable(b, ops, n).0) && IsPow2(e.minalign)
    requires root <= |e.data| && (ident.Some? ==> |ident.value| == 4)
    requires e.minalign >= 1 && |Finish(e, root, ident).data| < TWO31
    ensures ScalarsAligned(b, TableCall(ops, n), Finish(e, root, ident).data)
  {
    hide PaddingBytes, IsPow2, Finish, MakeTable, Lies, FieldLies, Steady, Grows, Written, Regular, TableInput,
         VtablesLie, TableReadable, VtableOf;
    TableVtables(b, ops, n, e, root, ident);
    TableScalars(b, ops, n, e, root, ident, 0);
    forall i | 0 <= i < |ops| && Written(b.force, ops[i]) && Regular(ops[i])
      ensures FieldLies(Finish(e, root, ident).data, MakeTable(b, ops, n).1, ops[i])
    {
      TableScalars(b, ops, n, e, root, ident, i);
    }
  }

  /** Whatever was built before and after and whichever root the buffer was finished with, every length word,
      vector element, vtable word, written field and word of a vtable of a call lies at a multiple of its own
      size from the start of the finished buffer. */
  lemma EveryScalarAligned(b: Builder, c: Call, calls: seq<Call>, root: nat, ident: Option<seq<Byte>>, e: Builder)
    requires Steady(b) && CallOk(b, c)
    requires RunOk(Do(b, c), calls) && e == Run(Do(b, c), calls)
    requires root <= |e.data| && e.minalign >= 1 && (ident.Some? ==> |ident.value| == 4)
    requires |Finish(e, root, ident).data| < TWO31
    ensures ScalarsAligned(b, c, Finish(e, root, ident).data)
  {
    DoKeeps(b, c);
    RunKeeps(Do(b, c), calls);
    assert IsPow2(e.minalign);
    hide PaddingBytes, IsPow2, Finish, MakeTable, CreateString, CreateVector, Steady, Run, RunOk, CallOk, Grows;
    match c {
      case StringCall(str) => StringScalars(b, str, e, root, ident);
      case VectorCall(elems, size) => AllElements(b, elems, size, e, root, ident);
      case TableCall(ops, n) => AllFields(b, ops, n, e, root, ident);
    }
    hide ScalarsAligned;
  }
}
