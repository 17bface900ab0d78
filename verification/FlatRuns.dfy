/** Whole runs of builder calls: nothing already written moves, every vtable stays whole and
    distinct, and a table reads back from the finished buffer. */
module FlatRuns {
  import opened Bytes
  import opened Wrappers
  import opened FlatReader
  import opened FlatSpec
  import opened FlatTables
  import opened FlatVectors

  /** One complete builder call. */
  datatype Call =
    | StringCall(str: seq<Byte>)
    | VectorCall(elems: seq<Elem>, size: nat)
    | TableCall(ops: seq<FieldOp>, numFields: nat)

  ghost predicate CallOk(b: Builder, c: Call) {
    match c
    case StringCall(_) => true
    case VectorCall(elems, size) => ValidVector(elems, size) && ValidElems(elems, |b.data|)
    case TableCall(ops, n) => TableInput(b, ops, n)
  }

  function Do(b: Builder, c: Call): Builder
    requires CallOk(b, c)
  {
    match c
    case StringCall(str) => CreateString(b, str)
    case VectorCall(elems, size) => CreateVector(b, elems, size)
    case TableCall(ops, n) => MakeTable(b, ops, n).0
  }

  /** What every call keeps. */
  ghost predicate Steady(b: Builder) {
    Valid(b) && b.fields == []
  }

  ghost predicate RunOk(b: Builder, calls: seq<Call>)
    decreases |calls|
  {
    |calls| > 0 ==> CallOk(b, calls[0]) && RunOk(Do(b, calls[0]), calls[1..])
  }

  function Run(b: Builder, calls: seq<Call>): Builder
    requires RunOk(b, calls)
    decreases |calls|
  {
    if |calls| == 0 then b else Run(Do(b, calls[0]), calls[1..])
  }

  // ---------------------------------------------------------------- one call

  lemma ApplyKeeps(b: Builder, op: FieldOp)
    requires ValidOp(op, |b.data|) && IsPow2(b.minalign)
    requires op.StructField? ==> op.alignment >= 1
    ensures Grows(Apply(b, op), b) && IsPow2(Apply(b, op).minalign)
  {
    hide PaddingBytes, IsPow2, LittleEndian;
    SmallPow2();
    match op
    case ScalarField(_, n, v, _) => PushElementKeeps(b, v, n);
    case RefField(_, target) =>
      if target != 0 {
        AlignGrows(b, 4);
        var b1 := Align(b, 4);
        PushElementKeeps(b1, Distance(b1, target), 4);
        GrowsTransitive(PushElement(b1, Distance(b1, target), 4), b1, b);
      }
    case StructField(_, a, s) =>
      if s.Some? {
        AlignGrows(b, a);
        PrependGrows(Align(b, a), s.value);
        GrowsTransitive(Prepend(Align(b, a), s.value), Align(b, a), b);
      }
  }

  lemma {:induction false} AddFieldsKeeps(b: Builder, ops: seq<FieldOp>)
    requires ValidOps(ops, |b.data|) && IsPow2(b.minalign)
    ensures Grows(AddFields(b, ops), b) && IsPow2(AddFields(b, ops).minalign)
    decreases |ops|
  {
    if |ops| > 0 {
      var front, op := ops[..|ops| - 1], ops[|ops| - 1];
      var a := AddFields(b, front);
      assert ValidOp(op, |b.data|);
      ApplyFrame(a, op);
      hide PaddingBytes, IsPow2, Grows, Apply;
      AddFieldsKeeps(b, front);
      ApplyKeeps(a, op);
      GrowsTransitive(Apply(a, op), a, b);
    }
  }

  lemma TableKeeps(b: Builder, ops: seq<FieldOp>, n: nat)
    requires Steady(b) && TableInput(b, ops, n)
    ensures var (r, t) := MakeTable(b, ops, n);
            && Grows(r, b) && Steady(r)
            && r.minalign >= 4 && Aligned(t, 4) && |b.data| < t <= |r.data|
  {
    hide PaddingBytes, IsPow2, LittleEndian, VtablesOk, TableMaps, FillOffsets;
    var a := AddFields(b, ops);
    TableInputEndOk(b, ops, n);
    AddFieldsKeeps(b, ops);
    VtablesExtend(a.data, b.data, b.vtables);
    EndTableReads(a, |b.data|, n);
    PushElementKeeps(a, 0, 4);
    var (r, t) := MakeTable(b, ops, n);
    assert r.minalign == PushElement(a, 0, 4).minalign;
    ExtendsTransitive(r.data, a.data, b.data);
  }

  lemma DoKeeps(b: Builder, c: Call)
    requires Steady(b) && CallOk(b, c)
    ensures Grows(Do(b, c), b) && Steady(Do(b, c))
  {
    hide PaddingBytes, IsPow2, CreateString, CreateVector;
    match c
    case StringCall(str) =>
      CreateStringKeeps(b, str);
      VtablesExtend(CreateString(b, str).data, b.data, b.vtables);
    case VectorCall(elems, size) =>
      CreateVectorKeeps(b, elems, size);
      VtablesExtend(CreateVector(b, elems, size).data, b.data, b.vtables);
    case TableCall(ops, n) => TableKeeps(b, ops, n);
  }

  // ---------------------------------------------------------------- any run

  /** Over any run of calls the bytes already written keep their end-relative place, no vtable
      remembered is ever popped or overwritten, and the vtables stay pairwise distinct. */
  lemma {:induction false} RunKeeps(b: Builder, calls: seq<Call>)
    requires Steady(b) && RunOk(b, calls)
    ensures Grows(Run(b, calls), b) && Steady(Run(b, calls))
    decreases |calls|
  {
    if |calls| > 0 {
      DoKeeps(b, calls[0]);
      RunKeeps(Do(b, calls[0]), calls[1..]);
      GrowsTransitive(Run(b, calls), Do(b, calls[0]), b);
    }
  }

  lemma RunBytesStay(b: Builder, calls: seq<Call>, o: nat, n: nat)
    requires Steady(b) && RunOk(b, calls) && n <= o <= |b.data|
    ensures o <= |Run(b, calls).data| && Slice(Run(b, calls).data, o, n) == Slice(b.data, o, n)
  {
    RunKeeps(b, calls);
    ExtendsSlices(Run(b, calls).data, b.data);
  }

  /** A table built anywhere in a run and finished as the root reads back from the final buffer:
      the root word leads to it, its address is word-aligned, the identifier is where readers look,
      and every field gives its written value or its default. */
  lemma FinishedTableReadsBack(b: Builder, ops: seq<FieldOp>, n: nat, calls: seq<Call>,
                               ident: Option<seq<Byte>>, e: Builder, t: nat, f: Builder)
    requires Steady(b) && TableInput(b, ops, n)
    requires t == MakeTable(b, ops, n).1
    requires RunOk(MakeTable(b, ops, n).0, calls) && e == Run(MakeTable(b, ops, n).0, calls)
    requires ident.Some? ==> |ident.value| == 4
    requires t <= |e.data| && e.minalign >= 1 && f == Finish(e, t, ident)
    requires |f.data| < TWO31
    ensures |f.data| >= 4 && GetRoot(f.data) == t && Aligned(|f.data| - t, 4)
    ensures ident.Some? ==> |f.data| >= 8 && Slice(f.data, |f.data| - 4, 4) == ident.value
    ensures TableReadsBack(f.data, t, ops)
    ensures t >= |b.data| && Header(f.data, t, 4 + 2 * n, t - |b.data|)
  {
    hide PaddingBytes, IsPow2, Finish, Header, TableReadsBack, Aligned, Slice, MakeTable;
    TableKeeps(b, ops, n);
    var r := MakeTable(b, ops, n).0;
    RunKeeps(r, calls);
    FinishReads(e, t, ident);
    GrowsTransitive(f, e, r);
    TableRoundTrip(b, ops, n, f.data);
    FinishedAligned(f, t);
  }

  lemma FinishedAligned(f: Builder, t: nat)
    requires IsPow2(f.minalign) && f.minalign >= 4 && Aligned(|f.data|, f.minalign) && Aligned(t, 4)
    ensures Aligned(|f.data| - t, 4)
  {
    SmallPow2();
    Pow2Order(4, f.minalign);
    ModTransitive(|f.data|, f.minalign, 4);
    ModSum(|f.data|, t, 4);
  }

  /** A table adds a vtable exactly when no earlier one has the same bytes; otherwise the fresh copy
      is popped again and the buffer ends at the object. */
  lemma VtableSharing(b: Builder, start: nat, numFields: nat)
    requires EndTableOk(b, start, numFields) && VtablesOk(b.data, b.vtables)
    ensures SlotsFit(b.fields, ObjectLoc(b), 4 + 2 * numFields)
    ensures var (r, loc) := EndTable(b, start, numFields);
            var vt := FreshVtable(b, start, numFields);
            if exists i :: 0 <= i < |b.vtables| && VtableBytes(b.data, b.vtables[i]) == vt
            then r.vtables == b.vtables && |r.data| == loc
            else r.vtables == b.vtables + [|r.data|] && |r.data| == loc + |vt|
  {
    hide PaddingBytes, BitAnd, LittleEndian, FillOffsets, MatchAt, VtableBytes, Patch, BlankVtable;
    FreshVtableReads(b, start, numFields, 4);
    PushElementGrows(b, 0, 4);
    var b1 := PushElement(b, 0, 4);
    var vt := FreshVtable(b, start, numFields);
    forall i | 0 <= i < |b.vtables|
      ensures MatchAt(b1.data, b.vtables[i], vt) <==> VtableBytes(b.data, b.vtables[i]) == vt
    {
      VtableMatches(b.data, b1.data, b.vtables[i], vt);
    }
  }

  lemma VtableMatches(d: seq<Byte>, d': seq<Byte>, it: nat, vt: seq<Byte>)
    requires Extends(d', d) && WellFormedVtable(d, it)
    requires |vt| >= 4 && Word(vt, 0) == |vt|
    ensures MatchAt(d', it, vt) <==> VtableBytes(d, it) == vt
  {
    hide FromLittleEndian;
    ExtendsSlices(d', d);
    if MatchAt(d', it, vt) {
      SlicePart(d', it, |vt|, 0, 2);
    }
  }
}
