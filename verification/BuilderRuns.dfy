/** A builder object driven through any run of strings, vectors and tables. */
module BuilderRuns {
  import opened Bytes
  import opened FlatSpec
  import opened FlatTables
  import opened FlatRuns
  import FBB = FlatBufferBuilder
  import VD = VectorDownward

  lemma {:induction false} PrefixSmaller(b: Builder, ops: seq<FieldOp>, k: nat)
    requires ValidOps(ops, |b.data|) && k <= |ops|
    ensures ValidOps(ops[..k], |b.data|)
    ensures |AddFields(b, ops[..k]).data| <= |AddFields(b, ops).data|
    decreases |ops|
  {
    hide PaddingBytes, Apply;
    if k < |ops| {
      var front, op := ops[..|ops| - 1], ops[|ops| - 1];
      assert ValidOp(op, |b.data|);
      assert front[..k] == ops[..k];
      PrefixSmaller(b, front, k);
      ApplyFrame(AddFields(b, front), op);
    } else {
      assert ops[..k] == ops;
    }
  }

  lemma NextField(b: Builder, ops: seq<FieldOp>, k: nat)
    requires k < |ops| && ValidOps(ops, |b.data|)
    ensures ValidOps(ops[..k], |b.data|) && ValidOps(ops[..k + 1], |b.data|)
    ensures ValidOp(ops[k], |AddFields(b, ops[..k]).data|)
    ensures ops[k].StructField? ==> ops[k].alignment >= 1
    ensures AddFields(b, ops[..k + 1]) == Apply(AddFields(b, ops[..k]), ops[k])
  {
    hide Apply;
    assert ValidOp(ops[k], |b.data|);
    assert ops[..k + 1][..k] == ops[..k] && ops[..k + 1][k] == ops[k];
  }

  /** One field call. */
  method AddField(fbb: FBB.FlatBufferBuilder, op: FieldOp)
    requires fbb.Valid() && ValidOp(op, |fbb.State().data|)
    requires op.StructField? ==> op.alignment >= 1
    requires |Apply(fbb.State(), op).data| < VD.MAX_SIZE
    modifies fbb, fbb.vec, fbb.vec.buf
    ensures fbb.Owned() && fbb.State() == Apply(old(fbb.State()), op)
  {
    hide AddElement, AddOffset, AddStruct;
    match op
    case ScalarField(id, n, v, d) => fbb.AddElement(id, v, d, n);
    case RefField(id, target) => fbb.AddOffset(id, target);
    case StructField(id, a, s) => fbb.AddStruct(id, a, s);
  }

  /** The field calls of a table, in order. */
  method AddAllFields(fbb: FBB.FlatBufferBuilder, ops: seq<FieldOp>)
    requires fbb.Valid() && ValidOps(ops, |fbb.State().data|)
    requires |AddFields(fbb.State(), ops).data| < VD.MAX_SIZE
    modifies fbb, fbb.vec, fbb.vec.buf
    ensures fbb.Owned() && fbb.State() == AddFields(old(fbb.State()), ops)
  {
    hide Apply, AddFields, ValidOps;
    ghost var b := fbb.State();
    NoFields(b, ops);
    var i := 0;
    while i < |ops|
      invariant 0 <= i <= |ops| && fbb.Owned()
      invariant ValidOps(ops[..i], |b.data|) && fbb.State() == AddFields(b, ops[..i])
    {
      NextField(b, ops, i);
      PrefixSmaller(b, ops, i + 1);
      AddField(fbb, ops[i]);
      i := i + 1;
    }
    assert ops[..i] == ops;
  }

  lemma NoFields(b: Builder, ops: seq<FieldOp>)
    ensures ops[..0] == [] && ValidOps(ops[..0], |b.data|) && AddFields(b, ops[..0]) == b
  {
  }

  lemma TableReady(b: Builder, ops: seq<FieldOp>, n: nat)
    requires Steady(b) && TableInput(b, ops, n)
    ensures ValidOps(ops, |b.data|) && b.fields == []
    ensures var a := AddFields(b, ops);
            && EndTableOk(a, |b.data|, n) && VtablesOk(a.data, a.vtables) && DistinctFields(a.fields)
            && |a.data| < VD.MAX_SIZE
  {
    hide PaddingBytes, BitAnd, Find, Recorded, AddFields;
    TableInputEndOk(b, ops, n);
    FieldsDistinct(b, ops);
    VtablesExtend(AddFields(b, ops).data, b.data, b.vtables);
  }

  method BuildTable(fbb: FBB.FlatBufferBuilder, ops: seq<FieldOp>, n: nat) returns (t: nat)
    requires fbb.Valid() && Steady(fbb.State()) && TableInput(fbb.State(), ops, n)
    modifies fbb, fbb.vec, fbb.vec.buf
    ensures fbb.Owned() && (fbb.State(), t) == MakeTable(old(fbb.State()), ops, n)
  {
    hide PaddingBytes, AddFields, FlatSpec.EndTable, Steady, VtablesOk, EndTableOk, TableInput;
    ghost var b := fbb.State();
    TableReady(b, ops, n);
    var start := fbb.StartTable();
    AddAllFields(fbb, ops);
    t := fbb.EndTable(start, n);
  }

  /** One call of a run. */
  method Make(fbb: FBB.FlatBufferBuilder, c: Call)
    requires fbb.Valid() && Steady(fbb.State()) && CallOk(fbb.State(), c)
    requires |Do(fbb.State(), c).data| < VD.MAX_SIZE
    modifies fbb, fbb.vec, fbb.vec.buf
    ensures fbb.Owned() && fbb.State() == Do(old(fbb.State()), c)
  {
    hide CreateString, CreateVector, MakeTable, TableInput, Valid;
    match c
    case StringCall(str) => var _ := fbb.CreateString(str);
    case VectorCall(elems, size) => var _ := fbb.CreateVector(elems, size);
    case TableCall(ops, n) => var _ := BuildTable(fbb, ops, n);
  }

  /** A builder object does over any legal run what the values say, as long as the result stays below 2 GiB. */
  method MakeAll(fbb: FBB.FlatBufferBuilder, calls: seq<Call>)
    requires fbb.Valid() && Steady(fbb.State()) && RunOk(fbb.State(), calls)
    requires |Run(fbb.State(), calls).data| < VD.MAX_SIZE
    modifies fbb, fbb.vec, fbb.vec.buf
    ensures fbb.Owned() && fbb.State() == Run(old(fbb.State()), calls)
  {
    hide Steady, CallOk, Do;
    ghost var b := fbb.State();
    var i := 0;
    assert calls[0..] == calls;
    while i < |calls|
      invariant 0 <= i <= |calls| && fbb.Owned()
      invariant Steady(fbb.State()) && RunOk(fbb.State(), calls[i..])
      invariant Run(fbb.State(), calls[i..]) == Run(b, calls)
    {
      assert calls[i..][0] == calls[i] && calls[i..][1..] == calls[i + 1..];
      DoKeeps(fbb.State(), calls[i]);
      RunKeeps(Do(fbb.State(), calls[i]), calls[i + 1..]);
      Make(fbb, calls[i]);
      i := i + 1;
    }
  }

  /** What a cleared builder keeps does no harm: it is as good as a new one. */
  lemma ClearedSteady(b: Builder, fd: bool)
    requires Steady(b)
    ensures Steady(Cleared(b).(force := fd))
  {
  }

  /** A builder that is cleared and used again, with or without default values written out: every run that is
      legal from the cleared state does what the values say. */
  method Reuse(fbb: FBB.FlatBufferBuilder, fd: bool, calls: seq<Call>)
    requires fbb.Valid() && Steady(fbb.State()) && RunOk(Cleared(fbb.State()).(force := fd), calls)
    requires |Run(Cleared(fbb.State()).(force := fd), calls).data| < VD.MAX_SIZE
    modifies fbb, fbb.vec, fbb.vec.buf
    ensures fbb.Owned() && fbb.State() == Run(Cleared(old(fbb.State())).(force := fd), calls)
    ensures Steady(fbb.State())
  {
    ClearedSteady(fbb.State(), fd);
    hide Steady;
    fbb.Clear();
    fbb.ForceDefaults(fd);
    RunKeeps(fbb.State(), calls);
    MakeAll(fbb, calls);
  }
}
