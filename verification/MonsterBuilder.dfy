/** CreateMonster as it runs on a builder. */
module MonsterBuilder {
  import opened Bytes
  import opened FlatSpec
  import opened FlatTables
  import opened FlatVectors
  import opened FlatRuns
  import M = Monster
  import BR = BuilderRuns
  import FBB = FlatBufferBuilder

  /** The first k field calls of CreateMonster, and the next one. */
  lemma MonsterStep(b: Builder, a: M.Args, name: seq<Byte>, inventory: seq<Elem>, k: nat)
    requires Steady(b) && M.ValidArgs(b, a, name, inventory) && |b.data| + 128 < TWO31 && k <= 6
    ensures ValidOps(M.Fields(a)[..k], |b.data|)
    ensures |AddFields(b, M.Fields(a)[..k]).data| <= |b.data| + 15 * k
    ensures k < 6 ==>
              var op, f := M.Fields(a)[k], AddFields(b, M.Fields(a)[..k]);
              && ValidOp(op, |f.data|)
              && (op.StructField? ==> op.alignment >= 1)
              && ValidOps(M.Fields(a)[..k + 1], |b.data|)
              && AddFields(b, M.Fields(a)[..k + 1]) == Apply(f, op)
  {
    hide PaddingBytes, BitAnd, Steady, IsString, IsVector, TableInput, AddFields;
    var ops := M.Fields(a);
    M.MonsterTableInput(b, a, name, inventory);
    MonsterOpsValid(b, ops);
    assert forall i :: 0 <= i < k ==> ops[..k][i] == ops[i];
    M.AddFieldsBounded(b, ops[..k]);
    if k < 6 {
      assert ValidOp(ops[k], |b.data|);
      BR.NextField(b, ops, k);
    }
  }

  lemma MonsterOpsValid(b: Builder, ops: seq<FieldOp>)
    requires TableInput(b, ops, M.NUM_FIELDS)
    ensures b.fields == [] && ValidOps(ops, |b.data|) && DistinctIds(ops)
  {
  }

  /** The first three add_ calls of CreateMonster. */
  method AddLargeFields(fbb: FBB.FlatBufferBuilder, a: M.Args, ghost name: seq<Byte>, ghost inventory: seq<Elem>)
    requires fbb.Valid() && Steady(fbb.State()) && M.ValidArgs(fbb.State(), a, name, inventory)
    requires |fbb.State().data| + 128 < TWO31
    modifies fbb, fbb.vec, fbb.vec.buf
    ensures fbb.Owned()
    ensures ValidOps(M.Fields(a)[..3], |old(fbb.State()).data|)
    ensures fbb.State() == AddFields(old(fbb.State()), M.Fields(a)[..3])
  {
    hide AddElement, FlatSpec.AddOffset, FlatSpec.AddStruct, AddFields, PaddingBytes, Steady, M.ValidArgs, ValidOps;
    ghost var b := fbb.State();
    AddNone(b, M.Fields(a));
    MonsterStep(b, a, name, inventory, 0);
    MonsterStep(b, a, name, inventory, 1);
    fbb.AddOffset(M.INVENTORY, a.inventory);
    MonsterStep(b, a, name, inventory, 2);
    fbb.AddOffset(M.NAME, a.name);
    MonsterStep(b, a, name, inventory, 3);
    fbb.AddStruct(M.POS, 4, a.pos);
  }

  /** The add_ calls of CreateMonster: larger fields first. */
  method AddMonsterFields(fbb: FBB.FlatBufferBuilder, a: M.Args, ghost name: seq<Byte>, ghost inventory: seq<Elem>)
    requires fbb.Valid() && Steady(fbb.State()) && M.ValidArgs(fbb.State(), a, name, inventory)
    requires |fbb.State().data| + 128 < TWO31
    modifies fbb, fbb.vec, fbb.vec.buf
    ensures fbb.Owned()
    ensures ValidOps(M.Fields(a), |old(fbb.State()).data|)
    ensures fbb.State() == AddFields(old(fbb.State()), M.Fields(a))
  {
    hide AddElement, FlatSpec.AddOffset, FlatSpec.AddStruct, AddFields, PaddingBytes, Steady, M.ValidArgs, ValidOps;
    ghost var b := fbb.State();
    ghost var ops := M.Fields(a);
    AddLargeFields(fbb, a, name, inventory);
    MonsterStep(b, a, name, inventory, 3);
    MonsterStep(b, a, name, inventory, 4);
    fbb.AddElement(M.HP, a.hp, 100, 2);
    MonsterStep(b, a, name, inventory, 5);
    fbb.AddElement(M.MANA, a.mana, 150, 2);
    MonsterStep(b, a, name, inventory, 6);
    fbb.AddElement(M.COLOR, a.color, 2, 1);
    assert ops[..6] == ops;
  }

  lemma AddNone(b: Builder, ops: seq<FieldOp>)
    ensures ops[..0] == [] && AddFields(b, []) == b
  {
  }

  method CreateMonster(fbb: FBB.FlatBufferBuilder, a: M.Args, ghost name: seq<Byte>, ghost inventory: seq<Elem>)
    returns (t: nat)
    requires fbb.Valid() && Steady(fbb.State()) && M.ValidArgs(fbb.State(), a, name, inventory)
    requires |fbb.State().data| + 128 < TWO31
    modifies fbb, fbb.vec, fbb.vec.buf
    ensures fbb.Owned()
    ensures (fbb.State(), t) == M.CreateMonster(old(fbb.State()), a, name, inventory)
  {
    hide AddFields, PaddingBytes, M.ValidArgs, VtablesOk, M.Fields, FlatSpec.EndTable, TableInput;
    ghost var b := fbb.State();
    M.MonsterTableInput(b, a, name, inventory);
    BR.TableReady(b, M.Fields(a), M.NUM_FIELDS);
    var start := fbb.StartTable();
    AddMonsterFields(fbb, a, name, inventory);
    t := fbb.EndTable(start, M.NUM_FIELDS);
  }
}
