/** The whole program: a name, an inventory, a monster with both, and the finished buffer read back. */
module MonsterProgram {
  import opened Bytes
  import opened Wrappers
  import opened FlatReader
  import opened FlatSpec
  import opened FlatTables
  import opened FlatVectors
  import opened FlatRuns
  import M = Monster
  import MB = MonsterBuilder
  import FBB = FlatBufferBuilder

  const EMPTY := Builder([], [], [], 1, false)

  /** An inventory of bytes as vector elements. */
  function Items(inventory: seq<Byte>): (r: seq<Elem>)
    ensures |r| == |inventory| && forall i :: 0 <= i < |r| ==> r[i] == Value(inventory[i])
  {
    seq(|inventory|, i requires 0 <= i < |inventory| => Value(inventory[i]))
  }

  /** Nothing but the sizes of the parts limits the program. */
  ghost predicate Fits(pos: Option<seq<Byte>>, mana: nat, hp: nat, color: nat, name: seq<Byte>, inventory: seq<Byte>) {
    && (pos.Some? ==> |pos.value| == M.VEC3_SIZE)
    && mana < 0x1_0000 && hp < 0x1_0000 && color < 0x100
    && |name| + |inventory| + 256 < TWO31
  }

  // ---------------------------------------------------------------- sizes and alignments

  /** A size bound and an alignment bound of a builder. */
  ghost predicate Within(b: Builder, size: nat) {
    |b.data| <= size && 1 <= b.minalign <= 4
  }

  lemma PushWithin(b: Builder, v: nat, n: nat, size: nat)
    requires Within(b, size) && ScalarSize(n) && n <= 4
    ensures Within(PushElement(b, v, n), size + 7)
  {
    hide PaddingBytes, LittleEndian, IsPow2;
    SmallPow2();
    PaddingAligns(|b.data|, n);
  }

  lemma StringWithin(b: Builder, str: seq<Byte>, size: nat)
    requires Within(b, size)
    ensures Within(CreateString(b, str), size + |str| + 11)
  {
    hide PaddingBytes, LittleEndian, IsPow2;
    SmallPow2();
    PaddingAligns(|b.data| + (|str| + 1), 4);
    var p := Prepend(Fill(PreAlign(b, |str| + 1, 4), 1), str);
    hide PushElement;
    PushWithin(p, |str|, 4, size + |str| + 4);
  }

  lemma {:induction false} ItemsWithin(b: Builder, elems: seq<Elem>, size: nat)
    requires Within(b, size) && forall i :: 0 <= i < |elems| ==> elems[i].Value?
    ensures var r := PushElems(b, elems, 1); Within(r, size + |elems|)
  {
    if |elems| > 0 {
      ItemsWithin(b, elems[1..], size);
      var p := PushElems(b, elems[1..], 1);
      hide PaddingBytes, LittleEndian, IsPow2;
      SmallPow2();
      PaddingAligns(|p.data|, 1);
    }
  }

  lemma VectorWithin(b: Builder, elems: seq<Elem>, size: nat)
    requires Within(b, size) && forall i :: 0 <= i < |elems| ==> elems[i].Value?
    ensures Within(CreateVector(b, elems, 1), size + |elems| + 11)
  {
    hide PaddingBytes, LittleEndian, IsPow2, PushElems, PushElement;
    SmallPow2();
    PaddingAligns(|b.data| + Stride(|elems|, 1), 4);
    var p := PreAlign(b, Stride(|elems|, 1), 4);
    PaddingAligns(|p.data| + Stride(|elems|, 1), 1);
    var s := StartVector(b, |elems|, 1);
    assert Within(s, size + 3);
    ItemsWithin(s, elems, size + 3);
    PushWithin(PushElems(s, elems, 1), |elems|, 4, size + 3 + |elems|);
  }

  ghost predicate SmallOp(op: FieldOp) {
    match op
    case ScalarField(_, n, _, _) => n <= 2
    case RefField(_, _) => true
    case StructField(_, al, s) => 1 <= al <= 4 && (s.Some? ==> |s.value| <= 12)
  }

  lemma ApplyMinalign(b: Builder, op: FieldOp)
    requires ValidOp(op, |b.data|) && SmallOp(op) && 1 <= b.minalign <= 4
    ensures 1 <= Apply(b, op).minalign <= 4
  {
    hide PaddingBytes, LittleEndian;
  }

  lemma {:induction false} FieldsMinalign(b: Builder, ops: seq<FieldOp>)
    requires ValidOps(ops, |b.data|) && (forall i :: 0 <= i < |ops| ==> SmallOp(ops[i])) && 1 <= b.minalign <= 4
    ensures 1 <= AddFields(b, ops).minalign <= 4
    decreases |ops|
  {
    if |ops| > 0 {
      var front, op := ops[..|ops| - 1], ops[|ops| - 1];
      FieldsMinalign(b, front);
      assert ValidOp(op, |b.data|);
      hide Apply;
      ApplyMinalign(AddFields(b, front), op);
    }
  }

  lemma MonsterWithin(b: Builder, a: M.Args, name: seq<Byte>, inventory: seq<Elem>, size: nat)
    requires Steady(b) && M.ValidArgs(b, a, name, inventory)
    requires Within(b, size) && size + 128 < TWO31
    ensures Within(M.CreateMonster(b, a, name, inventory).0, size + 115)
  {
    var ops := M.Fields(a);
    M.MonsterTableInput(b, a, name, inventory);
    MB.MonsterOpsValid(b, ops);
    MonsterSmall(a, b, name, inventory);
    TableSlotsFit(b, ops, M.NUM_FIELDS);
    assert |ops| == 6;
    hide M.ValidArgs, M.Fields, PaddingBytes, LittleEndian, AddFields, EndTable, Steady, ValidOps;
    M.AddFieldsBounded(b, ops);
    FieldsMinalign(b, ops);
    TableWithin(AddFields(b, ops), |b.data|, M.NUM_FIELDS, size + 90);
  }

  lemma MonsterSmall(a: M.Args, b: Builder, name: seq<Byte>, inventory: seq<Elem>)
    requires M.ValidArgs(b, a, name, inventory)
    ensures forall i :: 0 <= i < |M.Fields(a)| ==> SmallOp(M.Fields(a)[i])
  {
    hide IsString, IsVector;
  }

  lemma TableWithin(b: Builder, start: nat, numFields: nat, size: nat)
    requires Within(b, size) && start <= |b.data|
    requires SlotsFit(b.fields, ObjectLoc(b), 4 + 2 * numFields)
    ensures Within(EndTable(b, start, numFields).0, size + 7 + 4 + 2 * numFields)
  {
    hide PaddingBytes, LittleEndian, FillOffsets, BlankVtable, PushElement, FindVtable;
    PushWithin(b, 0, 4, size);
  }

  lemma FinishWithin(b: Builder, root: nat, size: nat)
    requires Within(b, size) && IsPow2(b.minalign) && root <= |b.data|
    ensures |Finish(b, root, None).data| <= size + 10
  {
    hide PaddingBytes, LittleEndian, IsPow2, BitAnd;
    SmallPow2();
    PaddingAligns(|b.data| + 4, b.minalign);
    var p := PreAlign(b, 4, b.minalign);
    assert |p.data| <= |b.data| + 3;
    PaddingAligns(|p.data|, 4);
    var q := Align(p, 4);
    assert |q.data| <= |p.data| + 3;
    NoPadding(|q.data|, 4);
    assert |PushElement(q, Distance(q, root), 4).data| == |q.data| + 4;
    assert Finish(b, root, None) == PushElement(q, Distance(q, root), 4);
    hide Finish, PushElement, Align, PreAlign;
  }

  // ---------------------------------------------------------------- the program

  lemma EmptySteady()
    ensures Steady(EMPTY) && Within(EMPTY, 0)
  {
    SmallPow2();
  }

  /** What the finished buffer gives to a reader who starts from its first word. */
  ghost predicate Reads(buf: seq<Byte>, pos: Option<seq<Byte>>, mana: nat, hp: nat, color: nat,
                        name: seq<Byte>, inventory: seq<Byte>) {
    && M.VerifyMonsterBuffer(buf)
    && var t := GetRoot(buf);
    && GetField(buf, t, M.MANA, 2, 150) == mana
    && GetField(buf, t, M.HP, 2, 100) == hp
    && GetField(buf, t, M.COLOR, 1, 2) == color
    && (var p := GetPointer(buf, t, M.NAME); p.Some? && IsString(buf, p.value, name))
    && (var v := GetPointer(buf, t, M.INVENTORY); v.Some? && IsVector(buf, v.value, Items(inventory), 1))
    && (var p := GetStruct(buf, t, M.POS);
        && p.Some? == pos.Some?
        && (p.Some? ==> |pos.value| <= p.value <= |buf| && Slice(buf, p.value, |pos.value|) == pos.value))
  }

  lemma PartsReady(pos: Option<seq<Byte>>, mana: nat, hp: nat, color: nat, name: seq<Byte>, inventory: seq<Byte>)
    requires Fits(pos, mana, hp, color, name, inventory)
    ensures var s := CreateString(EMPTY, name);
            var v := CreateVector(s, Items(inventory), 1);
            var a := M.Args(pos, mana, hp, |s.data|, |v.data|, color);
            && Within(s, |name| + 11) && Within(v, |name| + |inventory| + 22)
            && 0 < |s.data| && 0 < |v.data|
            && Steady(s) && Steady(v) && M.ValidArgs(v, a, name, Items(inventory))
  {
    hide PaddingBytes, LittleEndian, IsPow2, CreateString, CreateVector, IsString, IsVector;
    var items := Items(inventory);
    EmptySteady();
    StringWithin(EMPTY, name, 0);
    CreateStringReads(EMPTY, name);
    DoKeeps(EMPTY, StringCall(name));
    var s := CreateString(EMPTY, name);
    VectorWithin(s, items, |name| + 11);
    DoKeeps(s, VectorCall(items, 1));
    StringInside(s.data, |s.data|, name);
    Pow256Values();
    ItemsValid(inventory);
    VectorSize(s, items);
    CreateVectorReads(s, items, 1);
    var v := CreateVector(s, items, 1);
    IsStringExtends(v.data, s.data, |s.data|, name);
    VectorInside(v.data, |v.data|, items);
  }

  lemma StringInside(data: seq<Byte>, s: int, str: seq<Byte>)
    requires IsString(data, s, str)
    ensures s > 0
  {
  }

  lemma VectorInside(data: seq<Byte>, v: int, elems: seq<Elem>)
    requires IsVector(data, v, elems, 1)
    ensures v > 0
  {
  }

  lemma ItemsValid(inventory: seq<Byte>)
    ensures ValidVector(Items(inventory), 1)
  {
    Pow256Values();
  }

  lemma VectorSize(b: Builder, elems: seq<Elem>)
    requires Within(b, |b.data|) && |b.data| + |elems| + 11 < TWO31
    ensures |StartVector(b, |elems|, 1).data| + Stride(|elems|, 1) + 4 < TWO31
  {
    hide PaddingBytes, IsPow2;
    SmallPow2();
    PaddingAligns(|b.data| + Stride(|elems|, 1), 4);
    var p := PreAlign(b, Stride(|elems|, 1), 4);
    PaddingAligns(|p.data| + Stride(|elems|, 1), 1);
  }

  /** The program on a builder object: for any position, scalars, name and inventory below 2 GiB the
      finished buffer is accepted by the verifier and gives a reader exactly what was put in. */
  method BuildMonster(pos: Option<seq<Byte>>, mana: nat, hp: nat, color: nat, name: seq<Byte>, inventory: seq<Byte>)
    returns (fbb: FBB.FlatBufferBuilder)
    requires Fits(pos, mana, hp, color, name, inventory)
    ensures fbb.Valid() && Reads(fbb.State().data, pos, mana, hp, color, name, inventory)
  {
    hide PaddingBytes, LittleEndian, IsPow2, CreateString, CreateVector, Finish, M.CreateMonster, Reads, M.ValidArgs;
    fbb := new FBB.FlatBufferBuilder(1024);
    PartsReady(pos, mana, hp, color, name, inventory);
    ghost var s := CreateString(EMPTY, name);
    ghost var v := CreateVector(s, Items(inventory), 1);
    var nameOff := fbb.CreateString(name);
    var inventoryOff := fbb.CreateVector(Items(inventory), 1);
    var a := M.Args(pos, mana, hp, nameOff, inventoryOff, color);
    MonsterWithin(v, a, name, Items(inventory), |name| + |inventory| + 22);
    MonsterMade(v, a, name, Items(inventory));
    var t := MB.CreateMonster(fbb, a, name, Items(inventory));
    ghost var m := fbb.State();
    FinishWithin(m, t, |name| + |inventory| + 137);
    fbb.Finish(t, None);
    ProgramReads(v, a, name, inventory, m, t, fbb.State());
  }

  lemma MonsterMade(b: Builder, a: M.Args, name: seq<Byte>, inventory: seq<Elem>)
    requires Steady(b) && M.ValidArgs(b, a, name, inventory) && |b.data| + 128 < TWO31
    ensures var (m, t) := M.CreateMonster(b, a, name, inventory);
            Steady(m) && t <= |m.data| && IsPow2(m.minalign)
  {
    M.MonsterTableInput(b, a, name, inventory);
    hide PaddingBytes, M.Fields, TableInput, M.ValidArgs, MakeTable;
    TableKeeps(b, M.Fields(a), M.NUM_FIELDS);
  }

  lemma ProgramReads(v: Builder, a: M.Args, name: seq<Byte>, inventory: seq<Byte>, m: Builder, t: nat, f: Builder)
    requires Steady(v) && M.ValidArgs(v, a, name, Items(inventory)) && |v.data| + 128 < TWO31
    requires a.name != 0 && a.inventory != 0
    requires (m, t) == M.CreateMonster(v, a, name, Items(inventory))
    requires t <= |m.data| && m.minalign >= 1 && f == Finish(m, t, None) && |f.data| < TWO31
    ensures Reads(f.data, a.pos, a.mana, a.hp, a.color, name, inventory)
  {
    hide PaddingBytes, Finish, IsString, IsVector, M.ValidArgs, Steady, M.VerifyMonsterBuffer, M.CreateMonster;
    assert RunOk(m, []) && Run(m, []) == m;
    M.MonsterBufferAccepted(v, a, name, Items(inventory), [], None, m, t, f);
    hide GetPointer, GetField, GetStruct, FieldReadable;
  }
}
