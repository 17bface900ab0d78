/** The generated code for the Monster schema: its fields, its accessors and its verifier. */
module Monster {
  import opened Bytes
  import opened Wrappers
  import opened FlatReader
  import opened FlatSpec
  import opened FlatTables
  import opened FlatVectors
  import opened FlatRuns

  /** The arguments of CreateMonster; scalars as bit patterns, offsets 0 for null. */
  datatype Args = Args(
    pos: Option<seq<Byte>>, mana: nat, hp: nat, name: nat, inventory: nat, color: nat)

  const POS: nat := 4
  const MANA: nat := 6
  const HP: nat := 8
  const NAME: nat := 10
  const INVENTORY: nat := 14
  const COLOR: nat := 16
  const VEC3_SIZE: nat := 12
  const NUM_FIELDS: nat := 7

  /** The calls of CreateMonster, in its order. */
  function Fields(a: Args): seq<FieldOp> {
    [RefField(INVENTORY, a.inventory), RefField(NAME, a.name), StructField(POS, 4, a.pos),
     ScalarField(HP, 2, a.hp, 100), ScalarField(MANA, 2, a.mana, 150), ScalarField(COLOR, 1, a.color, 2)]
  }

  // ---------------------------------------------------------------- the verifier

  predicate VerifyMonster(buf: seq<Byte>, t: int) {
    && VerifyTable(buf, t)
    && VerifyField(buf, t, POS, VEC3_SIZE)
    && VerifyField(buf, t, MANA, 2)
    && VerifyField(buf, t, HP, 2)
    && VerifyField(buf, t, NAME, 4)
    && VerifyString(buf, PointerField(buf, t, NAME))
    && VerifyField(buf, t, INVENTORY, 4)
    && VerifyVectorPointer(buf, PointerField(buf, t, INVENTORY), 1)
    && VerifyField(buf, t, COLOR, 1)
  }

  /** Monster::name() and Monster::inventory(), once their offset word was verified. */
  function PointerField(buf: seq<Byte>, t: int, field: nat): Option<int>
    requires VerifyTable(buf, t) && field % 2 == 0 && VerifyField(buf, t, field, 4)
  {
    GetPointer(buf, t, field)
  }

  predicate VerifyMonsterBuffer(buf: seq<Byte>) {
    VerifyRange(buf, |buf|, 4) && VerifyMonster(buf, GetRoot(buf))
  }

  /** A field of n bytes, when present, lies inside the buffer. */
  ghost predicate FieldInside(buf: seq<Byte>, t: int, field: nat, n: nat)
    requires TableReadable(buf, t) && field % 2 == 0
  {
    var fo := GetOptionalFieldOffset(buf, t, field);
    fo != 0 ==> fo + n <= t && t - fo <= |buf|
  }

  /** The length word at v and as many bytes as it says, with some more behind them, lie inside the buffer. */
  ghost predicate BytesInside(buf: seq<Byte>, v: int, more: nat) {
    4 <= v <= |buf| && 4 + ReadScalar(buf, v, 4) + more <= v
  }

  /** The string a field leads to lies inside, and ends with a zero byte. */
  ghost predicate StringInside(buf: seq<Byte>, t: int, field: nat)
    requires TableReadable(buf, t) && field % 2 == 0 && FieldInside(buf, t, field, 4)
  {
    var fo := GetOptionalFieldOffset(buf, t, field);
    fo != 0 ==>
      var s := t - fo - ReadScalar(buf, t - fo, 4);
      BytesInside(buf, s, 1) && buf[|buf| - s + 4 + ReadScalar(buf, s, 4)] == 0
  }

  /** The byte vector a field leads to lies inside. */
  ghost predicate VectorInside(buf: seq<Byte>, t: int, field: nat)
    requires TableReadable(buf, t) && field % 2 == 0 && FieldInside(buf, t, field, 4)
  {
    var fo := GetOptionalFieldOffset(buf, t, field);
    fo != 0 ==> BytesInside(buf, t - fo - ReadScalar(buf, t - fo, 4), 0)
  }

  /** Everything the accessors of a Monster at t read, and all that the string and the vector they lead to
      consist of, lies inside the buffer. */
  ghost predicate ReadsInside(buf: seq<Byte>, t: int) {
    && TableReadable(buf, t)
    && FieldInside(buf, t, 4, 12) && FieldInside(buf, t, 6, 2) && FieldInside(buf, t, 8, 2)
    && FieldInside(buf, t, 10, 4) && StringInside(buf, t, 10)
    && FieldInside(buf, t, 14, 4) && VectorInside(buf, t, 14)
    && FieldInside(buf, t, 16, 1)
  }

  /** The verifier accepts a buffer, whoever made it, exactly when reading it stays inside. */
  lemma AcceptedExactly(buf: seq<Byte>)
    ensures VerifyMonsterBuffer(buf) <==> |buf| >= 4 && ReadsInside(buf, GetRoot(buf))
  {
    if |buf| >= 4 {
      hide VerifyMonster, ReadsInside;
      MonsterExactly(buf, GetRoot(buf));
    }
  }

  lemma MonsterExactly(buf: seq<Byte>, t: int)
    ensures VerifyMonster(buf, t) <==> ReadsInside(buf, t)
  {
    TableExactly(buf, t);
    if TableReadable(buf, t) {
      forall field: nat, n: nat | field % 2 == 0
        ensures VerifyField(buf, t, field, n) <==> FieldInside(buf, t, field, n)
      {
        FieldExactly(buf, t, field, n);
      }
      if FieldInside(buf, t, 10, 4) {
        StringExactly(buf, t, 10);
      }
      if FieldInside(buf, t, 14, 4) {
        VectorExactly(buf, t, 14);
      }
      hide VerifyTable, TableReadable, VerifyField, FieldInside, StringInside, VectorInside, VerifyString,
           VerifyVectorPointer, PointerField;
    }
  }

  lemma FieldExactly(buf: seq<Byte>, t: int, field: nat, n: nat)
    requires VerifyTable(buf, t) && TableReadable(buf, t) && field % 2 == 0
    ensures VerifyField(buf, t, field, n) <==> FieldInside(buf, t, field, n)
  {
    hide VerifyTable, TableReadable, GetOptionalFieldOffset;
  }

  lemma TableExactly(buf: seq<Byte>, t: int)
    ensures VerifyTable(buf, t) <==> TableReadable(buf, t)
  {
    hide FromLittleEndian, VtableOf;
  }

  lemma StringExactly(buf: seq<Byte>, t: int, field: nat)
    requires VerifyTable(buf, t) && TableReadable(buf, t) && field % 2 == 0
    requires VerifyField(buf, t, field, 4) && FieldInside(buf, t, field, 4)
    ensures VerifyString(buf, PointerField(buf, t, field)) <==> StringInside(buf, t, field)
  {
    hide VerifyTable, TableReadable, GetOptionalFieldOffset, FromLittleEndian;
    var p := PointerField(buf, t, field);
    if p.Some? && 4 <= p.value <= |buf| {
      var n := ReadScalar(buf, p.value, 4);
      assert Stride(n, 1) == n;
      if BytesInside(buf, p.value, 1) {
        OneByteRead(buf, p.value - 4 - n);
      }
    }
  }

  lemma OneByteRead(buf: seq<Byte>, o: int)
    requires 1 <= o <= |buf|
    ensures ReadScalar(buf, o, 1) == buf[|buf| - o]
  {
    var s := Slice(buf, o, 1);
    assert s[0] == buf[|buf| - o];
    assert s == [s[0]] && s[1..] == [];
    assert FromLittleEndian(s[1..]) == 0;
  }

  lemma VectorExactly(buf: seq<Byte>, t: int, field: nat)
    requires VerifyTable(buf, t) && TableReadable(buf, t) && field % 2 == 0
    requires VerifyField(buf, t, field, 4) && FieldInside(buf, t, field, 4)
    ensures VerifyVectorPointer(buf, PointerField(buf, t, field), 1) <==> VectorInside(buf, t, field)
  {
    hide VerifyTable, TableReadable, GetOptionalFieldOffset, FromLittleEndian;
    var p := PointerField(buf, t, field);
    if p.Some? && 4 <= p.value <= |buf| {
      assert Stride(ReadScalar(buf, p.value, 4), 1) == ReadScalar(buf, p.value, 4);
    }
  }

  // ---------------------------------------------------------------- valid arguments

  /** Vec3 is 12 bytes, the scalars fit their types, and the offsets are null or refer to a string
      and a byte vector made earlier in the same buffer. */
  ghost predicate ValidArgs(b: Builder, a: Args, name: seq<Byte>, inventory: seq<Elem>) {
    && (a.pos.Some? ==> |a.pos.value| == VEC3_SIZE)
    && a.mana < Pow256(2) && a.hp < Pow256(2) && a.color < Pow256(1)
    && (a.name != 0 ==> IsString(b.data, a.name, name))
    && (a.inventory != 0 ==> IsVector(b.data, a.inventory, inventory, 1))
  }

  lemma ApplyBounded(b: Builder, op: FieldOp)
    requires ValidOp(op, |b.data|)
    requires match op
             case ScalarField(_, n, _, _) => n <= 8
             case RefField(_, _) => true
             case StructField(_, al, s) => 1 <= al <= 4 && (s.Some? ==> |s.value| <= 12)
    ensures |Apply(b, op).data| <= |b.data| + 15
  {
    hide BitAnd, LittleEndian, PaddingBytes;
    SmallPow2();
    match op
    case ScalarField(_, n, v, _) =>
      PaddingAligns(|b.data|, n);
      PushElementGrows(b, v, n);
    case RefField(_, target) =>
      PaddingAligns(|b.data|, 4);
      var b1 := Align(b, 4);
      NoPadding(|b1.data|, 4);
      if target != 0 {
        PushElementGrows(b1, Distance(b1, target), 4);
      }
    case StructField(_, al, s) =>
      PaddingAligns(|b.data|, al);
  }

  lemma {:induction false} AddFieldsBounded(b: Builder, ops: seq<FieldOp>)
    requires ValidOps(ops, |b.data|)
    requires forall i :: 0 <= i < |ops| ==>
               match ops[i]
               case ScalarField(_, n, _, _) => n <= 8
               case RefField(_, _) => true
               case StructField(_, al, s) => 1 <= al <= 4 && (s.Some? ==> |s.value| <= 12)
    ensures |AddFields(b, ops).data| <= |b.data| + 15 * |ops|
    decreases |ops|
  {
    if |ops| > 0 {
      var front, op := ops[..|ops| - 1], ops[|ops| - 1];
      var a := AddFields(b, front);
      assert ValidOp(op, |b.data|);
      ApplyFrame(a, op);
      hide Apply, PaddingBytes;
      AddFieldsBounded(b, front);
      ApplyBounded(a, op);
    }
  }

  /** CreateMonster meets what a table needs, for any arguments, up to the 2 GiB limit. */
  lemma MonsterTableInput(b: Builder, a: Args, name: seq<Byte>, inventory: seq<Elem>)
    requires Steady(b) && ValidArgs(b, a, name, inventory)
    requires |b.data| + 128 < TWO31
    ensures TableInput(b, Fields(a), NUM_FIELDS)
  {
    hide BitAnd, PaddingBytes, IsString, IsVector, AddFields;
    SmallPow2();
    Pow256Values();
    var ops := Fields(a);
    assert a.name <= |b.data| && a.inventory <= |b.data| by { OffsetsInside(b, a, name, inventory); }
    assert ValidOps(ops, |b.data|);
    AddFieldsBounded(b, ops);
    PaddingAligns(|AddFields(b, ops).data|, 4);
  }

  lemma OffsetsInside(b: Builder, a: Args, name: seq<Byte>, inventory: seq<Elem>)
    requires ValidArgs(b, a, name, inventory)
    ensures a.name <= |b.data| && a.inventory <= |b.data|
  {
  }

  // ---------------------------------------------------------------- acceptance and reading back

  /** The accessors of a Monster at t return the arguments it was created with. */
  ghost predicate Accessors(buf: seq<Byte>, t: int, a: Args) {
    && FieldReadable(buf, t, MANA, 2) && GetField(buf, t, MANA, 2, 150) == a.mana
    && FieldReadable(buf, t, HP, 2) && GetField(buf, t, HP, 2, 100) == a.hp
    && FieldReadable(buf, t, COLOR, 1) && GetField(buf, t, COLOR, 1, 2) == a.color
    && FieldReadable(buf, t, NAME, 4) && GetPointer(buf, t, NAME) == Reference(a.name)
    && FieldReadable(buf, t, INVENTORY, 4) && GetPointer(buf, t, INVENTORY) == Reference(a.inventory)
    && var p := GetStruct(buf, t, POS);
    && p.Some? == a.pos.Some?
    && (p.Some? ==> |a.pos.value| <= p.value <= |buf| && Slice(buf, p.value, |a.pos.value|) == a.pos.value)
  }

  function Reference(off: nat): Option<int> {
    if off == 0 then None else Some(off)
  }

  lemma FieldsGiveAccessors(buf: seq<Byte>, t: int, a: Args)
    requires TableReadsBack(buf, t, Fields(a))
    ensures Accessors(buf, t, a)
  {
    hide FromLittleEndian, VtableOf, GetOptionalFieldOffset;
    var ops := Fields(a);
    assert ReadsBack(buf, t, ops[0]) && ReadsBack(buf, t, ops[1]) && ReadsBack(buf, t, ops[2])
        && ReadsBack(buf, t, ops[3]) && ReadsBack(buf, t, ops[4]) && ReadsBack(buf, t, ops[5]);
  }

  lemma MonsterReads(buf: seq<Byte>, t: int, a: Args, b: Builder, name: seq<Byte>, inventory: seq<Elem>)
    requires Accessors(buf, t, a) && Extends(buf, b.data)
    requires ValidArgs(b, a, name, inventory)
    requires |b.data| < t <= |buf|
    ensures VerifyMonster(buf, t)
  {
    hide FromLittleEndian, VtableOf, GetOptionalFieldOffset, IsString, IsVector;
    assert VerifyTable(buf, t);
    if a.name != 0 {
      IsStringExtends(buf, b.data, a.name, name);
      StringAccepted(buf, a.name, name);
    }
    if a.inventory != 0 {
      IsVectorExtends(buf, b.data, a.inventory, inventory, 1);
      VectorAccepted(buf, a.inventory, inventory);
    }
  }

  lemma StringAccepted(buf: seq<Byte>, s: nat, str: seq<Byte>)
    requires IsString(buf, s, str)
    ensures VerifyString(buf, Some(s))
  {
    assert Stride(|str|, 1) == |str|;
    assert FromLittleEndian([0]) == 0;
  }

  lemma VectorAccepted(buf: seq<Byte>, v: nat, elems: seq<Elem>)
    requires IsVector(buf, v, elems, 1)
    ensures VerifyVectorPointer(buf, Some(v), 1)
  {
  }

  function CreateMonster(b: Builder, a: Args, ghost name: seq<Byte>, ghost inventory: seq<Elem>): (r: (Builder, nat))
    requires Steady(b) && ValidArgs(b, a, name, inventory)
    requires |b.data| + 128 < TWO31
  {
    MonsterTableInput(b, a, name, inventory);
    MakeTable(b, Fields(a), NUM_FIELDS)
  }

  /** Whatever the arguments, whatever was built before and after, the finished buffer is accepted
      by VerifyMonsterBuffer, its root's accessors return the arguments, and the string and the
      vector they lead to are the ones that were made. */
  lemma MonsterBufferAccepted(b: Builder, a: Args, name: seq<Byte>, inventory: seq<Elem>,
                              calls: seq<Call>, ident: Option<seq<Byte>>, e: Builder, t: nat, f: Builder)
    requires Steady(b) && ValidArgs(b, a, name, inventory)
    requires |b.data| + 128 < TWO31
    requires t == CreateMonster(b, a, name, inventory).1
    requires RunOk(CreateMonster(b, a, name, inventory).0, calls)
    requires e == Run(CreateMonster(b, a, name, inventory).0, calls)
    requires ident.Some? ==> |ident.value| == 4
    requires t <= |e.data| && e.minalign >= 1 && f == Finish(e, t, ident)
    requires |f.data| < TWO31
    ensures VerifyMonsterBuffer(f.data)
    ensures GetRoot(f.data) == t && Accessors(f.data, t, a)
    ensures t >= |b.data| && Header(f.data, t, 18, t - |b.data|)
    ensures a.name != 0 ==> IsString(f.data, a.name, name)
    ensures a.inventory != 0 ==> IsVector(f.data, a.inventory, inventory, 1)
  {
    hide PaddingBytes, Finish, IsString, IsVector, MakeTable, VerifyMonster, TableInput, Fields, VtablesOk,
         TableReadsBack, Accessors, Header;
    MonsterTableInput(b, a, name, inventory);
    var r := CreateMonster(b, a, name, inventory).0;
    FinishedTableReadsBack(b, Fields(a), NUM_FIELDS, calls, ident, e, t, f);
    FieldsGiveAccessors(f.data, t, a);
    TableKeeps(b, Fields(a), NUM_FIELDS);
    RunKeeps(r, calls);
    GrowsFinish(r, e, t, ident, f);
    ExtendsTransitive(f.data, r.data, b.data);
    MonsterReads(f.data, t, a, b, name, inventory);
    if a.name != 0 {
      IsStringExtends(f.data, b.data, a.name, name);
    }
    if a.inventory != 0 {
      IsVectorExtends(f.data, b.data, a.inventory, inventory, 1);
    }
  }

  lemma GrowsFinish(r: Builder, e: Builder, t: nat, ident: Option<seq<Byte>>, f: Builder)
    requires Grows(e, r) && IsPow2(e.minalign) && t <= |e.data| && e.minalign >= 1
    requires ident.Some? ==> |ident.value| == 4
    requires f == Finish(e, t, ident) && |f.data| < TWO31
    ensures Extends(f.data, r.data)
  {
    hide PaddingBytes, Finish;
    FinishReads(e, t, ident);
    GrowsTransitive(f, e, r);
  }
}
