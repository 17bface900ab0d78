/** Tables read back as they were written, whether their vtable is fresh or shared. */
module FlatTables {
  import opened Bytes
  import opened Wrappers
  import opened FlatReader
  import opened FlatSpec

  // ---------------------------------------------------------------- one field

  /** The value a field operation wrote lies at offset off. */
  ghost predicate Holds(data: seq<Byte>, off: nat, op: FieldOp) {
    match op
    case ScalarField(_, n, v, _) => n <= off <= |data| && ReadScalar(data, off, n) == v
    case RefField(_, target) => 4 <= off <= |data| && off - ReadScalar(data, off, 4) == target
    case StructField(_, _, s) => s.Some? && |s.value| <= off <= |data| && Slice(data, off, |s.value|) == s.value
  }

  /** Fields equal to their default, null references and null structs are left out. */
  predicate Written(force: bool, op: FieldOp) {
    match op
    case ScalarField(_, _, v, d) => force || v != d
    case RefField(_, target) => target != 0
    case StructField(_, _, s) => s.Some?
  }

  lemma HoldsExtends(d': seq<Byte>, d: seq<Byte>, off: nat, op: FieldOp)
    requires Extends(d', d) && Holds(d, off, op)
    ensures Holds(d', off, op)
  {
    ExtendsSlices(d', d);
  }

  lemma PushElementGrows(b: Builder, v: nat, size: nat)
    requires size >= 1
    ensures var r := PushElement(b, v, size);
            && Extends(r.data, b.data) && |r.data| == |b.data| + PaddingBytes(|b.data|, size) + size
            && Slice(r.data, |r.data|, size) == LittleEndian(v, size)
  {
    var le, z := LittleEndian(v, size), Zeros(PaddingBytes(|b.data|, size));
    assert PushElement(b, v, size).data == (le + z) + b.data;
    ExtendsPrefix(le + z, b.data);
  }

  /** A pushed scalar is read back at the new end of the buffer, and is aligned there. */
  lemma PushElementReads(b: Builder, v: nat, size: nat)
    requires ScalarSize(size) && v < Pow256(size)
    ensures var r := PushElement(b, v, size);
            && Extends(r.data, b.data) && |r.data| >= |b.data| + size
            && ReadScalar(r.data, |r.data|, size) == v
            && Aligned(|r.data|, size)
  {
    hide PaddingBytes, FromLittleEndian, LittleEndian, PushElement, BitAnd;
    PushElementGrows(b, v, size);
    LittleEndianRoundTrip(v, size);
    SmallPow2();
    PaddingAligns(|b.data|, size);
    ModAddMultiple(|b.data| + PaddingBytes(|b.data|, size), 1, size);
  }

  /** What one field call does: nothing, or grow the buffer and record the field at its new end. */
  ghost predicate Step(b: Builder, r: Builder, op: FieldOp) {
    && Extends(r.data, b.data)
    && r.vtables == b.vtables && r.force == b.force
    && (if Written(b.force, op)
        then |r.data| > |b.data| && r.fields == b.fields + [FieldLoc(op.id, |r.data|)] && Holds(r.data, |r.data|, op)
        else r == b)
  }

  lemma ApplySteps(b: Builder, op: FieldOp)
    requires ValidOp(op, |b.data|)
    requires op.StructField? ==> op.alignment >= 1
    requires |Apply(b, op).data| < TWO31
    ensures Step(b, Apply(b, op), op)
  {
    hide PaddingBytes, BitAnd, LittleEndian, FromLittleEndian;
    ApplyFrame(b, op);
    if Written(b.force, op) {
      ApplyHolds(b, op);
    }
  }

  lemma ApplyFrame(b: Builder, op: FieldOp)
    requires ValidOp(op, |b.data|)
    ensures op.StructField? ==> op.alignment >= 1
    ensures var r := Apply(b, op);
            && Extends(r.data, b.data)
            && r.vtables == b.vtables && r.force == b.force
            && (!Written(b.force, op) ==> r == b)
            && (Written(b.force, op) ==> r.fields == b.fields + [FieldLoc(op.id, |r.data|)] && |r.data| > |b.data|)
  {
    match op
    case ScalarField(_, n, v, _) => PushElementReads(b, v, n);
    case RefField(_, target) =>
      if target != 0 {
        var b1 := Align(b, 4);
        var r := PushElement(b1, Distance(b1, target), 4);
        ExtendsTransitive(r.data, Align(b1, 4).data, b1.data);
        ExtendsTransitive(r.data, b1.data, b.data);
      }
    case StructField(_, a, s) =>
      Pow2Positive(a);
      if s.Some? {
        ExtendsTransitive(Prepend(Align(b, a), s.value).data, Align(b, a).data, b.data);
      }
  }

  lemma ApplyHolds(b: Builder, op: FieldOp)
    requires ValidOp(op, |b.data|) && Written(b.force, op)
    requires op.StructField? ==> op.alignment >= 1
    requires |Apply(b, op).data| < TWO31
    ensures Holds(Apply(b, op).data, |Apply(b, op).data|, op)
  {
    match op
    case ScalarField(_, n, v, _) => PushElementReads(b, v, n);
    case RefField(_, target) =>
      var b1 := Align(b, 4);
      Pow256Values();
      SmallPow2();
      PaddingAligns(|b.data|, 4);
      NoPadding(|b1.data|, 4);
      PushElementReads(b1, Distance(b1, target), 4);
    case StructField(_, a, s) =>
      var r := Apply(b, op);
      assert Slice(r.data, |r.data|, |s.value|) == s.value;
  }

  // ---------------------------------------------------------------- all fields of a table

  /** The last recorded offset of a slot. */
  function Find(fields: seq<FieldLoc>, id: nat): Option<nat>
    decreases |fields|
  {
    if |fields| == 0 then None
    else if fields[|fields| - 1].id == id then Some(fields[|fields| - 1].off)
    else Find(fields[..|fields| - 1], id)
  }

  ghost predicate DistinctIds(ops: seq<FieldOp>) {
    forall i, j :: 0 <= i < j < |ops| ==> ops[i].id != ops[j].id
  }

  ghost predicate DistinctFields(fields: seq<FieldLoc>) {
    forall i, j :: 0 <= i < j < |fields| ==> fields[i].id != fields[j].id
  }

  ghost predicate Unused(ops: seq<FieldOp>, id: nat) {
    forall i :: 0 <= i < |ops| ==> ops[i].id != id
  }

  /** A slot of a vtable of the given size: a 16-bit word after the two header words. */
  predicate SlotId(id: nat, size: nat) {
    4 <= id && id % 2 == 0 && id + 2 <= size
  }

  ghost predicate SlotIds(ops: seq<FieldOp>, size: nat) {
    forall i :: 0 <= i < |ops| ==> SlotId(ops[i].id, size)
  }

  /** The field an operation stands for: recorded where its value lies, or not recorded. */
  ghost predicate Recorded(b: Builder, op: FieldOp) {
    if Written(b.force, op)
    then Find(b.fields, op.id).Some? && Holds(b.data, Find(b.fields, op.id).value, op)
    else Find(b.fields, op.id) == None
  }

  ghost predicate AllRecorded(b: Builder, ops: seq<FieldOp>) {
    && (forall i :: 0 <= i < |ops| ==> Recorded(b, ops[i]))
    && (forall id :: Unused(ops, id) ==> Find(b.fields, id) == None)
  }

  ghost predicate FieldsInside(fields: seq<FieldLoc>, lo: nat, hi: nat, size: nat) {
    forall j :: 0 <= j < |fields| ==> lo < fields[j].off <= hi && SlotId(fields[j].id, size)
  }

  /** What the field calls leave behind. */
  ghost predicate LaidOut(b0: Builder, b: Builder, ops: seq<FieldOp>, size: nat) {
    && Extends(b.data, b0.data)
    && b.vtables == b0.vtables && b.force == b0.force
    && FieldsInside(b.fields, |b0.data|, |b.data|, size)
    && AllRecorded(b, ops)
  }

  lemma NothingLaidOut(b0: Builder, ops: seq<FieldOp>, size: nat)
    requires b0.fields == [] && |ops| == 0
    ensures LaidOut(b0, AddFields(b0, ops), ops, size)
  {
  }

  lemma {:induction false} FieldsLaidOut(b0: Builder, ops: seq<FieldOp>, size: nat)
    requires b0.fields == [] && ValidOps(ops, |b0.data|) && DistinctIds(ops) && SlotIds(ops, size)
    requires |AddFields(b0, ops).data| < TWO31
    ensures LaidOut(b0, AddFields(b0, ops), ops, size)
    decreases |ops|
  {
    hide PaddingBytes, BitAnd, Find, Apply, Holds, Extends;
    if |ops| == 0 {
      NothingLaidOut(b0, ops, size);
    } else {
      var n := |ops| - 1;
      var op, front := ops[n], ops[..n];
      var b := AddFields(b0, front);
      assert ValidOp(op, |b0.data|);
      ApplyFrame(b, op);
      var r := Apply(b, op);
      FieldsLaidOut(b0, front, size);
      ApplySteps(b, op);
      assert Unused(front, op.id);
      assert front + [op] == ops;
      LaidOutStep(b0, b, r, front, op, size);
    }
  }

  lemma LaidOutStep(b0: Builder, b: Builder, r: Builder, front: seq<FieldOp>, op: FieldOp, size: nat)
    requires LaidOut(b0, b, front, size) && Step(b, r, op)
    requires Unused(front, op.id) && SlotId(op.id, size)
    ensures LaidOut(b0, r, front + [op], size)
  {
    hide Holds, SlotId, AllRecorded;
    RecordedStep(b, r, front, op);
    ExtendsTransitive(r.data, b.data, b0.data);
  }

  lemma RecordedStep(b: Builder, r: Builder, front: seq<FieldOp>, op: FieldOp)
    requires AllRecorded(b, front) && Unused(front, op.id) && Step(b, r, op)
    ensures AllRecorded(r, front + [op])
  {
    hide Recorded, Find, Written, Holds, Extends;
    var ops := front + [op];
    forall i | 0 <= i < |ops|
      ensures Recorded(r, ops[i])
    {
      if i < |front| {
        assert ops[i] == front[i] && Recorded(b, front[i]);
        RecordedStays(b, r, ops[i], op);
      } else {
        NewlyRecorded(b, r, op);
      }
    }
    forall id | Unused(ops, id)
      ensures Find(r.fields, id) == None
    {
      assert ops[|front|].id != id;
      assert forall i :: 0 <= i < |front| ==> ops[i] == front[i];
      FindOther(b, r, op, id);
    }
  }

  lemma FindOther(b: Builder, r: Builder, op: FieldOp, id: nat)
    requires r.fields == b.fields || r.fields == b.fields + [FieldLoc(op.id, |r.data|)]
    requires id != op.id
    ensures Find(r.fields, id) == Find(b.fields, id)
  {
    if r.fields != b.fields {
      assert r.fields[..|r.fields| - 1] == b.fields;
    }
  }

  lemma RecordedStays(b: Builder, r: Builder, earlier: FieldOp, op: FieldOp)
    requires Recorded(b, earlier) && earlier.id != op.id && Step(b, r, op)
    ensures Recorded(r, earlier)
  {
    FindOther(b, r, op, earlier.id);
    if Written(b.force, earlier) {
      HoldsExtends(r.data, b.data, Find(b.fields, earlier.id).value, earlier);
    }
  }

  lemma NewlyRecorded(b: Builder, r: Builder, op: FieldOp)
    requires Find(b.fields, op.id) == None && Step(b, r, op)
    ensures Recorded(r, op)
  {
  }

  // ---------------------------------------------------------------- the vtable

  function Word(s: seq<Byte>, i: nat): nat
    requires i + 2 <= |s|
  {
    FromLittleEndian(s[i..i + 2])
  }

  lemma PatchElsewhere(s: seq<Byte>, i: nat, bytes: seq<Byte>, a: nat, n: nat)
    requires i + |bytes| <= |s| && a + n <= |s|
    requires a + n <= i || i + |bytes| <= a
    ensures Patch(s, i, bytes)[a..a + n] == s[a..a + n]
  {
  }

  lemma PatchHere(s: seq<Byte>, i: nat, bytes: seq<Byte>)
    requires i + |bytes| <= |s|
    ensures Patch(s, i, bytes)[i..i + |bytes|] == bytes
  {
  }

  /** Slots are 16-bit words after the two header words, and offsets fit in 16 bits. */
  ghost predicate ValidSlots(fields: seq<FieldLoc>, loc: nat, size: nat) {
    forall i :: 0 <= i < |fields| ==>
      && SlotId(fields[i].id, size)
      && fields[i].off < loc && loc - fields[i].off < 0x1_0000
  }

  lemma {:induction false} FillOffsetsReads(vt: seq<Byte>, fields: seq<FieldLoc>, loc: nat, id: nat)
    requires ValidSlots(fields, loc, |vt|)
    requires id % 2 == 0 && id + 2 <= |vt|
    ensures SlotsFit(fields, loc, |vt|)
    ensures var r := FillOffsets(vt, fields, loc);
            Word(r, id) == if Find(fields, id).Some? then loc - Find(fields, id).value else Word(vt, id)
    decreases |fields|
  {
    hide LittleEndian, FromLittleEndian;
    if |fields| == 0 {
    } else {
      var last, front := fields[|fields| - 1], fields[..|fields| - 1];
      FillOffsetsReads(vt, front, loc, id);
      var f := FillOffsets(vt, front, loc);
      var w := LittleEndian(loc - last.off, 2);
      if last.id == id {
        PatchHere(f, id, w);
        Pow256Values();
        LittleEndianRoundTrip(loc - last.off, 2);
      } else {
        PatchElsewhere(f, last.id, w, id, 2);
      }
    }
  }

  lemma {:induction false} FindBelow(fields: seq<FieldLoc>, loc: nat, size: nat, id: nat)
    requires ValidSlots(fields, loc, size)
    ensures Find(fields, id).Some? ==> Find(fields, id).value < loc && SlotId(id, size)
    decreases |fields|
  {
    if |fields| > 0 {
      FindBelow(fields[..|fields| - 1], loc, size, id);
    }
  }

  lemma BlankVtableReads(objectSize: nat, numFields: nat, id: nat)
    requires numFields <= 32765 && id % 2 == 0 && 4 <= id && id + 2 <= 4 + 2 * numFields
    ensures Word(BlankVtable(objectSize, numFields), 0) == 4 + 2 * numFields
    ensures Word(BlankVtable(objectSize, numFields), id) == 0
  {
    var vt := BlankVtable(objectSize, numFields);
    BlankVtableSize(objectSize, numFields);
    assert vt[id..id + 2] == [0, 0];
    assert [0, 0][1..] == [0] && [0][1..] == [];
    assert FromLittleEndian([0, 0]) == 0;
  }

  lemma BlankObjectSize(objectSize: nat, numFields: nat)
    requires objectSize < 0x1_0000
    ensures Word(BlankVtable(objectSize, numFields), 2) == objectSize
  {
    var vt := BlankVtable(objectSize, numFields);
    assert vt[2..4] == LittleEndian(objectSize, 2);
    Pow256Values();
    LittleEndianRoundTrip(objectSize, 2);
  }

  lemma BlankVtableSize(objectSize: nat, numFields: nat)
    requires numFields <= 32765
    ensures Word(BlankVtable(objectSize, numFields), 0) == 4 + 2 * numFields
  {
    var vt := BlankVtable(objectSize, numFields);
    assert vt[0..2] == LittleEndian(FieldIndexToOffset(numFields), 2);
    Pow256Values();
    LittleEndianRoundTrip(FieldIndexToOffset(numFields), 2);
  }

  // ---------------------------------------------------------------- the vtable list

  ghost predicate WellFormedVtable(data: seq<Byte>, it: nat) {
    && 4 <= it <= |data| && it % 2 == 0
    && 4 <= ReadScalar(data, it, 2) <= it
  }

  function VtableBytes(data: seq<Byte>, it: nat): seq<Byte>
    requires 2 <= it <= |data| && ReadScalar(data, it, 2) <= it
  {
    Slice(data, it, ReadScalar(data, it, 2))
  }

  /** Every remembered vtable lies whole in the buffer, and no two have the same bytes. */
  ghost predicate VtablesOk(data: seq<Byte>, vtables: seq<nat>) {
    && (forall i :: 0 <= i < |vtables| ==> WellFormedVtable(data, vtables[i]))
    && (forall i, j :: 0 <= i < j < |vtables| ==> VtableBytes(data, vtables[i]) != VtableBytes(data, vtables[j]))
  }

  lemma VtablesExtend(d': seq<Byte>, d: seq<Byte>, vtables: seq<nat>)
    requires Extends(d', d) && VtablesOk(d, vtables)
    ensures VtablesOk(d', vtables)
    ensures forall i :: 0 <= i < |vtables| ==> VtableBytes(d', vtables[i]) == VtableBytes(d, vtables[i])
  {
    ExtendsSlices(d', d);
  }

  /** The word that EndTable patches is the only one it changes. */
  lemma PatchedObject(b: Builder, d: int)
    ensures |PushElement(b, 0, 4).data| >= |b.data| + 4
    ensures Extends(Patch(PushElement(b, 0, 4).data, 0, LittleEndian(ToUnsigned32(d), 4)), b.data)
  {
    var b1 := PushElement(b, 0, 4);
    assert b1.data == LittleEndian(0, 4) + (Zeros(PaddingBytes(|b.data|, 4)) + b.data);
  }

  lemma PatchedWord(pre: seq<Byte>, s: seq<Byte>, d: int)
    requires |s| >= 4 && -TWO31 <= d < TWO31
    ensures var data := pre + Patch(s, 0, LittleEndian(ToUnsigned32(d), 4));
            ReadSigned32(data, |s|) == d
  {
    var w := LittleEndian(ToUnsigned32(d), 4);
    var data := pre + Patch(s, 0, w);
    assert Slice(data, |s|, 4) == w;
    Pow256Values();
    LittleEndianRoundTrip(ToUnsigned32(d), 4);
    Signed32RoundTrip(d);
  }

  /** A vtable found in the buffer gives the slots their meaning. */
  lemma SlotReads(data: seq<Byte>, t: int, vt: seq<Byte>, id: nat)
    requires 4 <= t <= |data| && VtableOf(data, t) >= 0 && MatchAt(data, VtableOf(data, t), vt)
    requires |vt| >= 4 && |vt| % 2 == 0 && Word(vt, 0) == |vt| && id % 2 == 0
    ensures TableReadable(data, t)
    ensures GetOptionalFieldOffset(data, t, id) == if id < |vt| then Word(vt, id) else 0
  {
    var use := VtableOf(data, t);
    hide FromLittleEndian, VtableOf, ReadSigned32;
    SlicePart(data, use, |vt|, 0, 2);
    if id < |vt| {
      SlotInside(id, |vt|);
      SlicePart(data, use, |vt|, id, 2);
    }
  }

  lemma SlotInside(id: nat, size: nat)
    requires id % 2 == 0 && size % 2 == 0 && id < size
    ensures id + 2 <= size
  {
  }

  /** A finished table maps every slot to its field, or to 0 when the field was left out. */
  ghost predicate TableMaps(data: seq<Byte>, t: int, fields: seq<FieldLoc>) {
    && TableReadable(data, t)
    && forall id: nat | id % 2 == 0 && 4 <= id ::
         GetOptionalFieldOffset(data, t, id) == if Find(fields, id).Some? then t - Find(fields, id).value else 0
  }

  /** The vtable of the table at t states its own size and that of the object. */
  ghost predicate Header(data: seq<Byte>, t: int, vtableSize: nat, objectSize: nat) {
    && TableReadable(data, t)
    && var vt := VtableOf(data, t);
    && vt >= 4 && ReadScalar(data, vt, 2) == vtableSize && ReadScalar(data, vt - 2, 2) == objectSize
  }

  lemma HeaderReads(data: seq<Byte>, t: int, vt: seq<Byte>)
    requires 4 <= t <= |data| && VtableOf(data, t) >= 0 && MatchAt(data, VtableOf(data, t), vt)
    requires |vt| >= 4 && |vt| % 2 == 0 && Word(vt, 0) == |vt|
    ensures Header(data, t, |vt|, Word(vt, 2))
  {
    var use := VtableOf(data, t);
    hide FromLittleEndian, VtableOf, ReadSigned32;
    SlicePart(data, use, |vt|, 0, 2);
    SlicePart(data, use, |vt|, 2, 2);
  }

  lemma HeaderExtends(d': seq<Byte>, d: seq<Byte>, t: int, vtableSize: nat, objectSize: nat)
    requires Extends(d', d) && Header(d, t, vtableSize, objectSize)
    ensures Header(d', t, vtableSize, objectSize)
  {
    ExtendsSlices(d', d);
    hide FromLittleEndian;
  }

  /** Where EndTable puts the object. */
  function ObjectLoc(b: Builder): nat {
    |b.data| + PaddingBytes(|b.data|, 4) + 4
  }

  ghost predicate EndTableOk(b: Builder, start: nat, numFields: nat) {
    && start <= |b.data|
    && numFields <= 32765
    && var loc := ObjectLoc(b);
    && loc - start < 0x1_0000
    && loc + 4 + 2 * numFields < TWO31
    && ValidSlots(b.fields, loc, 4 + 2 * numFields)
  }

  function FreshVtable(b: Builder, start: nat, numFields: nat): (vt: seq<Byte>)
    requires start <= |b.data|
    requires SlotsFit(b.fields, ObjectLoc(b), 4 + 2 * numFields)
  {
    var loc := ObjectLoc(b);
    FillOffsets(BlankVtable(loc - start, numFields), b.fields, loc)
  }

  lemma FreshVtableReads(b: Builder, start: nat, numFields: nat, id: nat)
    requires EndTableOk(b, start, numFields)
    requires id % 2 == 0 && 4 <= id
    ensures SlotsFit(b.fields, ObjectLoc(b), 4 + 2 * numFields)
    ensures var vt := FreshVtable(b, start, numFields);
            var loc := ObjectLoc(b);
            && |vt| == 4 + 2 * numFields && Word(vt, 0) == |vt|
            && (if id < |vt| then Word(vt, id) else 0)
               == (if Find(b.fields, id).Some? then loc - Find(b.fields, id).value else 0)
  {
    var loc := ObjectLoc(b);
    var blank := BlankVtable(loc - start, numFields);
    FillOffsetsReads(blank, b.fields, loc, 0);
    FindBelow(b.fields, loc, |blank|, 0);
    FindBelow(b.fields, loc, |blank|, id);
    BlankVtableSize(loc - start, numFields);
    if id < |blank| {
      FillOffsetsReads(blank, b.fields, loc, id);
      BlankVtableReads(loc - start, numFields, id);
    }
  }

  lemma FreshVtableHeader(b: Builder, start: nat, numFields: nat)
    requires EndTableOk(b, start, numFields)
    ensures SlotsFit(b.fields, ObjectLoc(b), 4 + 2 * numFields)
    ensures Word(FreshVtable(b, start, numFields), 2) == ObjectLoc(b) - start
  {
    var loc := ObjectLoc(b);
    var blank := BlankVtable(loc - start, numFields);
    FillOffsetsReads(blank, b.fields, loc, 2);
    FindBelow(b.fields, loc, |blank|, 2);
    BlankObjectSize(loc - start, numFields);
  }

  /** EndTable leaves the buffer grown, its object pointing at a vtable with the right slots
      (shared or fresh) and the right sizes, and the vtable list distinct and whole. */
  lemma EndTableReads(b: Builder, start: nat, numFields: nat)
    requires EndTableOk(b, start, numFields) && VtablesOk(b.data, b.vtables)
    ensures SlotsFit(b.fields, |b.data| + PaddingBytes(|b.data|, 4) + 4, 4 + 2 * numFields)
    ensures var (r, loc) := EndTable(b, start, numFields);
            && Extends(r.data, b.data)
            && |b.data| < loc <= |r.data| < TWO31 && Aligned(loc, 4)
            && r.fields == [] && r.force == b.force
            && TableMaps(r.data, loc, b.fields)
            && VtablesOk(r.data, r.vtables)
            && b.vtables <= r.vtables
            && VtableOf(r.data, loc) in r.vtables
            && Header(r.data, loc, 4 + 2 * numFields, loc - start)
  {
    hide PaddingBytes, BitAnd, LittleEndian, FromLittleEndian, VtablesOk, Find, Word, TableMaps, Header;
    FreshVtableReads(b, start, numFields, 4);
    PushElementGrows(b, 0, 4);
    EndTableInstalls(b, start, numFields);
    EndTableHeader(b, start, numFields);
    var (r, loc) := EndTable(b, start, numFields);
    InstalledMaps(b, PushElement(b, 0, 4), start, numFields, r.data);
  }

  lemma EndTableHeader(b: Builder, start: nat, numFields: nat)
    requires EndTableOk(b, start, numFields) && VtablesOk(b.data, b.vtables)
    ensures SlotsFit(b.fields, ObjectLoc(b), 4 + 2 * numFields)
    ensures var (r, loc) := EndTable(b, start, numFields); Header(r.data, loc, 4 + 2 * numFields, loc - start)
  {
    hide PaddingBytes, BitAnd, LittleEndian, FromLittleEndian, VtablesOk, Find, Word, MatchAt, FillOffsets, BlankVtable,
         Header, Patch, ToUnsigned32, VtableOf, Extends, FreshVtable;
    FreshVtableReads(b, start, numFields, 4);
    FreshVtableHeader(b, start, numFields);
    EndTableInstalls(b, start, numFields);
    HeaderReads(EndTable(b, start, numFields).0.data, ObjectLoc(b), FreshVtable(b, start, numFields));
  }

  lemma EndTableInstalls(b: Builder, start: nat, numFields: nat)
    requires EndTableOk(b, start, numFields) && VtablesOk(b.data, b.vtables)
    requires SlotsFit(b.fields, ObjectLoc(b), 4 + 2 * numFields)
    ensures var b1 := PushElement(b, 0, 4);
            && |b1.data| == ObjectLoc(b) && Aligned(|b1.data|, 4)
            && Installed(b, b1, FreshVtable(b, start, numFields), EndTable(b, start, numFields).0)
  {
    hide PaddingBytes, BitAnd, LittleEndian, FromLittleEndian, VtablesOk, Find, Word, Installed, Patch, MatchAt,
         ToUnsigned32, BlankVtable, FillOffsets;
    FreshVtableReads(b, start, numFields, 4);
    PushElementGrows(b, 0, 4);
    PushElementReads(b, 0, 4);
    var b1 := PushElement(b, 0, 4);
    var vt := FreshVtable(b, start, numFields);
    var (r, _) := EndTable(b, start, numFields);
    var k := FindVtable(b1.data, b.vtables, vt);
    if k < |b.vtables| {
      SharedInstalled(b, b1, vt, b.vtables[k], r);
    } else {
      FreshInstalled(b, b1, vt, r);
    }
  }

  lemma InstalledMaps(b: Builder, b1: Builder, start: nat, numFields: nat, data: seq<Byte>)
    requires EndTableOk(b, start, numFields) && SlotsFit(b.fields, ObjectLoc(b), 4 + 2 * numFields)
    requires |b1.data| == ObjectLoc(b) && 4 <= |b1.data| <= |data|
    requires 0 <= VtableOf(data, |b1.data|)
    requires MatchAt(data, VtableOf(data, |b1.data|), FreshVtable(b, start, numFields))
    ensures TableMaps(data, |b1.data|, b.fields)
  {
    hide PaddingBytes, BitAnd, LittleEndian, FromLittleEndian, VtableOf, MatchAt, FillOffsets;
    var vt := FreshVtable(b, start, numFields);
    FreshVtableReads(b, start, numFields, 4);
    SlotReads(data, |b1.data|, vt, 0);
    forall id: nat | id % 2 == 0 && 4 <= id
      ensures GetOptionalFieldOffset(data, |b1.data|, id)
              == if Find(b.fields, id).Some? then |b1.data| - Find(b.fields, id).value else 0
    {
      SlotReads(data, |b1.data|, vt, id);
      FreshVtableReads(b, start, numFields, id);
    }
  }

  ghost predicate Installed(b: Builder, b1: Builder, vt: seq<Byte>, r: Builder) {
    && Extends(r.data, b.data)
    && 4 <= |b1.data| <= |r.data| && b.vtables <= r.vtables
    && 0 <= VtableOf(r.data, |b1.data|) && MatchAt(r.data, VtableOf(r.data, |b1.data|), vt)
    && VtableOf(r.data, |b1.data|) in r.vtables
    && VtablesOk(r.data, r.vtables)
  }

  ghost predicate ReadyToInstall(b: Builder, b1: Builder, vt: seq<Byte>) {
    && b1 == PushElement(b, 0, 4)
    && VtablesOk(b.data, b.vtables) && |b1.data| + |vt| < TWO31
    && |vt| >= 4 && |vt| % 2 == 0 && Word(vt, 0) == |vt|
    && |b1.data| % 4 == 0
  }

  lemma SharedInstalled(b: Builder, b1: Builder, vt: seq<Byte>, use: nat, r: Builder)
    requires ReadyToInstall(b, b1, vt)
    requires use in b.vtables && MatchAt(b1.data, use, vt)
    requires |b1.data| >= 4
    requires r == b1.(data := Patch(b1.data, 0, LittleEndian(ToUnsigned32(use - |b1.data|), 4)), fields := [])
    ensures Installed(b, b1, vt, r)
  {
    assert WellFormedVtable(b.data, use);
    hide PaddingBytes, BitAnd, LittleEndian, FromLittleEndian, VtablesOk, Word, Patch, ToUnsigned32, Extends,
         MatchAt, WellFormedVtable;
    SharedData(b, b1, use, r.data);
    assert r.vtables == b.vtables;
    hide PushElement;
    VtablesExtend(r.data, b.data, b.vtables);
    SharedVtableMatches(b, b1, r, use, vt);
  }

  lemma SharedData(b: Builder, b1: Builder, use: nat, data: seq<Byte>)
    requires b1 == PushElement(b, 0, 4) && 4 <= |b1.data| < TWO31 && use < TWO31
    requires data == Patch(b1.data, 0, LittleEndian(ToUnsigned32(use - |b1.data|), 4))
    ensures Extends(data, b.data) && Extends(b1.data, b.data)
    ensures |data| == |b1.data| && VtableOf(data, |b1.data|) == use
  {
    hide PaddingBytes, BitAnd, LittleEndian, FromLittleEndian;
    var d := use - |b1.data|;
    PushElementGrows(b, 0, 4);
    PatchedObject(b, d);
    PatchedAlone(b1.data, d);
    assert |data| == |b1.data|;
    hide Patch, ToUnsigned32, PushElement, Extends, ReadSigned32, Slice;
  }

  lemma PatchedAlone(s: seq<Byte>, d: int)
    requires |s| >= 4 && -TWO31 <= d < TWO31
    ensures ReadSigned32(Patch(s, 0, LittleEndian(ToUnsigned32(d), 4)), |s|) == d
  {
    PatchedWord([], s, d);
    var data := Patch(s, 0, LittleEndian(ToUnsigned32(d), 4));
    assert [] + data == data;
    hide *;
  }

  lemma FreshInstalled(b: Builder, b1: Builder, vt: seq<Byte>, r: Builder)
    requires ReadyToInstall(b, b1, vt)
    requires forall i :: 0 <= i < |b.vtables| ==> !MatchAt(b1.data, b.vtables[i], vt)
    requires |b1.data| >= 4
    requires r == b1.(data := vt + Patch(b1.data, 0, LittleEndian(ToUnsigned32(|vt|), 4)),
                      fields := [], vtables := b1.vtables + [|b1.data| + |vt|])
    ensures Installed(b, b1, vt, r)
  {
    hide PaddingBytes, BitAnd, LittleEndian, FromLittleEndian, VtablesOk, Word, Patch, ToUnsigned32, Extends, MatchAt;
    FreshData(b, b1, vt, r.data);
    assert r.vtables == b.vtables + [|r.data|];
    EvenSum(|b1.data|, |vt|);
    hide PushElement;
    NewVtableDistinct(b, b1, vt, r);
  }

  lemma EvenSum(a: nat, b: nat)
    requires a % 4 == 0 && b % 2 == 0
    ensures (a + b) % 2 == 0
  {
    ModUnique(a + b, 2, 2 * (a / 4) + b / 2, 0);
  }

  lemma FreshData(b: Builder, b1: Builder, vt: seq<Byte>, data: seq<Byte>)
    requires b1 == PushElement(b, 0, 4) && |b1.data| >= 4 && |b1.data| + |vt| < TWO31 && |vt| >= 4
    requires data == vt + Patch(b1.data, 0, LittleEndian(ToUnsigned32(|vt|), 4))
    ensures Extends(data, b.data) && Extends(b1.data, b.data)
    ensures |data| == |b1.data| + |vt| && VtableOf(data, |b1.data|) == |data|
    ensures MatchAt(data, |data|, vt)
  {
    hide PaddingBytes, BitAnd, LittleEndian, FromLittleEndian, Word;
    PushElementGrows(b, 0, 4);
    PatchedWord(vt, b1.data, |vt|);
    PatchedObject(b, |vt|);
    var patched := Patch(b1.data, 0, LittleEndian(ToUnsigned32(|vt|), 4));
    ExtendsPrefix(vt, patched);
    ExtendsTransitive(data, patched, b.data);
    assert Slice(data, |data|, |vt|) == vt;
  }

  /** An earlier vtable with the bytes of vt lies below the new object, so sharing it keeps it whole. */
  lemma SharedVtableMatches(b: Builder, b1: Builder, r: Builder, use: nat, vt: seq<Byte>)
    requires WellFormedVtable(b.data, use) && MatchAt(b1.data, use, vt)
    requires |vt| >= 4
    requires Extends(b1.data, b.data) && Extends(r.data, b.data)
    ensures MatchAt(r.data, use, vt)
  {
    ExtendsSlices(b1.data, b.data);
    ExtendsSlices(r.data, b.data);
  }

  /** A vtable that matched no earlier one differs from all of them. */
  lemma NewVtableDistinct(b: Builder, b1: Builder, vt: seq<Byte>, r: Builder)
    requires VtablesOk(b.data, b.vtables) && Extends(b1.data, b.data)
    requires forall i :: 0 <= i < |b.vtables| ==> !MatchAt(b1.data, b.vtables[i], vt)
    requires |vt| >= 4 && Word(vt, 0) == |vt|
    requires Extends(r.data, b.data) && MatchAt(r.data, |r.data|, vt) && |r.data| >= 4 && |r.data| % 2 == 0
    requires r.vtables == b.vtables + [|r.data|]
    ensures VtablesOk(r.data, r.vtables)
  {
    VtablesExtend(r.data, b.data, b.vtables);
    VtablesExtend(b1.data, b.data, b.vtables);
    var use := |r.data|;
    SlicePart(r.data, use, |vt|, 0, 2);
    assert VtableBytes(r.data, use) == vt;
    forall i | 0 <= i < |b.vtables|
      ensures VtableBytes(r.data, r.vtables[i]) != vt
    {
      assert r.vtables[i] == b.vtables[i];
      assert !MatchAt(b1.data, b.vtables[i], vt);
      assert VtableBytes(b1.data, b.vtables[i]) == VtableBytes(r.data, b.vtables[i]);
    }
  }

  // ---------------------------------------------------------------- the round trip

  ghost predicate Valid(b: Builder) {
    && VtablesOk(b.data, b.vtables)
    && IsPow2(b.minalign)
  }

  /** What the source asks of one table: slots used at most once, all inside the vtable, an
      object below 64 KiB and a buffer below 2 GiB. */
  ghost predicate TableInput(b: Builder, ops: seq<FieldOp>, numFields: nat) {
    && b.fields == []
    && ValidOps(ops, |b.data|) && DistinctIds(ops)
    && numFields <= 32765
    && SlotIds(ops, 4 + 2 * numFields)
    && var loc := ObjectLoc(AddFields(b, ops));
    && loc - |b.data| < 0x1_0000
    && loc + 4 + 2 * numFields < TWO31
  }

  /** Fields with different ids are recorded under different ids. */
  lemma {:induction false} FieldsDistinct(b: Builder, ops: seq<FieldOp>)
    requires b.fields == [] && ValidOps(ops, |b.data|) && DistinctIds(ops)
    ensures DistinctFields(AddFields(b, ops).fields)
    ensures forall j :: 0 <= j < |AddFields(b, ops).fields| ==> !Unused(ops, AddFields(b, ops).fields[j].id)
    decreases |ops|
  {
    if |ops| > 0 {
      hide PaddingBytes, Find;
      var front, op := ops[..|ops| - 1], ops[|ops| - 1];
      var a := AddFields(b, front);
      assert ValidOp(op, |b.data|);
      ApplyFrame(a, op);
      FieldsDistinct(b, front);
      assert Unused(front, op.id);
      var r := AddFields(b, ops);
      forall j | 0 <= j < |r.fields|
        ensures !Unused(ops, r.fields[j].id)
      {
        if j < |a.fields| {
          var i :| 0 <= i < |front| && front[i].id == a.fields[j].id;
          assert ops[i].id == r.fields[j].id;
        } else {
          assert ops[|ops| - 1].id == r.fields[j].id;
        }
      }
    }
  }

  lemma TableInputEndOk(b: Builder, ops: seq<FieldOp>, numFields: nat)
    requires TableInput(b, ops, numFields)
    ensures var a := AddFields(b, ops);
            LaidOut(b, a, ops, 4 + 2 * numFields) && EndTableOk(a, |b.data|, numFields)
  {
    hide PaddingBytes, BitAnd;
    var a := AddFields(b, ops);
    hide AddFields, AllRecorded, Extends, ValidOps, DistinctIds, SlotIds;
    assert |a.data| < TWO31 && |b.data| <= |a.data|;
    FieldsLaidOut(b, ops, 4 + 2 * numFields);
    InsideSlots(a.fields, |b.data|, |a.data|, ObjectLoc(a), 4 + 2 * numFields);
  }

  lemma InsideSlots(fields: seq<FieldLoc>, lo: nat, hi: nat, loc: nat, size: nat)
    requires FieldsInside(fields, lo, hi, size) && hi < loc && loc - lo < 0x1_0000
    ensures ValidSlots(fields, loc, size)
  {
  }

  /** Reading the field an operation stands for gives what the operation was given. */
  ghost predicate ReadsBack(data: seq<Byte>, t: int, op: FieldOp) {
    match op
    case ScalarField(id, n, v, d) => FieldReadable(data, t, id, n) && GetField(data, t, id, n, d) == v
    case RefField(id, target) =>
      && FieldReadable(data, t, id, 4)
      && GetPointer(data, t, id) == if target == 0 then None else Some(target)
    case StructField(id, _, s) =>
      && TableReadable(data, t) && id % 2 == 0
      && match s {
           case None => GetStruct(data, t, id) == None
           case Some(bytes) =>
             var p := GetStruct(data, t, id);
             p.Some? && |bytes| <= p.value <= |data| && Slice(data, p.value, |bytes|) == bytes
         }
  }

  lemma TableSlotsFit(b: Builder, ops: seq<FieldOp>, numFields: nat)
    requires TableInput(b, ops, numFields)
    ensures var a := AddFields(b, ops);
            SlotsFit(a.fields, |a.data| + PaddingBytes(|a.data|, 4) + 4, 4 + 2 * numFields)
  {
    hide PaddingBytes;
    TableInputEndOk(b, ops, numFields);
  }

  /** A whole table: the builder after it, and the table's offset. */
  function MakeTable(b: Builder, ops: seq<FieldOp>, numFields: nat): (r: (Builder, nat))
    requires TableInput(b, ops, numFields)
  {
    TableSlotsFit(b, ops, numFields);
    BuildTable(b, ops, numFields)
  }

  /** The whole table reads back: every operation's value, or the default (null) of a field left
      out, and nothing in the slots no operation named. */
  ghost predicate TableReadsBack(data: seq<Byte>, t: int, ops: seq<FieldOp>) {
    && TableReadable(data, t)
    && (forall i :: 0 <= i < |ops| ==> ReadsBack(data, t, ops[i]))
    && (forall id: nat | 4 <= id && id % 2 == 0 && Unused(ops, id) ::
          GetOptionalFieldOffset(data, t, id) == 0)
  }

  lemma {:induction false} FindInside(fields: seq<FieldLoc>, lo: nat, hi: nat, size: nat, id: nat)
    requires FieldsInside(fields, lo, hi, size) && Find(fields, id).Some?
    ensures lo < Find(fields, id).value <= hi
    decreases |fields|
  {
    if fields[|fields| - 1].id != id {
      FindInside(fields[..|fields| - 1], lo, hi, size, id);
    }
  }

  /** After the field calls an operation's field is where reading expects it. */
  lemma OpReady(b: Builder, ops: seq<FieldOp>, numFields: nat, i: nat)
    requires TableInput(b, ops, numFields) && i < |ops|
    ensures var a := AddFields(b, ops);
            && Recorded(a, ops[i])
            && (Written(a.force, ops[i]) ==> Find(a.fields, ops[i].id).value > 0)
    ensures 4 <= ops[i].id && ops[i].id % 2 == 0
  {
    TableInputEndOk(b, ops, numFields);
    var a := AddFields(b, ops);
    assert SlotId(ops[i].id, 4 + 2 * numFields);
    hide PaddingBytes, AddFields, Holds, Find, Written, EndTableOk, Extends;
    assert Recorded(a, ops[i]);
    if Written(a.force, ops[i]) {
      FindInside(a.fields, |b.data|, |a.data|, 4 + 2 * numFields, ops[i].id);
    }
  }

  lemma UnusedNone(b: Builder, a: Builder, ops: seq<FieldOp>, numFields: nat)
    requires LaidOut(b, a, ops, 4 + 2 * numFields)
    ensures forall id :: Unused(ops, id) ==> Find(a.fields, id) == None
  {
    hide Find, Recorded, Unused;
  }

  /** A finished table reads back, however much the buffer grows afterwards and whether or not its
      vtable was shared with an earlier table. */
  lemma TableRoundTrip(b: Builder, ops: seq<FieldOp>, numFields: nat, data: seq<Byte>)
    requires Valid(b) && TableInput(b, ops, numFields)
    requires Extends(data, MakeTable(b, ops, numFields).0.data)
    ensures Extends(data, b.data)
    ensures |b.data| < MakeTable(b, ops, numFields).1 <= |data|
    ensures TableReadsBack(data, MakeTable(b, ops, numFields).1, ops)
    ensures var t := MakeTable(b, ops, numFields).1; Header(data, t, 4 + 2 * numFields, t - |b.data|)
  {
    hide *;
    TableFieldsRead(b, ops, numFields, data);
    TableSizesRead(b, ops, numFields, data);
  }

  lemma TableFieldsRead(b: Builder, ops: seq<FieldOp>, numFields: nat, data: seq<Byte>)
    requires Valid(b) && TableInput(b, ops, numFields)
    requires Extends(data, MakeTable(b, ops, numFields).0.data)
    ensures Extends(data, b.data)
    ensures |b.data| < MakeTable(b, ops, numFields).1 <= |data|
    ensures TableReadsBack(data, MakeTable(b, ops, numFields).1, ops)
  {
    hide PaddingBytes, BitAnd, LittleEndian, FromLittleEndian, VtablesOk, FillOffsets, ReadsBack, Header;
    var a := AddFields(b, ops);
    TableInputEndOk(b, ops, numFields);
    hide AddFields, AllRecorded, Find, Recorded, Written, EndTableOk;
    VtablesExtend(a.data, b.data, b.vtables);
    EndTableReads(a, |b.data|, numFields);
    var (r, t) := MakeTable(b, ops, numFields);
    UnusedNone(b, a, ops, numFields);
    hide EndTable;
    ExtendsTransitive(data, r.data, a.data);
    ExtendsTransitive(data, a.data, b.data);
    TableMapsExtends(data, r.data, t, a.fields);
    forall i | 0 <= i < |ops|
      ensures ReadsBack(data, t, ops[i])
    {
      OpReady(b, ops, numFields, i);
      FieldReadsBack(data, t, a, ops[i]);
    }
  }

  /** The sizes in a table's vtable, in any later buffer. */
  lemma TableSizesRead(b: Builder, ops: seq<FieldOp>, numFields: nat, data: seq<Byte>)
    requires Valid(b) && TableInput(b, ops, numFields)
    requires Extends(data, MakeTable(b, ops, numFields).0.data)
    ensures var t := MakeTable(b, ops, numFields).1; t > |b.data| && Header(data, t, 4 + 2 * numFields, t - |b.data|)
  {
    hide PaddingBytes, LittleEndian, FromLittleEndian, VtablesOk, FillOffsets, AddFields, IsPow2, Header, EndTable,
         TableMaps;
    var a := AddFields(b, ops);
    TableInputEndOk(b, ops, numFields);
    VtablesExtend(a.data, b.data, b.vtables);
    EndTableReads(a, |b.data|, numFields);
    var (r, t) := MakeTable(b, ops, numFields);
    HeaderExtends(data, r.data, t, 4 + 2 * numFields, t - |b.data|);
  }

  lemma TableMapsExtends(d': seq<Byte>, d: seq<Byte>, t: int, fields: seq<FieldLoc>)
    requires Extends(d', d) && TableMaps(d, t, fields)
    ensures TableMaps(d', t, fields)
  {
    ExtendsSlices(d', d);
  }

  /** A written field, read at its place. */
  lemma WrittenReadsBack(data: seq<Byte>, t: int, op: FieldOp, off: nat)
    requires TableReadable(data, t) && 4 <= op.id && op.id % 2 == 0
    requires Holds(data, off, op) && 0 < off < t
    requires GetOptionalFieldOffset(data, t, op.id) == t - off
    requires op.RefField? ==> op.target != 0
    ensures ReadsBack(data, t, op)
  {
    hide FromLittleEndian, GetOptionalFieldOffset, VtableOf, TableReadable, Slice;
  }

  /** A field left out. */
  lemma OmittedReadsBack(data: seq<Byte>, t: int, op: FieldOp, force: bool)
    requires TableReadable(data, t) && 4 <= op.id && op.id % 2 == 0
    requires !Written(force, op) && GetOptionalFieldOffset(data, t, op.id) == 0
    ensures ReadsBack(data, t, op)
  {
    hide FromLittleEndian, GetOptionalFieldOffset, VtableOf, TableReadable, Slice, ReadScalar;
  }

  lemma HeldInside(data: seq<Byte>, off: nat, op: FieldOp)
    requires Holds(data, off, op)
    ensures off <= |data|
  {
  }

  lemma FieldReadsBack(data: seq<Byte>, t: int, a: Builder, op: FieldOp)
    requires Extends(data, a.data) && TableMaps(data, t, a.fields)
    requires |a.data| < t
    requires 4 <= op.id && op.id % 2 == 0
    requires Recorded(a, op) && (Written(a.force, op) ==> Find(a.fields, op.id).value > 0)
    ensures ReadsBack(data, t, op)
  {
    hide Find, GetOptionalFieldOffset, VtableOf, Holds, ReadsBack, TableReadable, Extends;
    if Written(a.force, op) {
      var off := Find(a.fields, op.id).value;
      HeldInside(a.data, off, op);
      HoldsExtends(data, a.data, off, op);
      WrittenReadsBack(data, t, op, off);
    } else {
      OmittedReadsBack(data, t, op, a.force);
    }
  }
}
