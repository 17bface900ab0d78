/** The builder as it runs: buffer, offset list and vtable list updated in place, each call proved
    against the function that says what it leaves behind. */
module FlatBufferBuilder {
  import opened Bytes
  import opened Wrappers
  import opened FlatReader
  import opened FlatSpec
  import opened FlatTables
  import VD = VectorDownward

  class FlatBufferBuilder {
    const vec: VD.VectorDownward
    var fields: seq<FieldLoc>
    var vtables: seq<nat>
    var minalign: nat
    var forceDefaults: bool

    ghost predicate Valid()
      reads this, vec
    {
      vec.Valid()
    }

    ghost function State(): Builder
      requires Valid()
      reads this, vec, vec.buf
    {
      Builder(vec.Contents(), fields, vtables, minalign, forceDefaults)
    }

    /** The buffer stays the builder's own: kept, or replaced by a fresh one. */
    twostate predicate Owned()
      reads this, vec
    {
      Valid() && (vec.buf == old(vec.buf) || fresh(vec.buf))
    }

    constructor (initialSize: nat)
      requires initialSize % 8 == 0
      ensures Valid() && fresh(vec) && fresh(vec.buf)
      ensures State() == Builder([], [], [], 1, false)
    {
      vec := new VD.VectorDownward(initialSize);
      fields, vtables, minalign, forceDefaults := [], [], 1, false;
    }

    /** Makes the builder ready for another buffer; the alignment reached and the force flag stay. */
    method Clear()
      requires Valid()
      modifies this`fields, this`vtables, vec`cur
      ensures Valid() && State() == Cleared(old(State()))
      ensures State() == Builder([], [], [], old(minalign), old(forceDefaults))
    {
      vec.Clear();
      fields, vtables := [], [];
    }

    method ForceDefaults(fd: bool)
      requires Valid()
      modifies this`forceDefaults
      ensures State() == old(State()).(force := fd)
    {
      forceDefaults := fd;
    }

    method Align(elemSize: nat)
      requires Valid() && elemSize >= 1
      requires |FlatSpec.Align(State(), elemSize).data| < VD.MAX_SIZE
      modifies this, vec, vec.buf
      ensures Owned() && State() == FlatSpec.Align(old(State()), elemSize)
    {
      hide FlatSpec.PaddingBytes;
      if elemSize > minalign {
        minalign := elemSize;
      }
      vec.Fill(PaddingBytes(vec.Size(), elemSize));
    }

    method PushElement(element: nat, size: nat) returns (off: nat)
      requires Valid() && size >= 1
      requires |FlatSpec.PushElement(State(), element, size).data| < VD.MAX_SIZE
      modifies this, vec, vec.buf
      ensures Owned() && State() == FlatSpec.PushElement(old(State()), element, size)
      ensures off == |State().data|
    {
      hide FlatSpec.PaddingBytes, LittleEndian;
      Align(size);
      vec.Push(LittleEndian(element, size));
      off := vec.Size();
    }

    method TrackField(field: nat, off: nat)
      requires Valid()
      modifies this`fields
      ensures State() == old(State()).(fields := old(fields) + [FieldLoc(field, off)])
    {
      fields := fields + [FieldLoc(field, off)];
    }

    method AddElement(field: nat, e: nat, def: nat, size: nat)
      requires Valid() && size >= 1
      requires |FlatSpec.AddElement(State(), field, size, e, def).data| < VD.MAX_SIZE
      modifies this, vec, vec.buf
      ensures Owned() && State() == FlatSpec.AddElement(old(State()), field, size, e, def)
    {
      if e == def && !forceDefaults {
        return;
      }
      var off := PushElement(e, size);
      TrackField(field, off);
    }

    method ReferTo(off: nat) returns (distance: nat)
      requires Valid() && off <= |State().data|
      requires |FlatSpec.Align(State(), 4).data| < VD.MAX_SIZE
      modifies this, vec, vec.buf
      ensures Owned() && State() == FlatSpec.Align(old(State()), 4)
      ensures off <= |State().data| && distance == Distance(State(), off)
    {
      Align(4);
      distance := vec.Size() - off + 4;
    }

    method AddOffset(field: nat, off: nat)
      requires Valid() && off <= |State().data|
      requires |FlatSpec.AddOffset(State(), field, off).data| < VD.MAX_SIZE
      modifies this, vec, vec.buf
      ensures Owned() && State() == FlatSpec.AddOffset(old(State()), field, off)
    {
      hide FlatSpec.PaddingBytes;
      if off == 0 {
        return;
      }
      var distance := ReferTo(off);
      AddElement(field, distance, 0, 4);
    }

    method AddStruct(field: nat, alignment: nat, bytes: Option<seq<Byte>>)
      requires Valid() && alignment >= 1
      requires |FlatSpec.AddStruct(State(), field, alignment, bytes).data| < VD.MAX_SIZE
      modifies this, vec, vec.buf
      ensures Owned() && State() == FlatSpec.AddStruct(old(State()), field, alignment, bytes)
    {
      hide FlatSpec.PaddingBytes;
      if bytes.None? {
        return;
      }
      Align(alignment);
      vec.Push(bytes.value);
      TrackField(field, vec.Size());
    }

    method StartTable() returns (start: nat)
      requires Valid() && fields == []
      ensures start == |State().data|
    {
      start := vec.Size();
    }

    // ---------------------------------------------------------------- EndTable

    /** Writes the field offsets into the fresh vtable; no slot is written twice. */
    method WriteOffsets(loc: nat, ghost blank: seq<Byte>, ghost rest: seq<Byte>)
      requires Valid() && State().data == blank + rest
      requires ValidSlots(fields, loc, |blank|) && SlotsFit(fields, loc, |blank|)
      requires DistinctFields(fields)
      requires forall id: nat {:trigger Word(blank, id)} | SlotId(id, |blank|) :: Word(blank, id) == 0
      modifies vec.buf
      ensures Valid() && State() == old(State()).(data := FillOffsets(blank, fields, loc) + rest)
    {
      FillNone(blank, fields, loc);
      hide LittleEndian, FromLittleEndian, Patch, FillOffsets;
      var i := 0;
      while i < |fields|
        invariant 0 <= i <= |fields|
        invariant ValidSlots(fields[..i], loc, |blank|) && SlotsFit(fields[..i], loc, |blank|)
        invariant vec.Contents() == FillOffsets(blank, fields[..i], loc) + rest
      {
        var field := fields[i];
        ghost var vt := FillOffsets(blank, fields[..i], loc);
        var at := vec.Size() - field.id;
        var taken := vec.ReadAt(at, 2);
        SlotStillBlank(blank, vt, rest, fields, i, loc);
        assert taken == 0;  // a field is set at most once
        vec.WriteAt(at, LittleEndian(loc - field.off, 2));
        PatchFront(vt, rest, field.id, LittleEndian(loc - field.off, 2));
        FillNext(blank, fields, i, loc);
        i := i + 1;
      }
      assert fields[..i] == fields;
    }

    /** Finishes a table: its vtable is written, shared with an equal earlier one if there is one,
        and the object's first word is pointed at it. */
    method EndTable(start: nat, numFields: nat) returns (loc: nat)
      requires Valid() && EndTableOk(State(), start, numFields)
      requires VtablesOk(State().data, vtables)
      requires DistinctFields(fields)
      modifies this, vec, vec.buf
      ensures Owned()
      ensures SlotsFit(old(fields), ObjectLoc(old(State())), 4 + 2 * numFields)
      ensures (State(), loc) == FlatSpec.EndTable(old(State()), start, numFields)
    {
      hide PaddingBytes, LittleEndian, FromLittleEndian, FlatSpec.EndTable, FillOffsets;
      ghost var b := State();
      FreshVtableReads(b, start, numFields, 4);
      PushElementGrows(b, 0, 4);
      loc := PushElement(0, 4);
      ghost var b1 := State();
      ghost var vt := FreshVtable(b, start, numFields);
      WriteVtable(start, loc, numFields, b);
      assert State() == b1.(data := vt + b1.data);
      fields := [];
      var k := FindEarlier(vt, b, b1);
      ChooseVtable(k, loc, vt, b1);
      EndTableCases(b, start, numFields, vt, k);
    }

    /** Pushes the fresh vtable in front of the object at loc. */
    method WriteVtable(start: nat, loc: nat, numFields: nat, ghost b: Builder)
      requires Valid() && EndTableOk(b, start, numFields) && fields == b.fields
      requires State() == FlatSpec.PushElement(b, 0, 4) && loc == |State().data| == ObjectLoc(b)
      requires DistinctFields(fields)
      modifies this, vec, vec.buf
      ensures Owned() && SlotsFit(b.fields, loc, 4 + 2 * numFields)
      ensures State() == old(State()).(data := FreshVtable(b, start, numFields) + old(State()).data)
    {
      hide LittleEndian, FromLittleEndian, FillOffsets, BlankVtable, FlatSpec.PushElement, Word, Find, DistinctFields;
      FreshVtableReads(b, start, numFields, 4);
      VtablePadding(b, loc, numFields);
      ghost var rest := vec.Contents();
      WriteBlank(loc - start, numFields);
      BlankSlots(loc - start, numFields);
      WriteOffsets(loc, BlankVtable(loc - start, numFields), rest);
    }

    method WriteBlank(objectSize: nat, numFields: nat)
      requires Valid() && |State().data| + 4 + 2 * numFields < VD.MAX_SIZE
      requires minalign >= 2 && Aligned(2 * numFields + |State().data|, 2)
      requires Aligned(2 + 2 * numFields + |State().data|, 2)
      modifies this, vec, vec.buf
      ensures Owned()
      ensures State() == old(State()).(data := BlankVtable(objectSize, numFields) + old(State()).data)
    {
      hide LittleEndian, FlatSpec.PushElement, Aligned;
      SmallPow2();
      ghost var rest := vec.Contents();
      vec.Fill(2 * numFields);
      PushElementUnpadded(State(), objectSize, 2);
      var _ := PushElement(objectSize, 2);
      PushElementUnpadded(State(), FieldIndexToOffset(numFields), 2);
      var _ := PushElement(FieldIndexToOffset(numFields), 2);
      Concatenate3(LittleEndian(FieldIndexToOffset(numFields), 2), LittleEndian(objectSize, 2), Zeros(2 * numFields),
                   rest);
    }

    /** Looks for an earlier vtable with the bytes of the one just written. */
    method FindEarlier(ghost vt: seq<Byte>, ghost b: Builder, ghost b1: Builder) returns (k: nat)
      requires Valid() && VtablesOk(b.data, vtables) && vtables == b1.vtables
      requires Extends(b1.data, b.data) && vec.Contents() == vt + b1.data
      requires |vt| >= 4 && Word(vt, 0) == |vt|
      ensures k == FindVtable(b1.data, vtables, vt)
    {
      hide LittleEndian, FromLittleEndian, MatchAt, FindVtable;
      ghost var data := vec.Contents();
      ExtendsPrefix(vt, b1.data);
      ExtendsTransitive(data, b1.data, b.data);
      assert Slice(data, |data|, |vt|) == vt;
      SlicePart(data, |data|, |vt|, 0, 2);
      var size := vec.ReadAt(vec.Size(), 2);
      k := 0;
      while k < |vtables|
        invariant 0 <= k <= |vtables|
        invariant forall i :: 0 <= i < k ==> !MatchAt(b1.data, vtables[i], vt)
      {
        VtableComparable(data, b1.data, b.data, vtables[k], vt);
        var eq := vec.EqualAt(vtables[k], vec.Size(), size);
        if eq {
          break;
        }
        k := k + 1;
      }
      FindVtableUnique(b1.data, vtables, vt, k);
    }

    /** Pops the fresh vtable when an earlier one serves, remembers it otherwise. */
    method KeepOrPop(k: nat, loc: nat, ghost vt: seq<Byte>, ghost b1: Builder) returns (use: nat)
      requires Valid() && fields == [] && k <= |vtables|
      requires State() == b1.(data := vt + b1.data, fields := []) && loc == |b1.data| >= 4
      requires |vt| >= 4
      requires forall i :: 0 <= i < |vtables| ==> vtables[i] < loc
      modifies this, vec
      ensures Valid() && vec.buf == old(vec.buf)
      ensures use == if k < |b1.vtables| then b1.vtables[k] else loc + |vt|
      ensures State() == b1.(data := (if k < |b1.vtables| then [] else vt) + b1.data, fields := [],
                             vtables := if k < |b1.vtables| then b1.vtables else b1.vtables + [loc + |vt|])
    {
      use := vec.Size();
      PopFront(vt, b1.data);
      if k < |vtables| {
        use := vtables[k];
        vec.Pop(vec.Size() - loc);
      }
      if use == vec.Size() {
        vtables := vtables + [use];
      }
    }

    /** Settles on the vtable to use and patches the object's first word. */
    method ChooseVtable(k: nat, loc: nat, ghost vt: seq<Byte>, ghost b1: Builder)
      requires Valid() && fields == [] && k <= |vtables|
      requires State() == b1.(data := vt + b1.data, fields := []) && loc == |b1.data| >= 4
      requires |vt| >= 4
      requires forall i :: 0 <= i < |vtables| ==> vtables[i] < loc
      modifies this, vec, vec.buf
      ensures Owned()
      ensures State() == AfterVtable(b1, vt, k)
    {
      hide LittleEndian, Patch, ToUnsigned32, AfterVtable;
      var use := KeepOrPop(k, loc, vt, b1);
      ghost var front := if k < |b1.vtables| then [] else vt;
      AfterVtableFront(b1, vt, k, use, front, vtables);
      PointAt(loc, use, front, b1.data);
    }

    /** Writes the signed distance from the object at loc to its vtable. */
    method PointAt(loc: nat, use: nat, ghost front: seq<Byte>, ghost body: seq<Byte>)
      requires Valid() && vec.Contents() == front + body && loc == |body| >= 4
      modifies vec.buf
      ensures Valid()
      ensures State() == old(State()).(data := front + Patch(body, 0, LittleEndian(ToUnsigned32(use - loc), 4)))
    {
      hide LittleEndian, Patch;
      PatchBack(front, body, LittleEndian(ToUnsigned32(use - loc), 4));
      vec.WriteAt(loc, LittleEndian(ToUnsigned32(use - loc), 4));
    }

    // ---------------------------------------------------------------- strings, vectors, finishing

    method PreAlign(len: nat, alignment: nat)
      requires Valid() && alignment >= 1
      requires |FlatSpec.PreAlign(State(), len, alignment).data| < VD.MAX_SIZE
      modifies this, vec, vec.buf
      ensures Owned() && State() == FlatSpec.PreAlign(old(State()), len, alignment)
    {
      hide FlatSpec.PaddingBytes;
      vec.Fill(PaddingBytes(vec.Size() + len, alignment));
    }

    method CreateString(str: seq<Byte>) returns (off: nat)
      requires Valid() && fields == []
      requires |FlatSpec.CreateString(State(), str).data| < VD.MAX_SIZE
      modifies this, vec, vec.buf
      ensures Owned() && State() == FlatSpec.CreateString(old(State()), str)
      ensures off == |State().data|
    {
      hide FlatSpec.PaddingBytes;
      PreAlign(|str| + 1, 4);
      vec.Fill(1);
      vec.Push(str);
      off := PushElement(|str|, 4);
    }

    method CreateVector(elems: seq<Elem>, size: nat) returns (off: nat)
      requires Valid() && fields == [] && size >= 1 && ValidElems(elems, |State().data|)
      requires |FlatSpec.CreateVector(State(), elems, size).data| < VD.MAX_SIZE
      modifies this, vec, vec.buf
      ensures Owned() && State() == FlatSpec.CreateVector(old(State()), elems, size)
      ensures off == |State().data|
    {
      hide FlatSpec.PaddingBytes, Stride, FlatSpec.PushElem, FlatSpec.PushElement;
      ghost var b := State();
      VectorSizes(b, elems, size);
      PreAlign(Stride(|elems|, size), 4);
      PreAlign(Stride(|elems|, size), size);
      ghost var s := State();
      var i := |elems|;
      assert elems[i..] == [];
      while i > 0
        invariant 0 <= i <= |elems|
        invariant Owned() && ValidElems(elems[i..], |s.data|)
        invariant State() == PushElems(s, elems[i..], size)
      {
        i := i - 1;
        assert elems[i..][1..] == elems[i + 1..] && elems[i..][0] == elems[i];
        ElemSizes(s, elems, size, i);
        PushElem(elems[i], size);
      }
      assert elems[0..] == elems;
      off := PushElement(|elems|, 4);
    }

    method PushElem(e: Elem, size: nat)
      requires Valid() && size >= 1 && (e.Target? ==> e.off <= |State().data|)
      requires |FlatSpec.PushElem(State(), e, size).data| < VD.MAX_SIZE
      modifies this, vec, vec.buf
      ensures Owned() && State() == FlatSpec.PushElem(old(State()), e, size)
    {
      hide FlatSpec.PaddingBytes;
      match e {
        case Value(v) =>
          var _ := PushElement(v, size);
        case Target(off) =>
          var distance := ReferTo(off);
          var _ := PushElement(distance, 4);
      }
    }

    method Finish(root: nat, ident: Option<seq<Byte>>)
      requires Valid() && root <= |State().data| && minalign >= 1
      requires ident.Some? ==> |ident.value| == 4
      requires |FlatSpec.Finish(State(), root, ident).data| < VD.MAX_SIZE
      modifies this, vec, vec.buf
      ensures Owned() && State() == FlatSpec.Finish(old(State()), root, ident)
    {
      hide FlatSpec.PaddingBytes;
      PreAlign(4 + (if ident.Some? then 4 else 0), minalign);
      if ident.Some? {
        vec.Push(ident.value);
      }
      var distance := ReferTo(root);
      var _ := PushElement(distance, 4);
    }
  }

  // ---------------------------------------------------------------- the steps of EndTable

  /** What remains once the vtable was chosen. */
  ghost function AfterVtable(b1: Builder, vt: seq<Byte>, k: nat): Builder
    requires |b1.data| >= 4
  {
    var loc := |b1.data|;
    if k < |b1.vtables| then
      b1.(data := Patch(b1.data, 0, LittleEndian(ToUnsigned32(b1.vtables[k] - loc), 4)), fields := [])
    else
      b1.(data := vt + Patch(b1.data, 0, LittleEndian(ToUnsigned32(loc + |vt| - loc), 4)),
          fields := [], vtables := b1.vtables + [loc + |vt|])
  }

  lemma AfterVtableFront(b1: Builder, vt: seq<Byte>, k: nat, use: nat, front: seq<Byte>, list: seq<nat>)
    requires |b1.data| >= 4 && k <= |b1.vtables|
    requires use == if k < |b1.vtables| then b1.vtables[k] else |b1.data| + |vt|
    requires front == if k < |b1.vtables| then [] else vt
    requires list == if k < |b1.vtables| then b1.vtables else b1.vtables + [|b1.data| + |vt|]
    ensures AfterVtable(b1, vt, k) ==
            b1.(data := front + Patch(b1.data, 0, LittleEndian(ToUnsigned32(use - |b1.data|), 4)),
                fields := [], vtables := list)
  {
    hide Patch, LittleEndian, ToUnsigned32;
    NothingBefore(b1.data, LittleEndian(ToUnsigned32(use - |b1.data|), 4));
  }

  lemma EndTableCases(b: Builder, start: nat, numFields: nat, vt: seq<Byte>, k: nat)
    requires EndTableOk(b, start, numFields)
    requires SlotsFit(b.fields, ObjectLoc(b), 4 + 2 * numFields)
    requires vt == FreshVtable(b, start, numFields)
    requires |FlatSpec.PushElement(b, 0, 4).data| == ObjectLoc(b)
    requires k == FindVtable(FlatSpec.PushElement(b, 0, 4).data, b.vtables, vt)
    ensures FlatSpec.EndTable(b, start, numFields)
            == (AfterVtable(FlatSpec.PushElement(b, 0, 4), vt, k), ObjectLoc(b))
  {
    hide PaddingBytes, LittleEndian, FillOffsets, MatchAt;
  }

  lemma SlotStillBlank(blank: seq<Byte>, vt: seq<Byte>, rest: seq<Byte>, fields: seq<FieldLoc>, i: nat, loc: nat)
    requires i < |fields| && ValidSlots(fields, loc, |blank|)
    requires SlotsFit(fields[..i], loc, |blank|) && vt == FillOffsets(blank, fields[..i], loc)
    requires DistinctFields(fields)
    requires Word(blank, fields[i].id) == 0
    ensures var data := vt + rest;
            ReadScalar(data, |data| - fields[i].id, 2) == 0
  {
    hide FromLittleEndian, FillOffsets;
    var id := fields[i].id;
    FillOffsetsReads(blank, fields[..i], loc, id);
    FindUnused(fields[..i], id);
    var data := vt + rest;
    assert Slice(data, |data| - id, 2) == vt[id..id + 2];
  }

  lemma {:induction false} FindUnused(fields: seq<FieldLoc>, id: nat)
    requires forall i :: 0 <= i < |fields| ==> fields[i].id != id
    ensures Find(fields, id) == None
    decreases |fields|
  {
    if |fields| > 0 {
      FindUnused(fields[..|fields| - 1], id);
    }
  }

  lemma FillNone(blank: seq<Byte>, fields: seq<FieldLoc>, loc: nat)
    ensures SlotsFit(fields[..0], loc, |blank|) && ValidSlots(fields[..0], loc, |blank|)
    ensures FillOffsets(blank, fields[..0], loc) == blank
  {
  }

  lemma FillNext(blank: seq<Byte>, fields: seq<FieldLoc>, i: nat, loc: nat)
    requires i < |fields| && ValidSlots(fields, loc, |blank|)
    ensures ValidSlots(fields[..i], loc, |blank|) && ValidSlots(fields[..i + 1], loc, |blank|)
    ensures SlotsFit(fields[..i], loc, |blank|) && SlotsFit(fields[..i + 1], loc, |blank|)
    ensures FillOffsets(blank, fields[..i + 1], loc)
            == Patch(FillOffsets(blank, fields[..i], loc), fields[i].id, LittleEndian(loc - fields[i].off, 2))
  {
    hide LittleEndian, Patch;
    assert fields[..i + 1][..i] == fields[..i];
  }

  lemma Concatenate3(a: seq<Byte>, b: seq<Byte>, c: seq<Byte>, d: seq<Byte>)
    ensures a + (b + (c + d)) == (a + b + c) + d
  {
  }

  lemma NothingBefore(s: seq<Byte>, bytes: seq<Byte>)
    requires |bytes| <= |s|
    ensures [] + s == s && [] + Patch(s, 0, bytes) == Patch(s, 0, bytes)
  {
  }

  lemma PopFront(front: seq<Byte>, rest: seq<Byte>)
    ensures (front + rest)[|front|..] == rest
  {
  }

  lemma PatchFront(front: seq<Byte>, rest: seq<Byte>, at: nat, bytes: seq<Byte>)
    requires at + |bytes| <= |front|
    ensures Patch(front + rest, at, bytes) == Patch(front, at, bytes) + rest
  {
  }

  lemma PatchBack(front: seq<Byte>, rest: seq<Byte>, bytes: seq<Byte>)
    requires |bytes| <= |rest|
    ensures Patch(front + rest, |front|, bytes) == front + Patch(rest, 0, bytes)
  {
  }

  lemma PushElementUnpadded(b: Builder, v: nat, size: nat)
    requires IsPow2(size) && size >= 1 && size <= b.minalign && Aligned(|b.data|, size)
    ensures FlatSpec.PushElement(b, v, size) == b.(data := LittleEndian(v, size) + b.data)
  {
    NoPadding(|b.data|, size);
    assert Zeros(0) + b.data == b.data;
  }

  /** The vtable words need no padding behind the aligned object. */
  lemma VtablePadding(b: Builder, loc: nat, numFields: nat)
    requires loc == |FlatSpec.PushElement(b, 0, 4).data|
    ensures IsPow2(2) && Aligned(2 * numFields + loc, 2) && Aligned(2 + 2 * numFields + loc, 2)
    ensures FlatSpec.PushElement(b, 0, 4).minalign >= 4
  {
    hide PaddingBytes, BitAnd, LittleEndian, FromLittleEndian, IsPow2;
    SmallPow2();
    PushElementReads(b, 0, 4);
    EvenSizes(numFields, loc);
  }

  lemma EvenSizes(k: nat, n: nat)
    requires n % 4 == 0
    ensures (2 * k + n) % 2 == 0 && (2 + 2 * k + n) % 2 == 0
  {
    ModUnique(2 * k + n, 2, k + 2 * (n / 4), 0);
    ModUnique(2 + 2 * k + n, 2, 1 + k + 2 * (n / 4), 0);
  }

  lemma BlankSlots(objectSize: nat, numFields: nat)
    requires numFields <= 32765
    ensures var blank := BlankVtable(objectSize, numFields);
            forall id: nat {:trigger Word(blank, id)} | SlotId(id, |blank|) :: Word(blank, id) == 0
  {
    forall id: nat | SlotId(id, 4 + 2 * numFields)
      ensures Word(BlankVtable(objectSize, numFields), id) == 0
    {
      BlankVtableReads(objectSize, numFields, id);
    }
  }

  /** Comparing the fresh vtable with a remembered one never leaves the buffer. */
  lemma VtableComparable(data: seq<Byte>, d1: seq<Byte>, d0: seq<Byte>, it: nat, vt: seq<Byte>)
    requires Extends(data, d1) && Extends(d1, d0) && Extends(data, d0)
    requires WellFormedVtable(d0, it) && |vt| <= |data|
    requires |vt| >= 4 && Word(vt, 0) == |vt| && Slice(data, |data|, |vt|) == vt
    ensures 2 <= it <= |data|
    ensures Slice(data, it, 2) == Slice(data, |data|, 2) ==> |vt| <= it
    ensures MatchAt(d1, it, vt) <==> |vt| <= it && Slice(data, it, |vt|) == Slice(data, |data|, |vt|)
  {
    hide FromLittleEndian;
    ExtendsSlices(d1, d0);
    ExtendsSlices(data, d1);
    SlicePart(data, |data|, |vt|, 0, 2);
  }

  lemma {:induction false} FindVtableUnique(data: seq<Byte>, vtables: seq<nat>, vt: seq<Byte>, k: nat)
    requires k <= |vtables|
    requires k < |vtables| ==> MatchAt(data, vtables[k], vt)
    requires forall i :: 0 <= i < k ==> !MatchAt(data, vtables[i], vt)
    ensures FindVtable(data, vtables, vt) == k
  {
    hide MatchAt;
    var f := FindVtable(data, vtables, vt);
  }

  // ---------------------------------------------------------------- sizes along the way

  lemma VectorSizes(b: Builder, elems: seq<Elem>, size: nat)
    requires size >= 1 && ValidElems(elems, |b.data|)
    ensures |FlatSpec.PreAlign(b, Stride(|elems|, size), 4).data| <= |StartVector(b, |elems|, size).data|
    ensures |StartVector(b, |elems|, size).data| <= |PushElems(StartVector(b, |elems|, size), elems, size).data|
    ensures |PushElems(StartVector(b, |elems|, size), elems, size).data| <= |FlatSpec.CreateVector(b, elems, size).data|
  {
    hide PaddingBytes, Stride;
  }

  /** A shorter run of pushes leaves a smaller buffer. */
  lemma {:induction false} ElemSizes(s: Builder, elems: seq<Elem>, size: nat, i: nat)
    requires size >= 1 && ValidElems(elems, |s.data|) && i <= |elems|
    ensures |PushElems(s, elems[i..], size).data| <= |PushElems(s, elems, size).data|
    decreases i
  {
    if i == 0 {
      assert elems[0..] == elems;
    } else {
      assert elems[1..][i - 1..] == elems[i..];
      ElemSizes(s, elems[1..], size, i - 1);
      PushElemLarger(PushElems(s, elems[1..], size), elems[0], size);
    }
  }

  lemma PushElemLarger(b: Builder, e: Elem, size: nat)
    requires size >= 1 && (e.Target? ==> e.off <= |b.data|)
    ensures |FlatSpec.PushElem(b, e, size).data| >= |b.data|
  {
    hide PaddingBytes;
  }
}
