/** The connection buffer: an array whose middle part holds the readable bytes, with room kept in
    front for cheap prepending. It behaves as a byte sequence that grows at both ends. */
module ByteBuffer {
  import opened Bytes
  import opened Wrappers

  const CHEAP_PREPEND: nat := 8
  const INITIAL_SIZE: nat := 1024
  const EXTRA_SIZE: nat := 65536

  /** What a buffer comes down to: its readable bytes, the free space in front of them and behind them. */
  datatype Queue = Queue(bytes: seq<Byte>, front: nat, room: nat)

  /** With room for n bytes behind: as it is when there is enough, grown by what is missing when the free
      space on both sides is too small, and moved to the front otherwise. */
  function WithRoom(q: Queue, n: nat): (r: Queue)
    ensures r.bytes == q.bytes && r.room >= n
    ensures r.front == q.front || r.front == CHEAP_PREPEND
  {
    if q.room >= n then q
    else if q.room + q.front < n + CHEAP_PREPEND then q.(room := n)
    else q.(front := CHEAP_PREPEND, room := q.front + q.room - CHEAP_PREPEND)
  }

  /** Moving wastes no byte, and growth adds exactly what is missing behind. */
  lemma SpaceKept(q: Queue, n: nat)
    ensures var r := WithRoom(q, n);
            && (r.front == q.front || (r.front == 8 && q.front > 8))
            && (q.room >= n ==> r == q)
            && (r.front + r.room > q.front + q.room ==>
                  q.front + q.room < n + 8 && q.room < n && r.front == q.front && r.room == n)
            && r.front + r.room >= q.front + q.room
  {
  }

  function Appended(q: Queue, s: seq<Byte>): (r: Queue)
    ensures r.bytes == q.bytes + s
    ensures r.front == q.front || r.front == CHEAP_PREPEND
  {
    var r := WithRoom(q, |s|);
    Queue(r.bytes + s, r.front, r.room - |s|)
  }

  /** A read: what fits behind goes there, and what came in beyond that is appended. */
  function Received(q: Queue, s: seq<Byte>): Queue {
    if |s| <= q.room then Queue(q.bytes + s, q.front, q.room - |s|)
    else Appended(Queue(q.bytes + s[..q.room], q.front, 0), s[q.room..])
  }

  class Buffer {
    var store: array<Byte>
    var reader: nat
    var writer: nat

    ghost predicate Valid()
      reads this
    {
      reader <= writer <= store.Length && CHEAP_PREPEND <= store.Length
    }

    /** The bytes a reader sees. */
    ghost function Readable(): (s: seq<Byte>)
      requires Valid()
      reads this, store
    {
      store[reader..writer]
    }

    ghost function State(): Queue
      requires Valid()
      reads this, store
    {
      Queue(Readable(), reader, store.Length - writer)
    }

    /** The storage stays the buffer's own: kept, or replaced by a fresh one. */
    twostate predicate Owned()
      reads this
    {
      Valid() && (store == old(store) || fresh(store))
    }

    constructor ()
      ensures Valid() && fresh(store) && Readable() == []
      ensures PrependableBytes() == 8 && WriteableBytes() == 1024
    {
      store := new Byte[CHEAP_PREPEND + INITIAL_SIZE];
      reader, writer := CHEAP_PREPEND, CHEAP_PREPEND;
    }

    function PrependableBytes(): nat
      reads this
    {
      reader
    }

    function ReadableBytes(): (n: nat)
      requires Valid()
      reads this, store
      ensures n == |Readable()|
    {
      writer - reader
    }

    function WriteableBytes(): nat
      requires Valid()
      reads this
    {
      store.Length - writer
    }

    method Retrieve(length: nat)
      requires Valid() && length <= ReadableBytes()
      modifies this`reader
      ensures Valid() && Readable() == old(Readable())[length..]
      ensures reader == old(reader) + length && WriteableBytes() == old(WriteableBytes())
    {
      reader := reader + length;
    }

    method RetrieveAll()
      requires Valid()
      modifies this`reader, this`writer
      ensures Valid() && Readable() == [] && PrependableBytes() == CHEAP_PREPEND
      ensures WriteableBytes() == old(PrependableBytes() + ReadableBytes() + WriteableBytes()) - CHEAP_PREPEND
    {
      reader, writer := CHEAP_PREPEND, CHEAP_PREPEND;
    }

    method RetrieveAsString() returns (s: seq<Byte>)
      requires Valid()
      modifies this`reader, this`writer
      ensures s == old(Readable())
      ensures Valid() && Readable() == [] && PrependableBytes() == CHEAP_PREPEND
    {
      s := store[reader..writer];
      RetrieveAll();
    }

    /** Makes room for length more bytes, by growing when the free space on both sides is too
        small and by moving the readable bytes to the front otherwise. */
    method MakeSpace(length: nat)
      requires Valid() && WriteableBytes() < length
      modifies this, store
      ensures Owned() && Readable() == old(Readable())
      ensures WriteableBytes() >= length
      ensures State() == WithRoom(old(State()), length)
      ensures if old(WriteableBytes() + PrependableBytes()) < length + CHEAP_PREPEND
              then reader == old(reader) && WriteableBytes() == length
              else reader == CHEAP_PREPEND && store == old(store)
    {
      if WriteableBytes() + PrependableBytes() < length + CHEAP_PREPEND {
        var bigger := new Byte[writer + length];
        forall i | 0 <= i < store.Length {
          bigger[i] := store[i];
        }
        store := bigger;
      } else {
        assert CHEAP_PREPEND < reader;
        var readable := ReadableBytes();
        MoveDown(store, reader, writer, CHEAP_PREPEND);
        reader := CHEAP_PREPEND;
        writer := reader + readable;
        assert readable == ReadableBytes();
      }
    }

    method EnsureWritableBytes(length: nat)
      requires Valid()
      modifies this, store
      ensures Owned() && Readable() == old(Readable())
      ensures WriteableBytes() >= length
      ensures State() == WithRoom(old(State()), length)
      ensures old(WriteableBytes()) >= length ==> State() == old(State()) && store == old(store)
    {
      if WriteableBytes() < length {
        MakeSpace(length);
      }
    }

    /** Fills the writable part with bytes, without making them readable yet. */
    method CopyIn(bytes: seq<Byte>)
      requires Valid() && |bytes| <= WriteableBytes()
      modifies store
      ensures store[reader..writer + |bytes|] == old(store[reader..writer]) + bytes
    {
      ghost var before := store[reader..writer];
      forall i | 0 <= i < |bytes| {
        store[writer + i] := bytes[i];
      }
      assert store[reader..writer] == before;
      assert store[writer..writer + |bytes|] == bytes;
      Stitch(store[..], reader, writer, writer + |bytes|);
    }

    method HasWritten(length: nat)
      requires Valid() && length <= WriteableBytes()
      modifies this`writer
      ensures Valid() && writer == old(writer) + length
    {
      writer := writer + length;
    }

    method Append(bytes: seq<Byte>)
      requires Valid()
      modifies this, store
      ensures Owned() && Readable() == old(Readable()) + bytes
      ensures State() == Appended(old(State()), bytes)
    {
      EnsureWritableBytes(|bytes|);
      hide WithRoom;
      CopyIn(bytes);
      HasWritten(|bytes|);
    }

    method Prepend(bytes: seq<Byte>)
      requires Valid() && |bytes| <= PrependableBytes()
      modifies this`reader, store
      ensures Valid() && Readable() == bytes + old(Readable())
      ensures reader == old(reader) - |bytes| && WriteableBytes() == old(WriteableBytes())
    {
      ghost var before := Readable();
      reader := reader - |bytes|;
      forall i | 0 <= i < |bytes| {
        store[reader + i] := bytes[i];
      }
      assert store[reader..reader + |bytes|] == bytes;
      assert store[reader + |bytes|..writer] == before;
      assert store[reader..writer] == store[reader..reader + |bytes|] + store[reader + |bytes|..writer];
    }

    method AppendInt32(v: int)
      requires Valid() && -TWO31 <= v < TWO31
      modifies this, store
      ensures Owned() && Readable() == old(Readable()) + BigEndian(ToUnsigned32(v), 4)
      ensures State() == Appended(old(State()), BigEndian(ToUnsigned32(v), 4))
    {
      Append(BigEndian(ToUnsigned32(v), 4));
    }

    method PeekInt32() returns (v: int)
      requires Valid() && ReadableBytes() >= 4
      ensures v == AsInt32(Readable()[..4])
    {
      assert store[reader..writer][..4] == store[reader..reader + 4];
      v := AsInt32(store[reader..reader + 4]);
    }

    /** A scatter read into the writable part and an overflow array. The kernel delivers bytes that
        fit both, or fails. */
    method ReadFd(incoming: Option<seq<Byte>>) returns (n: int)
      requires Valid()
      requires incoming.Some? ==> |incoming.value| <= WriteableBytes() + EXTRA_SIZE
      modifies this, store
      ensures Owned()
      ensures incoming.None? ==> n < 0 && State() == old(State())
      ensures incoming.Some? ==> n == |incoming.value| && Readable() == old(Readable()) + incoming.value
      ensures incoming.Some? ==> State() == Received(old(State()), incoming.value)
    {
      var writable := WriteableBytes();
      if incoming.None? {
        return -1;
      }
      var bytes := incoming.value;
      n := |bytes|;
      if n <= writable {
        TakeIn(bytes);
      } else {
        TakeIn(bytes[..writable]);
        assert bytes == bytes[..writable] + bytes[writable..];
        Append(bytes[writable..]);
      }
    }

    /** What the kernel put into the writable part becomes readable. */
    method TakeIn(bytes: seq<Byte>)
      requires Valid() && |bytes| <= WriteableBytes()
      modifies this`writer, store
      ensures Valid() && Readable() == old(Readable()) + bytes
      ensures WriteableBytes() == old(WriteableBytes()) - |bytes|
    {
      CopyIn(bytes);
      HasWritten(|bytes|);
    }
  }

  lemma Stitch(s: seq<Byte>, a: nat, b: nat, c: nat)
    requires a <= b <= c <= |s|
    ensures s[a..b] + s[b..c] == s[a..c]
  {
  }

  // ---------------------------------------------------------------- runs of operations

  datatype Op =
    | AppendOp(bytes: seq<Byte>)
    | PrependOp(bytes: seq<Byte>)
    | RetrieveOp(n: nat)
    | RetrieveAllOp
    | ReadOp(incoming: Option<seq<Byte>>)

  /** What the source asks of a caller: room in front for what is prepended, that many bytes to retrieve. A
      read brings no more than the free space behind and the overflow array take. */
  predicate Allowed(q: Queue, op: Op) {
    match op
    case AppendOp(_) => true
    case PrependOp(s) => |s| <= q.front
    case RetrieveOp(n) => n <= |q.bytes|
    case RetrieveAllOp => true
    case ReadOp(s) => s.Some? ==> |s.value| <= q.room + EXTRA_SIZE
  }

  /** No buffer is smaller than the room kept in front. */
  predicate Proper(q: Queue) {
    q.front + |q.bytes| + q.room >= CHEAP_PREPEND
  }

  function Next(q: Queue, op: Op): (r: Queue)
    requires Proper(q) && Allowed(q, op)
    ensures Proper(r)
  {
    match op
    case AppendOp(s) => Appended(q, s)
    case PrependOp(s) => Queue(s + q.bytes, q.front - |s|, q.room)
    case RetrieveOp(n) => Queue(q.bytes[n..], q.front + n, q.room)
    case RetrieveAllOp => Queue([], CHEAP_PREPEND, q.front + |q.bytes| + q.room - CHEAP_PREPEND)
    case ReadOp(s) => if s.Some? then Received(q, s.value) else q
  }

  predicate AllAllowed(q: Queue, ops: seq<Op>)
    requires Proper(q)
    decreases |ops|
  {
    |ops| > 0 ==> Allowed(q, ops[0]) && AllAllowed(Next(q, ops[0]), ops[1..])
  }

  function Replay(q: Queue, ops: seq<Op>): (r: Queue)
    requires Proper(q) && AllAllowed(q, ops)
    ensures Proper(r)
    decreases |ops|
  {
    if |ops| == 0 then q else Replay(Next(q, ops[0]), ops[1..])
  }

  /** The same operations on a plain sequence. */
  function Edit(s: seq<Byte>, op: Op): seq<Byte> {
    match op
    case AppendOp(t) => s + t
    case PrependOp(t) => t + s
    case RetrieveOp(n) => if n <= |s| then s[n..] else []
    case RetrieveAllOp => []
    case ReadOp(t) => if t.Some? then s + t.value else s
  }

  function EditAll(s: seq<Byte>, ops: seq<Op>): seq<Byte>
    decreases |ops|
  {
    if |ops| == 0 then s else EditAll(Edit(s, ops[0]), ops[1..])
  }

  /** Growth, compaction and overflow never show in the bytes. */
  lemma {:induction false} SameBytes(q: Queue, ops: seq<Op>)
    requires Proper(q) && AllAllowed(q, ops)
    ensures Replay(q, ops).bytes == EditAll(q.bytes, ops)
    decreases |ops|
  {
    if |ops| > 0 {
      NextBytes(q, ops[0]);
      hide Next, Edit;
      SameBytes(Next(q, ops[0]), ops[1..]);
    }
  }

  lemma NextBytes(q: Queue, op: Op)
    requires Proper(q) && Allowed(q, op)
    ensures Next(q, op).bytes == Edit(q.bytes, op)
  {
    if op.ReadOp? && op.incoming.Some? && |op.incoming.value| > q.room {
      var s := op.incoming.value;
      assert s == s[..q.room] + s[q.room..];
      assert (q.bytes + s[..q.room]) + s[q.room..] == q.bytes + (s[..q.room] + s[q.room..]);
    }
  }

  ghost predicate NoPrepends(ops: seq<Op>) {
    forall i :: 0 <= i < |ops| ==> !ops[i].PrependOp?
  }

  /** The room in front is used up by prepending alone. */
  lemma {:induction false} RoomInFront(q: Queue, ops: seq<Op>)
    requires Proper(q) && AllAllowed(q, ops) && NoPrepends(ops) && q.front >= CHEAP_PREPEND
    ensures Replay(q, ops).front >= CHEAP_PREPEND
    decreases |ops|
  {
    if |ops| > 0 {
      var r := Next(q, ops[0]);
      assert r.front >= CHEAP_PREPEND;
      hide Next, Allowed;
      RoomInFront(r, ops[1..]);
    }
  }

  method DoOp(b: Buffer, op: Op)
    requires b.Valid() && Allowed(b.State(), op)
    modifies b, b.store
    ensures b.Owned() && b.State() == Next(old(b.State()), op)
  {
    hide WithRoom, Appended, Received;
    match op
    case AppendOp(s) => b.Append(s);
    case PrependOp(s) => b.Prepend(s);
    case RetrieveOp(n) => b.Retrieve(n);
    case RetrieveAllOp => b.RetrieveAll();
    case ReadOp(s) => var _ := b.ReadFd(s);
  }

  /** Any run of operations leaves exactly the bytes the run leaves on a plain sequence, through every growth
      and compaction, and exactly the free space on both sides that decides what the next one may do. */
  method RunOps(b: Buffer, ops: seq<Op>)
    requires b.Valid() && AllAllowed(b.State(), ops)
    modifies b, b.store
    ensures b.Owned() && b.State() == Replay(old(b.State()), ops)
    ensures b.Readable() == EditAll(old(b.Readable()), ops)
  {
    ghost var q := b.State();
    SameBytes(q, ops);
    hide Next, Allowed, EditAll;
    var i := 0;
    assert ops[0..] == ops;
    while i < |ops|
      invariant 0 <= i <= |ops|
      invariant b.Owned() && AllAllowed(b.State(), ops[i..])
      invariant Replay(b.State(), ops[i..]) == Replay(q, ops)
    {
      assert ops[i..][0] == ops[i] && ops[i..][1..] == ops[i + 1..];
      DoOp(b, ops[i]);
      i := i + 1;
    }
  }

  // ---------------------------------------------------------------- integers

  /** Network byte order to a signed 32-bit value. */
  function AsInt32(s: seq<Byte>): (v: int)
    requires |s| == 4
    ensures -TWO31 <= v < TWO31
  {
    BigEndianOfFrom(s);
    Pow256Values();
    ToSigned32(FromBigEndian(s))
  }

  /** Network order, two's complement. */
  lemma Int32Value(s: seq<Byte>)
    requires |s| == 4
    ensures var w: int, x: int, y: int, z: int := s[0], s[1], s[2], s[3];
            AsInt32(s) ==
              w * 0x100_0000 + x * 0x1_0000 + y * 0x100 + z - if w >= 0x80 then 0x1_0000_0000 else 0
  {
    var w: int, x: int, y: int := s[0], s[1], s[2];
    assert s[..3][..2] == s[..2] && s[..2][..1] == s[..1];
    assert FromBigEndian(s[..1]) == w;
    assert FromBigEndian(s[..2]) == w * 0x100 + x;
    assert FromBigEndian(s[..3]) == w * 0x1_0000 + x * 0x100 + y;
  }

  /** Reading back what AppendInt32 wrote. */
  lemma Int32RoundTrip(v: int)
    requires -TWO31 <= v < TWO31
    ensures AsInt32(BigEndian(ToUnsigned32(v), 4)) == v
  {
    Pow256Values();
    BigEndianRoundTrip(ToUnsigned32(v), 4);
    Signed32RoundTrip(v);
  }

  lemma Int32Injective(s: seq<Byte>, t: seq<Byte>)
    requires |s| == 4 && |t| == 4 && AsInt32(s) == AsInt32(t)
    ensures s == t
  {
    BigEndianOfFrom(s);
    BigEndianOfFrom(t);
    Pow256Values();
  }

  /** Copies a[from..to] down to position dest, first byte first. */
  method MoveDown(a: array<Byte>, from: nat, to: nat, dest: nat)
    requires dest <= from <= to <= a.Length
    modifies a
    ensures a[dest..dest + (to - from)] == old(a[from..to])
  {
    var i := 0;
    while i < to - from
      invariant 0 <= i <= to - from
      invariant a[dest..dest + i] == old(a[from..from + i])
      invariant a[from + i..to] == old(a[from + i..to])
    {
      assert a[from + i..to][0] == old(a[from + i..to])[0];
      ghost var rest := a[from + i..to];
      a[dest + i] := a[from + i];
      assert a[dest..dest + i + 1] == a[dest..dest + i] + [a[dest + i]];
      assert old(a[from..from + i + 1]) == old(a[from..from + i]) + [old(a[from + i])];
      assert a[from + i + 1..to] == rest[1..];
      i := i + 1;
    }
  }
}
