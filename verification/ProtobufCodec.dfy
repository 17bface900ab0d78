/** The codec as it runs on a connection buffer. */
module ProtobufCodec {
  import opened Bytes
  import opened Wrappers
  import opened ByteBuffer
  import Adler32
  import opened Codec

  class ProtobufCodec<!M(!new)> {
    const schema: Schema<M>
    var delivered: seq<M>   // the arguments of the message callback, in order
    var errors: seq<Error>  // the arguments of the error callback, which leaves the buffer alone

    constructor (schema: Schema<M>)
      ensures this.schema == schema && delivered == [] && errors == []
    {
      this.schema := schema;
      delivered, errors := [], [];
    }

    /** Delivers every complete frame at the front of the buffer and stops at the first bad one. */
    method OnMessage(buf: Buffer)
      requires buf.Valid()
      modifies this`delivered, this`errors, buf`reader
      ensures buf.Valid()
      ensures var d := Decode(schema, old(buf.Readable()));
              && delivered == old(delivered) + d.msgs
              && buf.Readable() == d.rest
              && errors == old(errors) + if d.error.Some? then [d.error.value] else []
    {
      hide Parse, Decode, AsInt32;
      ghost var s := buf.Readable();
      ghost var done: seq<M> := [];
      StartDecoding(schema, s);
      while buf.ReadableBytes() >= MIN_MESSAGE_LENGTH + HEADER_LENGTH
        invariant buf.Valid() && errors == old(errors) && delivered == old(delivered) + done
        invariant Decode(schema, s) == Then(Outcome(done, [], None), Decode(schema, buf.Readable()))
        decreases buf.ReadableBytes()
      {
        ghost var r := buf.Readable();
        var length := buf.PeekInt32();
        if length > MAX_MESSAGE_LENGTH || length < MIN_MESSAGE_LENGTH {
          errors := errors + [InvalidLength];
          DecodeStopped(schema, r);
          return;
        } else if buf.ReadableBytes() >= length + HEADER_LENGTH {
          var from := buf.reader + HEADER_LENGTH;
          FrameInside(buf.store[..], buf.reader, buf.writer, HEADER_LENGTH, length);
          match Parse(schema, buf.store[from..from + length]) {
            case Ok(m) =>
              delivered := delivered + [m];
              buf.Retrieve(HEADER_LENGTH + length);
              DeliverOne(schema, s, r, done);
              done := done + [m];
            case Err(e) =>
              errors := errors + [e];
              DecodeStopped(schema, r);
              return;
          }
        } else {
          DecodeStopped(schema, r);
          return;
        }
      }
      DecodeStopped(schema, buf.Readable());
    }

    /** One turn of the connection's read loop. */
    method ReadOnce(buf: Buffer, bytes: seq<Byte>)
      requires buf.Valid() && |bytes| <= buf.WriteableBytes() + EXTRA_SIZE
      modifies this`delivered, this`errors, buf, buf.store
      ensures buf.Owned()
      ensures var d := Decode(schema, old(buf.Readable()) + bytes);
              && delivered == old(delivered) + d.msgs
              && buf.Readable() == d.rest
              && errors == old(errors) + if d.error.Some? then [d.error.value] else []
    {
      hide Decode, Received;
      var _ := buf.ReadFd(Some(bytes));
      OnMessage(buf);
    }

    /** The connection's read loop over a stream: each turn reads what the kernel hands over, which is what
        it wants to but no more than there is and than the buffer and the overflow array take. */
    method Receive(buf: Buffer, stream: seq<Byte>, wants: seq<nat>) returns (taken: nat)
      requires buf.Valid()
      modifies this`delivered, this`errors, buf, buf.store
      ensures buf.Owned()
      ensures Min(Total(wants, 65536), |stream|) <= taken <= |stream|
      ensures var d := SoFar(schema, old(buf.Readable()), stream[..taken]);
              && delivered == old(delivered) + d.msgs
              && buf.Readable() == d.rest
              && Reports(old(errors), errors, d.error)
    {
      hide Decode;
      ghost var s := buf.Readable();
      ghost var done: Outcome<M> := Outcome([], s, None);
      taken := 0;
      var i := 0;
      while i < |wants|
        invariant 0 <= i <= |wants| && buf.Owned() && taken <= |stream|
        invariant Min(Total(wants[..i], EXTRA_SIZE), |stream|) <= taken
        invariant done == SoFar(schema, s, stream[..taken])
        invariant delivered == old(delivered) + done.msgs && buf.Readable() == done.rest
        invariant Reports(old(errors), errors, done.error)
      {
        assert wants[..i + 1][..i] == wants[..i];
        var n := Min(wants[i], Min(|stream| - taken, buf.WriteableBytes() + EXTRA_SIZE));
        if n > 0 {
          ghost var d := Decode(schema, buf.Readable() + stream[taken..taken + n]);
          OneMore(schema, s, stream, taken, n);
          ReadOnce(buf, stream[taken..taken + n]);
          assert delivered == old(delivered) + (done.msgs + d.msgs);
          done := Then(done, d);
          taken := taken + n;
        }
        i := i + 1;
      }
      assert wants[..i] == wants;
    }

    /** However the frames of a list of messages come in, the messages are delivered in order: those of the
        frames that are complete at any time, and all of them, leaving the buffer empty, once all bytes were
        taken. */
    method ReceiveAll(buf: Buffer, ghost ms: seq<M>, stream: seq<Byte>, wants: seq<nat>) returns (taken: nat)
      requires buf.Valid() && buf.Readable() == []
      requires Faithful(schema) && forall i :: 0 <= i < |ms| ==> Sendable(schema, ms[i])
      requires stream == Frames(schema, ms)
      modifies this`delivered, this`errors, buf, buf.store
      ensures buf.Owned() && errors == old(errors)
      ensures Min(Total(wants, 65536), |stream|) <= taken <= |stream|
      ensures old(delivered) <= delivered <= old(delivered) + ms
      ensures taken == |stream| ==> delivered == old(delivered) + ms && buf.Readable() == []
    {
      hide Frames, Decode, Faithful, Sendable;
      SentIsDelivered(schema, ms);
      taken := Receive(buf, stream, wants);
      PartDelivered(schema, stream, ms, taken);
    }
  }

  /** A part of the readable bytes, taken from the storage. */
  lemma FrameInside(store: seq<Byte>, reader: nat, writer: nat, skip: nat, length: nat)
    requires reader + skip + length <= writer <= |store|
    ensures store[reader + skip..reader + skip + length] == store[reader..writer][skip..skip + length]
  {
    var x, y := store[reader + skip..reader + skip + length], store[reader..writer][skip..skip + length];
    assert |x| == |y| && forall i :: 0 <= i < length ==> x[i] == y[i];
  }

  function Min(a: int, b: int): int {
    if a < b then a else b
  }

  /** The sum of the sizes, each counted up to a limit. */
  ghost function Total(sizes: seq<nat>, limit: nat): nat {
    if sizes == [] then 0 else Total(sizes[..|sizes| - 1], limit) + Min(sizes[|sizes| - 1], limit)
  }

  /** What the reads so far come to: decoding all that arrived at once, if anything did. */
  ghost function SoFar<M>(c: Schema<M>, buffered: seq<Byte>, arrived: seq<Byte>): Outcome<M> {
    if arrived == [] then Outcome([], buffered, None) else Decode(c, buffered + arrived)
  }

  /** The error callback was called exactly when there is an error at the end, and with that one. */
  ghost predicate Reports(before: seq<Error>, after: seq<Error>, error: Option<Error>) {
    && before <= after
    && (error.Some? <==> |after| > |before|)
    && forall i :: |before| <= i < |after| ==> error == Some(after[i])
  }

  /** An error stays the same whatever arrives after it. */
  lemma ErrorStays<M>(c: Schema<M>, s: seq<Byte>, t: seq<Byte>)
    ensures var d := Decode(c, s);
            d.error.Some? ==> Decode(c, d.rest + t) == Outcome([], d.rest + t, d.error)
  {
    var d := Decode(c, s);
    RestIsSuffix(c, s);
    hide NextFrame, Decode;
    if d.error.Some? {
      NextFrameStable(c, d.rest, t);
      DecodeStopped(c, d.rest + t);
    }
  }

  lemma OneMore<M>(c: Schema<M>, s: seq<Byte>, stream: seq<Byte>, taken: nat, n: nat)
    requires taken + n <= |stream| && n > 0
    ensures var done := SoFar(c, s, stream[..taken]);
            var d := Decode(c, done.rest + stream[taken..taken + n]);
            && SoFar(c, s, stream[..taken + n]) == Then(done, d)
            && (done.error.Some? ==> d.error == done.error)
  {
    var t := stream[taken..taken + n];
    hide Decode;
    assert s + stream[..taken + n] == (s + stream[..taken]) + t;
    if taken == 0 {
      assert s + stream[..taken] == s;
      assert [] + Decode(c, s + t).msgs == Decode(c, s + t).msgs;
    } else {
      DecodeSplit(c, s + stream[..taken], t);
      ErrorStays(c, s + stream[..taken], t);
    }
  }

  lemma NothingDecoded<M>(c: Schema<M>)
    ensures Decode(c, []) == Outcome([], [], None)
  {
    hide Parse;
    DecodeStopped(c, []);
  }

  /** A part of a stream that decodes without error delivers a part of its messages, without error. */
  lemma PartDelivered<M>(c: Schema<M>, stream: seq<Byte>, ms: seq<M>, taken: nat)
    requires taken <= |stream| && Decode(c, stream) == Outcome(ms, [], None)
    ensures var d := SoFar(c, [], stream[..taken]);
            && d.msgs <= ms && d.error == None
            && (taken == |stream| ==> d == Outcome(ms, [], None))
  {
    hide Decode;
    NothingDecoded(c);
    var front := stream[..taken];
    assert taken == 0 ==> front == [];
    assert taken == |stream| ==> front == stream;
    assert [] + front == front && stream == front + stream[taken..];
    DecodeSplit(c, front, stream[taken..]);
    ErrorStays(c, front, stream[taken..]);
  }

  lemma StartDecoding<M>(c: Schema<M>, s: seq<Byte>)
    ensures Decode(c, s) == Then(Outcome([], [], None), Decode(c, s))
  {
    hide Decode;
    assert [] + Decode(c, s).msgs == Decode(c, s).msgs;
  }

  lemma DeliverOne<M>(c: Schema<M>, s: seq<Byte>, r: seq<Byte>, done: seq<M>)
    requires NextFrame(c, r).Whole?
    requires Decode(c, s) == Then(Outcome(done, [], None), Decode(c, r))
    ensures var h := NextFrame(c, r);
            Decode(c, s) == Then(Outcome(done + [h.m], [], None), Decode(c, r[h.length..]))
  {
    hide NextFrame;
    DecodeWhole(c, r);
    var h := NextFrame(c, r);
    var later := Decode(c, r[h.length..]);
    assert done + ([h.m] + later.msgs) == (done + [h.m]) + later.msgs;
  }

  /** The name length, the name with its zero byte, and the payload. */
  method FillContent<M>(schema: Schema<M>, buf: Buffer, m: M)
    requires buf.Valid() && buf.ReadableBytes() == 0 && buf.PrependableBytes() >= HEADER_LENGTH
    requires |Body(schema, m)| < TWO31
    modifies buf, buf.store
    ensures buf.Owned() && buf.Readable() == Content(schema, m) && buf.PrependableBytes() >= HEADER_LENGTH
  {
    hide BigEndian, Adler32.Checksum, WithRoom, Appended;
    var typeName := schema.typeName(m);
    var nameLength := |typeName| + 1;
    assert buf.Readable() == [];
    buf.AppendInt32(nameLength);
    assert buf.Readable() == BigEndian(ToUnsigned32(nameLength), 4);
    buf.Append(typeName + [0]);
    var payload := schema.serialise(m);
    buf.EnsureWritableBytes(|payload|);
    buf.Append(payload);
    ghost var all := buf.Readable();
    assert all == BigEndian(ToUnsigned32(nameLength), 4) + (typeName + [0]) + payload;
  }

  /** Writes one frame into an empty buffer, the length word last and in front. */
  method FillEmptyBuffer<M>(schema: Schema<M>, buf: Buffer, m: M)
    requires buf.Valid() && buf.ReadableBytes() == 0 && buf.PrependableBytes() >= HEADER_LENGTH
    requires |Body(schema, m)| < TWO31
    modifies buf, buf.store
    ensures buf.Owned() && buf.Readable() == Frame(schema, m)
  {
    hide BigEndian, Adler32.Checksum, WithRoom, Appended;
    FillContent(schema, buf, m);
    hide Content;
    var checkSum := Adler32.Checksum(buf.store[buf.reader..buf.writer]);
    SignedPattern(checkSum);
    buf.AppendInt32(ToSigned32(checkSum));
    buf.Prepend(BigEndian(ToUnsigned32(buf.ReadableBytes()), 4));
  }

  /** A checksum keeps its bits through the conversion to int32_t. */
  lemma SignedPattern(u: nat)
    requires u < TWO32
    ensures ToUnsigned32(ToSigned32(u)) == u
  {
    if u >= TWO31 {
      ModUnique(u - TWO32, TWO32, -1, u);
    }
  }
}
