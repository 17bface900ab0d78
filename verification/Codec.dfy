/** The framed protobuf codec: frames are written to a buffer, and parsed incrementally from
    whatever part of the byte stream has arrived. */
module Codec {
  import opened Bytes
  import opened Wrappers
  import opened ByteBuffer
  import opened Adler32

  const HEADER_LENGTH: nat := 4
  const MIN_MESSAGE_LENGTH: nat := 10
  const MAX_MESSAGE_LENGTH: nat := 64 * 1024 * 1024

  datatype Error = InvalidLength | CheckSumError | InvalidNameLen | UnknownMessageType | ParseError

  /** The protobuf runtime: type names, serialisation, and the registry of known types. */
  datatype Schema<!M> = Schema(
    typeName: M -> seq<Byte>,
    serialise: M -> seq<Byte>,
    known: seq<Byte> -> bool,
    parse: (seq<Byte>, seq<Byte>) -> Option<M>)

  /** Parsing what a message of a known type serialised to gives the message back. */
  ghost predicate Faithful<M(!new)>(c: Schema<M>) {
    forall m: M :: c.known(c.typeName(m)) ==> c.parse(c.typeName(m), c.serialise(m)) == Some(m)
  }

  datatype Parsed<+M> = Ok(m: M) | Err(error: Error)

  // ---------------------------------------------------------------- frames

  /** Name length, name, NUL, payload: the part the checksum covers. */
  function Content<M>(c: Schema<M>, m: M): (s: seq<Byte>)
    ensures |s| == 5 + |c.typeName(m)| + |c.serialise(m)|
  {
    BigEndian(ToUnsigned32(|c.typeName(m)| + 1), 4) + (c.typeName(m) + [0]) + c.serialise(m)
  }

  function Body<M>(c: Schema<M>, m: M): (s: seq<Byte>)
    ensures |s| == 9 + |c.typeName(m)| + |c.serialise(m)|
  {
    Content(c, m) + BigEndian(Checksum(Content(c, m)), 4)
  }

  function Frame<M>(c: Schema<M>, m: M): seq<Byte> {
    BigEndian(ToUnsigned32(|Body(c, m)|), 4) + Body(c, m)
  }

  /** Decodes the body of a frame, in the order the source checks it. */
  function Parse<M>(c: Schema<M>, body: seq<Byte>): Parsed<M>
    requires MIN_MESSAGE_LENGTH <= |body|
  {
    var n := |body|;
    var expected := AsInt32(body[n - 4..]);
    var checkSum := ToSigned32(Checksum(body[..n - 4]));
    if checkSum != expected then Err(CheckSumError)
    else
      var nameLength := AsInt32(body[..4]);
      if 2 <= nameLength <= n - 8 then
        var typeName := body[4..4 + nameLength - 1];
        if c.known(typeName) then
          match c.parse(typeName, body[4 + nameLength..n - 4])
          case Some(m) => Ok(m)
          case None => Err(ParseError)
        else Err(UnknownMessageType)
      else Err(InvalidNameLen)
  }

  datatype Head<+M> = NeedMore | Bad(error: Error) | Whole(m: M, length: nat)

  /** What the front of the buffered stream holds. */
  function NextFrame<M>(c: Schema<M>, s: seq<Byte>): (h: Head<M>)
    ensures h.Whole? ==> 14 <= h.length <= |s|
  {
    if |s| < MIN_MESSAGE_LENGTH + HEADER_LENGTH then NeedMore
    else
      var n := AsInt32(s[..4]);
      if n > MAX_MESSAGE_LENGTH || n < MIN_MESSAGE_LENGTH then Bad(InvalidLength)
      else if |s| >= n + HEADER_LENGTH then
        match Parse(c, s[HEADER_LENGTH..HEADER_LENGTH + n])
        case Ok(m) => Whole(m, HEADER_LENGTH + n)
        case Err(e) => Bad(e)
      else NeedMore
  }

  /** One call of OnMessage: the messages delivered, the bytes left, and the error reported. */
  datatype Outcome<+M> = Outcome(msgs: seq<M>, rest: seq<Byte>, error: Option<Error>)

  function Decode<M>(c: Schema<M>, s: seq<Byte>): (d: Outcome<M>)
    decreases |s|
  {
    match NextFrame(c, s)
    case NeedMore => Outcome([], s, None)
    case Bad(e) => Outcome([], s, Some(e))
    case Whole(m, n) =>
      var d := Decode(c, s[n..]);
      Outcome([m] + d.msgs, d.rest, d.error)
  }

  // ---------------------------------------------------------------- what a body says

  /** The checksum at the end is that of the bytes before it. */
  predicate ChecksumGood(body: seq<Byte>)
    requires |body| >= 10
  {
    FromBigEndian(body[|body| - 4..]) == Checksum(body[..|body| - 4])
  }

  /** The length of the name, its zero byte included, leaves the name a byte and stays inside the body. */
  predicate NameGood(body: seq<Byte>)
    requires |body| >= 10
  {
    2 <= AsInt32(body[..4]) <= |body| - 8
  }

  function NameIn(body: seq<Byte>): seq<Byte>
    requires |body| >= 10 && NameGood(body)
  {
    body[4..3 + AsInt32(body[..4])]
  }

  function PayloadIn(body: seq<Byte>): seq<Byte>
    requires |body| >= 10 && NameGood(body)
  {
    body[4 + AsInt32(body[..4])..|body| - 4]
  }

  lemma SameSigned(s: seq<Byte>, u: nat)
    requires |s| == 4 && u < TWO32
    ensures ToSigned32(u) == AsInt32(s) <==> u == FromBigEndian(s)
  {
    BigEndianOfFrom(s);
    Pow256Values();
  }

  /** Exactly when a body is a message and when it is each of the errors, the earlier ones first. */
  lemma ParseExactly<M(!new)>(c: Schema<M>, b: seq<Byte>)
    requires |b| >= 10
    ensures Parse(c, b) == Err(CheckSumError) <==> !ChecksumGood(b)
    ensures Parse(c, b) == Err(InvalidNameLen) <==> ChecksumGood(b) && !NameGood(b)
    ensures Parse(c, b) == Err(UnknownMessageType) <==>
              ChecksumGood(b) && NameGood(b) && !c.known(NameIn(b))
    ensures Parse(c, b) == Err(ParseError) <==>
              ChecksumGood(b) && NameGood(b) && c.known(NameIn(b)) && c.parse(NameIn(b), PayloadIn(b)) == None
    ensures forall m :: Parse(c, b) == Ok(m) <==>
              ChecksumGood(b) && NameGood(b) && c.known(NameIn(b)) && c.parse(NameIn(b), PayloadIn(b)) == Some(m)
    ensures Parse(c, b) != Err(InvalidLength)
  {
    SameSigned(b[|b| - 4..], Checksum(b[..|b| - 4]));
    hide Checksum, AsInt32, FromBigEndian;
  }

  /** The first four bytes announce a body of 10 bytes to 64 MiB. */
  predicate LengthGood(s: seq<Byte>)
    requires |s| >= 4
  {
    10 <= AsInt32(s[..4]) <= 64 * 1024 * 1024
  }

  /** Not enough has come in to decide. */
  predicate Incomplete(s: seq<Byte>) {
    |s| < 14 || (LengthGood(s) && |s| < AsInt32(s[..4]) + 4)
  }

  /** A complete frame at the front, the length word left out. */
  function FirstBody(s: seq<Byte>): (b: seq<Byte>)
    requires |s| >= 14 && LengthGood(s) && !Incomplete(s)
    ensures |b| >= 10
  {
    s[4..4 + AsInt32(s[..4])]
  }

  /** What the front of a stream is, said without the decoder. */
  lemma FrontExactly<M>(c: Schema<M>, s: seq<Byte>)
    ensures NextFrame(c, s).NeedMore? <==> Incomplete(s)
    ensures NextFrame(c, s) == Bad(InvalidLength) <==> |s| >= 14 && !LengthGood(s)
    ensures |s| >= 14 && LengthGood(s) && !Incomplete(s) ==>
              NextFrame(c, s) == (match Parse(c, FirstBody(s))
                                  case Ok(m) => Whole(m, 4 + |FirstBody(s)|)
                                  case Err(e) => Bad(e))
  {
    hide AsInt32;
    if |s| >= 14 && LengthGood(s) && !Incomplete(s) {
      NeverInvalidLength(c, FirstBody(s));
      hide Parse;
    }
  }

  lemma NeverInvalidLength<M>(c: Schema<M>, b: seq<Byte>)
    requires |b| >= 10
    ensures Parse(c, b) != Err(InvalidLength)
  {
    hide Checksum, AsInt32;
  }

  /** A bad length is reported at once, and nothing else is reported as one. */
  lemma BadLengthReported<M>(c: Schema<M>, s: seq<Byte>)
    requires |s| >= 14
    ensures Decode(c, s) == Outcome([], s, Some(InvalidLength)) <==> !LengthGood(s)
  {
    FrontExactly(c, s);
    hide NextFrame, LengthGood;
    if NextFrame(c, s).Whole? {
      DecodeWhole(c, s);
    } else {
      DecodeStopped(c, s);
    }
  }

  /** Where a call stops: without an error exactly at an incomplete frame, with a bad length exactly at one,
      and with any other error exactly at a complete frame whose body is that error. */
  lemma StopsExactly<M>(c: Schema<M>, s: seq<Byte>)
    ensures var d := Decode(c, s);
            && (d.error == None <==> Incomplete(d.rest))
            && (d.error == Some(InvalidLength) <==> |d.rest| >= 14 && !LengthGood(d.rest))
            && forall e :: d.error == Some(e) && e != InvalidLength ==>
                 |d.rest| >= 14 && LengthGood(d.rest) && !Incomplete(d.rest) && Parse(c, FirstBody(d.rest)) == Err(e)
  {
    var r := Decode(c, s).rest;
    RestIsSuffix(c, s);
    FrontExactly(c, r);
    hide NextFrame, Decode, Parse, AsInt32;
  }

  /** A frame that carries the message m. */
  ghost predicate Carries<M(!new)>(c: Schema<M>, f: seq<Byte>, m: M) {
    && |f| >= 14 && LengthGood(f) && AsInt32(f[..4]) == |f| - 4
    && var b := f[4..];
       ChecksumGood(b) && NameGood(b) && c.known(NameIn(b)) && c.parse(NameIn(b), PayloadIn(b)) == Some(m)
  }

  /** Nothing is delivered that did not come in: the bytes are one frame for each message delivered, in
      order, followed by what is left. */
  lemma {:induction false} DeliveredCameIn<M(!new)>(c: Schema<M>, s: seq<Byte>) returns (frames: seq<seq<Byte>>)
    ensures var d := Decode(c, s);
            && s == Flatten(frames) + d.rest
            && |frames| == |d.msgs|
            && forall i :: 0 <= i < |frames| ==> Carries(c, frames[i], d.msgs[i])
    decreases |s|
  {
    var h := NextFrame(c, s);
    FrontExactly(c, s);
    hide NextFrame, Parse, AsInt32, Carries, LengthGood, Incomplete, Decode, Flatten;
    if h.Whole? {
      DecodeWhole(c, s);
      var later := DeliveredCameIn(c, s[h.length..]);
      WholeCarries(c, s);
      frames := [s[..h.length]] + later;
      FlattenFirst(s[..h.length], later);
      assert s == s[..h.length] + s[h.length..];
    } else {
      DecodeStopped(c, s);
      frames := [];
      FlattenNone();
    }
  }

  lemma FlattenFirst(f: seq<Byte>, later: seq<seq<Byte>>)
    ensures Flatten([f] + later) == f + Flatten(later)
  {
    assert ([f] + later)[1..] == later;
  }

  lemma FlattenNone()
    ensures Flatten([]) == []
  {
  }

  lemma WholeCarries<M(!new)>(c: Schema<M>, s: seq<Byte>)
    requires NextFrame(c, s).Whole?
    ensures var h := NextFrame(c, s); Carries(c, s[..h.length], h.m)
  {
    FrontExactly(c, s);
    var h, b := NextFrame(c, s), FirstBody(s);
    ParseExactly(c, b);
    hide NextFrame, Parse, AsInt32, ChecksumGood, Checksum;
    var f := s[..h.length];
    assert f[..4] == s[..4] && f[4..] == b;
  }

  // ---------------------------------------------------------------- segmentation does not matter

  /** Once the front of the stream is decided, more bytes do not change it. */
  lemma NextFrameStable<M>(c: Schema<M>, s: seq<Byte>, t: seq<Byte>)
    requires !NextFrame(c, s).NeedMore?
    ensures NextFrame(c, s + t) == NextFrame(c, s)
  {
    hide Parse, AsInt32;
    assert (s + t)[..4] == s[..4];
    var n := AsInt32(s[..4]);
    if MIN_MESSAGE_LENGTH <= n <= MAX_MESSAGE_LENGTH {
      assert (s + t)[4..4 + n] == s[4..4 + n];
    }
  }

  lemma DecodeWhole<M>(c: Schema<M>, s: seq<Byte>)
    requires NextFrame(c, s).Whole?
    ensures var h := NextFrame(c, s);
            var d := Decode(c, s[h.length..]);
            Decode(c, s) == Outcome([h.m] + d.msgs, d.rest, d.error)
  {
  }

  lemma DecodeStopped<M>(c: Schema<M>, s: seq<Byte>)
    requires !NextFrame(c, s).Whole?
    ensures Decode(c, s) == Outcome([], s, if NextFrame(c, s).Bad? then Some(NextFrame(c, s).error) else None)
  {
  }

  /** What a call leaves is the end of what it was given, starting at the first frame it did not
      deliver: incomplete when no error is reported, bad with that error otherwise. */
  lemma {:induction false} RestIsSuffix<M>(c: Schema<M>, s: seq<Byte>)
    ensures var d := Decode(c, s);
            && |d.rest| <= |s| && d.rest == s[|s| - |d.rest|..]
            && NextFrame(c, d.rest) == (match d.error case None => NeedMore case Some(e) => Bad(e))
    decreases |s|
  {
    hide NextFrame;
    var h := NextFrame(c, s);
    if h.Whole? {
      RestIsSuffix(c, s[h.length..]);
      DecodeWhole(c, s);
      var d := Decode(c, s[h.length..]);
      assert s[h.length..][|s| - h.length - |d.rest|..] == s[|s| - |d.rest|..];
    } else {
      DecodeStopped(c, s);
    }
  }

  function Then<M>(a: Outcome<M>, b: Outcome<M>): Outcome<M> {
    Outcome(a.msgs + b.msgs, b.rest, b.error)
  }

  /** Decoding what has arrived, then the left-over with what arrives later, delivers what decoding
      everything at once delivers. */
  lemma {:induction false} DecodeSplit<M>(c: Schema<M>, s: seq<Byte>, t: seq<Byte>)
    ensures Decode(c, s + t) == Then(Decode(c, s), Decode(c, Decode(c, s).rest + t))
    decreases |s|
  {
    hide NextFrame, Decode;
    var h := NextFrame(c, s);
    if h.Whole? {
      var tail := s[h.length..];
      NextFrameStable(c, s, t);
      assert (s + t)[h.length..] == tail + t;
      DecodeSplit(c, tail, t);
      DecodeWhole(c, s);
      DecodeWhole(c, s + t);
      var second := Decode(c, Decode(c, tail).rest + t);
      assert [h.m] + (Decode(c, tail).msgs + second.msgs) == [h.m] + Decode(c, tail).msgs + second.msgs;
    } else {
      DecodeStopped(c, s);
      assert [] + Decode(c, s + t).msgs == Decode(c, s + t).msgs;
    }
  }

  function Flatten(chunks: seq<seq<Byte>>): seq<Byte> {
    if |chunks| == 0 then [] else chunks[0] + Flatten(chunks[1..])
  }

  /** A call of OnMessage after every chunk. */
  function Feed<M>(c: Schema<M>, buffered: seq<Byte>, chunks: seq<seq<Byte>>): Outcome<M>
    decreases |chunks|
  {
    if |chunks| == 0 then Outcome([], buffered, None)
    else
      var d := Decode(c, buffered + chunks[0]);
      var f := Feed(c, d.rest, chunks[1..]);
      Outcome(d.msgs + f.msgs, f.rest, if |chunks| == 1 then d.error else f.error)
  }

  /** However a stream is cut into chunks, the same messages are delivered, the same bytes are left
      over, and the last call reports the same error as decoding the whole stream at once. */
  lemma {:induction false} SegmentationInvariant<M>(c: Schema<M>, buffered: seq<Byte>, chunks: seq<seq<Byte>>)
    requires |chunks| >= 1
    ensures Feed(c, buffered, chunks) == Decode(c, buffered + Flatten(chunks))
    decreases |chunks|
  {
    hide Decode;
    assert buffered + Flatten(chunks) == (buffered + chunks[0]) + Flatten(chunks[1..]);
    var d := Decode(c, buffered + chunks[0]);
    if |chunks| == 1 {
      assert buffered + chunks[0] + [] == buffered + chunks[0];
      assert Feed(c, d.rest, chunks[1..]) == Outcome([], d.rest, None);
      assert d.msgs + [] == d.msgs;
    } else {
      DecodeSplit(c, buffered + chunks[0], Flatten(chunks[1..]));
      SegmentationInvariant(c, d.rest, chunks[1..]);
    }
  }

  /** Two ways of cutting the same stream deliver the same. */
  lemma SameStreamSameMessages<M>(c: Schema<M>, xs: seq<seq<Byte>>, ys: seq<seq<Byte>>)
    requires |xs| >= 1 && |ys| >= 1 && Flatten(xs) == Flatten(ys)
    ensures Feed(c, [], xs) == Feed(c, [], ys)
  {
    SegmentationInvariant(c, [], xs);
    SegmentationInvariant(c, [], ys);
  }

  // ---------------------------------------------------------------- what was sent is delivered

  /** A message the receiver can decode: a known, non-empty type name and a frame within the limit. */
  predicate Sendable<M>(c: Schema<M>, m: M) {
    && c.known(c.typeName(m)) && |c.typeName(m)| >= 1
    && |Body(c, m)| <= MAX_MESSAGE_LENGTH
  }

  lemma BodyParts<M>(c: Schema<M>, m: M)
    requires |Body(c, m)| < TWO31
    ensures var b, k := Body(c, m), |c.typeName(m)|;
            && b[..|b| - 4] == Content(c, m)
            && b[|b| - 4..] == BigEndian(Checksum(Content(c, m)), 4)
            && AsInt32(b[..4]) == k + 1
            && b[4..4 + k] == c.typeName(m)
            && b[5 + k..|b| - 4] == c.serialise(m)
            && AsInt32(b[|b| - 4..]) == ToSigned32(Checksum(Content(c, m)))
  {
    hide BigEndian, FromBigEndian, Checksum;
    var b, k := Body(c, m), |c.typeName(m)|;
    Pow256Values();
    BigEndianRoundTrip(Checksum(Content(c, m)), 4);
    assert b[..|b| - 4] == Content(c, m);
    assert b[|b| - 4..] == BigEndian(Checksum(Content(c, m)), 4);
    assert b[..4] == BigEndian(ToUnsigned32(k + 1), 4);
    Int32RoundTrip(k + 1);
    assert b[4..4 + k] == c.typeName(m);
    assert b[5 + k..|b| - 4] == c.serialise(m);
  }

  /** The frame on the wire: its length, the length of the name with its zero byte, the name, the zero byte,
      the payload, and the checksum of all that lies between the first word and the checksum. */
  lemma FrameLayout<M>(c: Schema<M>, m: M)
    requires |Body(c, m)| < TWO31
    ensures var f, k, p := Frame(c, m), |c.typeName(m)|, |c.serialise(m)|;
            && |f| == 13 + k + p && AsInt32(f[..4]) == 9 + k + p
            && AsInt32(f[4..8]) == k + 1 && f[8..8 + k] == c.typeName(m) && f[8 + k] == 0
            && f[9 + k..9 + k + p] == c.serialise(m)
            && FromBigEndian(f[9 + k + p..]) == Checksum(f[4..9 + k + p])
  {
    FrameParts(c, m);
    FrameText(c, m);
    FrameSum(c, m);
    hide *;
  }

  lemma FrameText<M>(c: Schema<M>, m: M)
    requires |Body(c, m)| < TWO31
    ensures var f, k := Frame(c, m), |c.typeName(m)|;
            && |f| >= 13 + k
            && AsInt32(f[4..8]) == k + 1 && f[8..8 + k] == c.typeName(m)
            && f[9 + k..|f| - 4] == c.serialise(m)
  {
    BodyParts(c, m);
    FrameParts(c, m);
    hide *;
    BehindLength(Frame(c, m), Body(c, m), |c.typeName(m)|);
  }

  lemma FrameSum<M>(c: Schema<M>, m: M)
    requires |Body(c, m)| < TWO31
    ensures var f := Frame(c, m); |f| >= 8 && FromBigEndian(f[|f| - 4..]) == Checksum(f[4..|f| - 4])
  {
    hide *;
    BodyParts(c, m);
    FrameParts(c, m);
    Pow256Values();
    BigEndianRoundTrip(Checksum(Content(c, m)), 4);
    BehindLength(Frame(c, m), Body(c, m), 0);
  }

  lemma BehindLength(f: seq<Byte>, b: seq<Byte>, k: nat)
    requires |f| == 4 + |b| && f[4..] == b && k + 9 <= |b|
    ensures f[4..8] == b[..4] && f[8..8 + k] == b[4..4 + k] && f[9 + k..|f| - 4] == b[5 + k..|b| - 4]
    ensures f[4..|f| - 4] == b[..|b| - 4] && f[|f| - 4..] == b[|b| - 4..]
  {
    FramePart(f, b, 0, 4);
    FramePart(f, b, 4, 4 + k);
    FramePart(f, b, 5 + k, |b| - 4);
    FramePart(f, b, 0, |b| - 4);
    FramePart(f, b, |b| - 4, |b|);
  }

  lemma FrameParts<M>(c: Schema<M>, m: M)
    requires |Body(c, m)| < TWO31
    ensures var f, b := Frame(c, m), Body(c, m);
            && |b| == 9 + |c.typeName(m)| + |c.serialise(m)|
            && |f| == 4 + |b| && f[4..] == b && AsInt32(f[..4]) == |b| && b[4 + |c.typeName(m)|] == 0
  {
    hide BigEndian, Checksum, AsInt32, FromBigEndian, ToUnsigned32, ToSigned32;
    var f, b := Frame(c, m), Body(c, m);
    Int32RoundTrip(|b|);
    assert Content(c, m)[4 + |c.typeName(m)|] == 0;
    assert f[..4] == BigEndian(ToUnsigned32(|b|), 4);
  }

  lemma FramePart(f: seq<Byte>, b: seq<Byte>, i: nat, j: nat)
    requires |f| == 4 + |b| && f[4..] == b && i <= j <= |b|
    ensures f[4 + i..4 + j] == b[i..j]
    ensures i < |b| ==> f[4 + i] == b[i]
  {
  }

  /** Parsing a body FillEmptyBuffer built. */
  lemma ParseBody<M(!new)>(c: Schema<M>, m: M)
    requires Faithful(c) && MIN_MESSAGE_LENGTH <= |Body(c, m)| < TWO31
    ensures Parse(c, Body(c, m)) ==
            if |c.typeName(m)| == 0 then Err(InvalidNameLen)
            else if c.known(c.typeName(m)) then Ok(m)
            else Err(UnknownMessageType)
  {
    hide Body, Content, Checksum, AsInt32, ToSigned32;
    BodyParts(c, m);
    var b, k := Body(c, m), |c.typeName(m)|;
    assert 4 + (k + 1) - 1 == 4 + k;
  }

  lemma FrontFrame<M(!new)>(c: Schema<M>, m: M, t: seq<Byte>)
    requires Faithful(c) && Sendable(c, m)
    ensures NextFrame(c, Frame(c, m) + t) == Whole(m, |Frame(c, m)|)
  {
    hide Body, BigEndian, FromBigEndian, Parse;
    var n, s := |Body(c, m)|, Frame(c, m) + t;
    assert s[..4] == BigEndian(ToUnsigned32(n), 4);
    Int32RoundTrip(n);
    assert s[4..4 + n] == Body(c, m);
    ParseBody(c, m);
  }

  function Frames<M>(c: Schema<M>, ms: seq<M>): seq<Byte> {
    if |ms| == 0 then [] else Frame(c, ms[0]) + Frames(c, ms[1..])
  }

  /** Sending any list of messages one after the other delivers exactly that list, in order, and
      leaves nothing in the buffer. */
  lemma {:induction false} SentIsDelivered<M(!new)>(c: Schema<M>, ms: seq<M>)
    requires Faithful(c) && forall i :: 0 <= i < |ms| ==> Sendable(c, ms[i])
    ensures Decode(c, Frames(c, ms)) == Outcome(ms, [], None)
    decreases |ms|
  {
    hide NextFrame, Frame, Sendable, Decode;
    if |ms| == 0 {
      NothingYet(c);
      DecodeStopped(c, []);
    } else {
      var s, t := Frames(c, ms), Frames(c, ms[1..]);
      FrontFrame(c, ms[0], t);
      assert s[|Frame(c, ms[0])|..] == t;
      SentIsDelivered(c, ms[1..]);
      DecodeWhole(c, s);
      assert [ms[0]] + ms[1..] == ms;
    }
  }

  lemma NothingYet<M>(c: Schema<M>)
    ensures NextFrame(c, []) == NeedMore
  {
  }

  /** ... whatever the segmentation the network chooses. */
  lemma SentIsDeliveredInChunks<M(!new)>(c: Schema<M>, ms: seq<M>, chunks: seq<seq<Byte>>)
    requires Faithful(c) && forall i :: 0 <= i < |ms| ==> Sendable(c, ms[i])
    requires |chunks| >= 1 && Flatten(chunks) == Frames(c, ms)
    ensures Feed(c, [], chunks) == Outcome(ms, [], None)
  {
    SegmentationInvariant(c, [], chunks);
    assert [] + Flatten(chunks) == Frames(c, ms);
    SentIsDelivered(c, ms);
  }

  /** The conditions on a message are exact: anything else is not delivered. */
  lemma DeliveredExactlyWhenSendable<M(!new)>(c: Schema<M>, m: M)
    requires Faithful(c) && |Body(c, m)| < TWO31
    ensures Decode(c, Frame(c, m)) == Outcome([m], [], None) <==> Sendable(c, m)
  {
    hide Parse, BigEndian, FromBigEndian, Body;
    if Sendable(c, m) {
      SentIsDelivered(c, [m]);
      assert Frames(c, [m][1..]) == [];
      assert Frames(c, [m]) == Frame(c, m);
    } else {
      var n, s := |Body(c, m)|, Frame(c, m);
      if n >= MIN_MESSAGE_LENGTH {
        assert s[..4] == BigEndian(ToUnsigned32(n), 4);
        Int32RoundTrip(n);
        assert s[4..4 + n] == Body(c, m);
        ParseBody(c, m);
        assert NextFrame(c, s).Bad?;
      } else {
        assert NextFrame(c, s).NeedMore?;
      }
    }
  }

  // ---------------------------------------------------------------- corruption

  /** Changing any single byte of a body (name length, name, payload or checksum) is detected. */
  lemma CorruptionDetected<M>(c: Schema<M>, m: M, i: nat, x: Byte)
    requires MIN_MESSAGE_LENGTH <= |Body(c, m)| < TWO31
    requires i < |Body(c, m)| && x != Body(c, m)[i]
    ensures Parse(c, Body(c, m)[i := x]) == Err(CheckSumError)
  {
    hide BigEndian, FromBigEndian, Checksum, Content, AsInt32, ToSigned32;
    var b := Body(c, m);
    var b', n := b[i := x], |b|;
    BodyParts(c, m);
    if i < n - 4 {
      assert b'[..n - 4] == b[..n - 4][i := x];
      assert b'[n - 4..] == b[n - 4..];
      OneByteChanges(b[..n - 4], i, x);
      SignedInjective(Checksum(b'[..n - 4]), Checksum(b[..n - 4]));
    } else {
      assert b'[..n - 4] == b[..n - 4];
      assert b'[n - 4..][i - (n - 4)] == x;
      if AsInt32(b'[n - 4..]) == AsInt32(b[n - 4..]) {
        Int32Injective(b'[n - 4..], b[n - 4..]);
      }
    }
  }

  lemma SignedInjective(a: nat, b: nat)
    requires a < TWO32 && b < TWO32 && a != b
    ensures ToSigned32(a) != ToSigned32(b)
  {
  }

  /** A corrupted frame stops the stream with a checksum error, and nothing of it is delivered. */
  lemma CorruptedFrameStops<M>(c: Schema<M>, m: M, i: nat, x: Byte, t: seq<Byte>)
    requires MIN_MESSAGE_LENGTH <= |Body(c, m)| <= MAX_MESSAGE_LENGTH
    requires i < |Body(c, m)| && x != Body(c, m)[i]
    ensures var s := Frame(c, m)[4 + i := x] + t;
            Decode(c, s) == Outcome([], s, Some(CheckSumError))
  {
    hide BigEndian, FromBigEndian, Body, Parse;
    var n, s := |Body(c, m)|, Frame(c, m)[4 + i := x] + t;
    assert s[..4] == BigEndian(ToUnsigned32(n), 4);
    Int32RoundTrip(n);
    assert s[4..4 + n] == Body(c, m)[i := x];
    CorruptionDetected(c, m, i, x);
  }
}
