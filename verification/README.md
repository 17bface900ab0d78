# Verified model of the server library

This project models the parts of the C++ server library whose correctness rests on state kept over many calls,
and proves what those parts are for. To check it with Dafny 4.11, call `dafny verify dfyconfig.toml`.

Six components are modelled. Each consists of a specification on values, in which whole runs are reasoned
about, and, where the source changes an object in place, a class whose methods are proved to do exactly what
the specification says.

**FlatBuffers** (`FlatSpec`, `FlatReader`, `FlatTables`, `FlatVectors`, `FlatRuns`, `FlatAligned`, `Monster`;
objects in `VectorDownward`, `FlatBufferBuilder`, `BuilderRuns`, `MonsterBuilder`; a whole program in
`MonsterProgram`). A builder writes strings, vectors and tables from the end of a buffer towards its front; a
reader follows the relative offsets; a verifier checks that they stay inside. Positions are distances from the
end of the buffer, which is what the builder's offsets are, so they keep their meaning when the array is
replaced. Main results: a table reads back whatever was written into it, through vtable sharing and any later
growth; vtables are shared exactly when their bytes agree; everything built from the generated monster schema
is accepted by its verifier, which accepts exactly the buffers that can be read without leaving them.

**Framed messages** (`ByteBuffer`, `Adler32`, `Codec`, `ProtobufCodec`). A frame is a length, a name length, a
type name with a zero byte, a payload and an Adler-32 checksum (section 8.2 of RFC 1950). Messages are an
abstract type with a name, a serialised form and a parser; where delivery is claimed, parsing what was
serialised must give the message back. Main results: what is delivered does not depend on how the stream is
cut; sent messages are delivered, and exactly the sendable ones; every error is reported exactly when it is there,
and one changed byte always is; the buffer object is a byte queue.

**Timers** (`TimerSpec`, `TimerProofs`, `TimerRuns`, `TimerBatch`, `TimerCancel`, `TimerDue`, `TimerQueue`).
Two ordered sets index the same timers, a third records cancellations made while callbacks run, and a one-shot
descriptor has to be armed early enough. Callbacks are arbitrary scripts of creating, adding and cancelling
timers, and the allocator may hand out an address again. The clock's readings are inputs, in microseconds. Main
results: a timer that is added runs when it is due and not before; a wakeup runs every due timer exactly once;
exactly when a cancelled timer still runs.

**Threads** (`BoundedBlockingQueue`, `DbPool`, `AsyncLogging`). Each is a state machine over the steps of any
number of threads; a critical section is one step, a wait gives up the mutex, and a notification may wake more
than one waiting thread or a thread may wake by itself. Main results hold in every interleaving.

**Connections** (`TcpSpec`, `TcpConnection`). The output side of a connection on its loop thread. What the
system call `write` returns is an input within its range.

**Integer printing** (`Numerals`, `LogStream`). The digit loops, the reversal in place and the buffer they
print into.

`Bytes` and `Wrappers` hold what the others share: bytes, byte orders, powers of two, optional values.

## What the code does not promise

These expectations turned out to be false of the code; the model follows the code and says exactly when each
one holds.

- `DBConnectionPool::Stop` does not always wait for every statement accepted before it: a task does not carry
  its statement, so a call held up between its two queues lets its statement use up a later call's task.
  `DbPool.StopGuarantee` gives the exact condition and `DbPool.PromiseCanBreak` a run.
- An empty statement makes an assertion of the connection pool fail. As long as the pool runs, some
  continuation without another push fails exactly while one waits in the queue (`DbPool.EmptyStatementFails`);
  `DbPool.EmptyStatementRun` gives the shortest run.
- A timer cancelled by a callback still runs if its turn in the batch being run is yet to come; after that, and
  for a scheduled timer at once, it never runs again (`TimerCancel.CancelInBatch`, with a run in
  `TimerCancel.CancelledTimerRuns`). A cancellation made before the timer was scheduled is lost
  (`TimerCancel.TooEarlyIsLost`).
- The handle returned by `TimerQueue::AddTimer` carries sequence number 0 while timers start at 1, so
  cancelling with it does nothing, at once (`TimerRuns.HandleCancelsNothing`) or later
  (`TimerCancel.HandleIsLost`). Cancellation is stated over the address and sequence number given to
  `cancelInLoop`.
- Closing a connection turns writing off even when bytes are waiting, and a `ShutDown` called while it is off
  half-closes before them. `TcpSpec.HalfCloseOrder` says over whole runs exactly when the half-close comes
  last, and `TcpSpec.HalfCloseCanBeEarly` gives a run in which it does not. A send in between turns writing on
  again (`TcpSpec.SendReopens`).
- `Finish` with a file identifier does not always put it right behind the root word, as its comment says:
  padding comes between unless the buffer is aligned to 4 there (`FlatVectors.IdentifierPlace`,
  `FlatVectors.IdentifierApart`). Once a table was written it is (`FlatRuns.FinishedTableReadsBack`).
- A bounded queue of capacity 0 lets nothing pass, and any larger one does
  (`BoundedBlockingQueue.CapacityMatters`).
- The asynchronous log loses messages in two ways: one that is not smaller than a buffer vanishes silently
  (`AsyncLogging.PendingExactlyWhenSmall`), and a batch of more than 25 buffers loses all but its last two, with
  a notice. `AsyncLogging.NothingLost` proves that the log is complete exactly as long as neither happens;
  `AsyncLogging.SmallMessagesLost` gives runs in which small messages are lost.

## Model

| member | source | states |
|---|---|---|
| FlatSpec.PaddingAligns | flatbuffer/flatbuffers/flatbuffers.h:366-368 | for every power of two s up to 2^63, `((~n)+1) & (s-1)` is below s and brings n to a multiple of s |
| FlatSpec.PaddingIsLeast | flatbuffer/flatbuffers/flatbuffers.h:366-368 | no smaller padding does |
| VectorDownward.VectorDownward.constructor | flatbuffer/flatbuffers/flatbuffers.h:291-296 | an empty buffer of the given capacity |
| VectorDownward.VectorDownward.MakeSpace | flatbuffer/flatbuffers/flatbuffers.h:306-322 | room for len bytes in front of the contents, which stay the same whether or not the array is replaced; it is replaced exactly when there was no room, by one larger by half or by len |
| VectorDownward.VectorDownward.Push | flatbuffer/flatbuffers/flatbuffers.h:334-337 | the bytes are put in front of the contents |
| VectorDownward.VectorDownward.Fill | flatbuffer/flatbuffers/flatbuffers.h:339-342 | that many zero bytes are put in front of the contents |
| VectorDownward.VectorDownward.Pop | flatbuffer/flatbuffers/flatbuffers.h:344 | the bytes last pushed are dropped |
| VectorDownward.VectorDownward.EqualAt | flatbuffer/flatbuffers/flatbuffers.h:519-524 | the memcmp of EndTable: whether n bytes at two end-relative offsets, both inside the buffer, are the same |
| FlatBufferBuilder.FlatBufferBuilder.Align | flatbuffer/flatbuffers/flatbuffers.h:403-406 | pads to the element size and raises minalign, as the value-level builder says |
| FlatBufferBuilder.FlatBufferBuilder.PushElement | flatbuffer/flatbuffers/flatbuffers.h:423-429 | one aligned little-endian scalar in front of the contents; its end-relative offset is returned |
| FlatBufferBuilder.FlatBufferBuilder.AddElement | flatbuffer/flatbuffers/flatbuffers.h:444-449 | a scalar field equal to its default leaves no trace unless defaults are forced; any other is pushed and its place remembered |
| FlatBufferBuilder.FlatBufferBuilder.AddOffset | flatbuffer/flatbuffers/flatbuffers.h:451-454 | offset 0 stores nothing; any other stores a forward distance to what it refers to |
| FlatBufferBuilder.FlatBufferBuilder.AddStruct | flatbuffer/flatbuffers/flatbuffers.h:456-461 | an absent struct stores nothing; a present one is aligned, copied and its place remembered |
| FlatBufferBuilder.FlatBufferBuilder.ReferTo | flatbuffer/flatbuffers/flatbuffers.h:470-474 | the distance from the word about to be written, after alignment, to an earlier offset |
| FlatBufferBuilder.FlatBufferBuilder.WriteOffsets | flatbuffer/flatbuffers/flatbuffers.h:505-513 | the loop that fills the vtable slots of all tracked fields in place gives the vtable of the value-level builder |
| FlatBufferBuilder.FlatBufferBuilder.FindEarlier | flatbuffer/flatbuffers/flatbuffers.h:514-524 | the search over earlier vtables stops at the first one that has the bytes of the fresh one, and passes them all if none has |
| FlatBufferBuilder.FlatBufferBuilder.WriteBlank | flatbuffer/flatbuffers/flatbuffers.h:496-503 | the empty slots, the object size and the vtable size in front of the object, with no padding between |
| FlatBufferBuilder.FlatBufferBuilder.KeepOrPop | flatbuffer/flatbuffers/flatbuffers.h:516-528 | an earlier vtable is used and the fresh one popped, or the fresh one is kept and remembered |
| FlatBufferBuilder.FlatBufferBuilder.PointAt | flatbuffer/flatbuffers/flatbuffers.h:534-536 | the object word, and no other byte, becomes the signed distance to the vtable |
| FlatBufferBuilder.FlatBufferBuilder.EndTable | flatbuffer/flatbuffers/flatbuffers.h:492-538 | the whole state after finishing a table: object word, vtable fresh or shared, vtable list, fields cleared |
| FlatBufferBuilder.FlatBufferBuilder.CreateString | flatbuffer/flatbuffers/flatbuffers.h:560-567 | the whole state after writing a string |
| FlatBufferBuilder.FlatBufferBuilder.CreateVector | flatbuffer/flatbuffers/flatbuffers.h:590-597 | the whole state after the loop that writes a vector from its last element to its first |
| FlatBufferBuilder.FlatBufferBuilder.Finish | flatbuffer/flatbuffers/flatbuffers.h:621-632 | the whole state after padding, identifier and root word |
| FlatTables.FillOffsetsReads | flatbuffer/flatbuffers/flatbuffers.h:505-512 | whatever the order of the fields, slot id of the filled vtable holds the place of the field with that id, and 0 when there is none |
| FlatTables.FieldsLaidOut | flatbuffer/flatbuffers/flatbuffers.h:438-461 | after the field calls every field that has to be written is recorded once, where its bytes lie, and no other slot is |
| FlatTables.EndTableReads | flatbuffer/flatbuffers/flatbuffers.h:492-538 | after EndTable the object points at a vtable that maps every recorded field to its place and every other slot to 0 and states its own size and that of the object, shared or fresh; the earlier bytes are kept and the remembered vtables stay whole and pairwise different |
| FlatTables.TableRoundTrip | flatbuffer/flatbuffers/flatbuffers.h:444-538 | for every set of fields with different ids, an object below 64 KiB and a buffer below 2 GiB: however the buffer grows afterwards, reading the table gives every written value, the default or null for every field left out, and 0 for slots nobody named; its vtable states the right sizes |
| FlatVectors.CreateStringReads | flatbuffer/flatbuffers/flatbuffers.h:560-567 | the string reads back: length word, then its bytes with nothing between, then a zero byte; earlier bytes stay |
| FlatVectors.StartVectorAligns | flatbuffer/flatbuffers/flatbuffers.h:581-584 | the padding before a vector leaves no gap before its elements or its length word, for element sizes 1, 2, 4 and 8 |
| FlatVectors.CreateVectorReads | flatbuffer/flatbuffers/flatbuffers.h:590-597 | the vector has its length and element i at place i, offsets resolving to what they were given; earlier bytes stay |
| FlatVectors.FinishReads | flatbuffer/flatbuffers/flatbuffers.h:621-632 | the finished size is a multiple of minalign, the root word leads to the root, and the identifier stands behind the root word when minalign was at least 4 |
| FlatVectors.IdentifierPlace | flatbuffer/flatbuffers/flatbuffers.h:618-632 | the identifier stands right behind the root word if and only if the padded buffer is a multiple of 4 before it |
| FlatVectors.IdentifierApart | flatbuffer/flatbuffers/flatbuffers.h:618-632 | one pushed byte before it, and it lies further back |
| FlatVectors.AlignedFromStart | flatbuffer/flatbuffers/flatbuffers.h:621-632 | a place that is a multiple of an alignment from the end, in a buffer told of that alignment, is one from the start of the finished buffer |
| FlatAligned.ApplyAligned | flatbuffer/flatbuffers/flatbuffers.h:423-461 | what a field call writes ends at a multiple of its alignment, which the buffer is told of |
| FlatAligned.EveryScalarAligned | flatbuffer/flatbuffers/flatbuffers.h:403-632 | whatever was built before and after and whichever root the buffer was finished with, every length word, vector element, vtable word and written field of a call, and every 16-bit word of the vtables up to then, the one its table uses among them, lies at a multiple of its own size from the start of the buffer |
| FlatRuns.RunKeeps | flatbuffer/flatbuffers/flatbuffers.h:401-597 | any run of strings, vectors and tables only grows the buffer in front and keeps its invariant |
| FlatRuns.RunBytesStay | flatbuffer/flatbuffers/flatbuffers.h:306-322 | bytes at an end-relative offset handed out stay the same over any later run, across reallocations and popped vtables |
| FlatRuns.FinishedTableReadsBack | flatbuffer/flatbuffers/flatbuffers.h:621-632 | a table followed by any run and by Finish is found through the root word, aligned, and reads back whole, sizes included |
| FlatRuns.VtableSharing | flatbuffer/flatbuffers/flatbuffers.h:514-528 | a table adds a vtable if and only if no earlier one has the same bytes; otherwise the fresh copy is gone and the buffer ends at the object |
| BuilderRuns.BuildTable | flatbuffer/flatbuffers/flatbuffers.h:484-538 | any legal table on a builder object: field calls in order and EndTable give the buffer and offset of the value-level table |
| FlatBufferBuilder.FlatBufferBuilder.Clear | flatbuffer/flatbuffers/flatbuffers.h:383-387 | buffer, fields and vtables are empty again; the alignment reached and the force flag stay |
| BuilderRuns.Reuse | flatbuffer/flatbuffers/flatbuffers.h:383-400 | a cleared builder, with either force flag, does over any run legal from there what the values say and is in order again, so every result about runs holds for it |
| BuilderRuns.MakeAll | flatbuffer/flatbuffers/flatbuffers.h:401-597 | a builder object driven through any legal run of strings, vectors and tables below 2 GiB ends in the state the run has on values |
| Monster.MonsterTableInput | flatbuffer/monster_generated.h:92-107 | the calls of CreateMonster are a legal table for any arguments: different slots, all inside the vtable of seven fields |
| Monster.AcceptedExactly | flatbuffer/flatbuffers/flatbuffers.h:670-757 | the verifier accepts a buffer, whoever made it, if and only if the table, its vtable, every field, the string with its zero byte and the vector lie inside |
| Monster.MonsterReads | flatbuffer/monster_generated.h:65-75 | a monster whose accessors read what was given passes every check of Monster::Verify |
| Monster.MonsterBufferAccepted | flatbuffer/monster_generated.h:92-121 | every buffer made by CreateMonster, any further run and Finish is accepted by VerifyMonsterBuffer, and its accessors give the arguments back |
| MonsterBuilder.AddMonsterFields | flatbuffer/monster_generated.h:99-105 | the add_ calls in the order of the generated code, through the builder object, lay out the fields of the value-level monster |
| MonsterBuilder.CreateMonster | flatbuffer/monster_generated.h:92-107 | the builder object and the returned offset after CreateMonster |
| MonsterProgram.BuildMonster | flatbuffer/flatbuffers_test.cpp:6-44 | the whole program on builder objects: for any position, scalars, name and inventory below 2 GiB the finished buffer is accepted and gives a reader exactly what was put in |
| MonsterProgram.ProgramReads | flatbuffer/flatbuffers_test.cpp:27-43 | what a reader of the finished buffer finds: scalars, position, name and every item of the inventory |
| ByteBuffer.Buffer.constructor | reactor/Buffer.h:28-36 | empty, 8 bytes to prepend into and 1024 to write into |
| ByteBuffer.Buffer.Retrieve | reactor/Buffer.h:58-61 | drops that many bytes from the front |
| ByteBuffer.Buffer.RetrieveAsString | reactor/Buffer.h:71-75 | gives all readable bytes and leaves none |
| ByteBuffer.Buffer.MakeSpace | reactor/Buffer.h:185-196 | grows or moves down, chosen as the source does, with the free space on both sides afterwards; readable bytes kept, and the assertion that compaction moves down holds |
| ByteBuffer.MoveDown | reactor/Buffer.h:191 | the overlapping copy of compaction moves the bytes unharmed |
| ByteBuffer.Buffer.EnsureWritableBytes | reactor/Buffer.h:145-150 | enough room, the same readable bytes, and the free space on both sides |
| ByteBuffer.Buffer.Append | reactor/Buffer.h:90-94 | readable bytes followed by the new ones, and the free space left on both sides |
| ByteBuffer.Buffer.Prepend | reactor/Buffer.h:163-168 | the new bytes followed by the readable ones |
| ByteBuffer.Buffer.AppendInt32 | reactor/Buffer.h:106-109 | the four big-endian bytes of the value are appended |
| ByteBuffer.Buffer.PeekInt32 | reactor/Buffer.h:138-143 | the signed value of the first four bytes |
| ByteBuffer.SpaceKept | reactor/Buffer.h:185-196 | moving wastes no byte, and growth adds exactly what is missing behind |
| ByteBuffer.Int32Value | reactor/Buffer.h:138-143 | the four bytes in network order, as a two's complement number |
| ByteBuffer.Int32RoundTrip | reactor/Buffer.h:106-143 | every 32-bit value survives appending and peeking |
| ByteBuffer.Buffer.ReadFd | reactor/Buffer.cpp:6-25 | a scatter read that fits the writable part or spills into the overflow array appends exactly the bytes delivered and leaves the free space that this leaves; a failed one changes nothing |
| ByteBuffer.RunOps | reactor/Buffer.h:58-168 | over any run of append, prepend, retrieve and reads that the source accepts, from any valid state, the readable bytes are what the same operations make of a plain sequence, and the free space on both sides is the predicted one |
| Adler32.ChecksumValue | protobuf/ProtobufCodec.cpp:97-126 | the Adler-32 checksum of section 8.2 of RFC 1950 in closed form: the upper half is the length plus each byte times the number of bytes from it to the end, the lower half one plus the bytes, both modulo 65521 |
| Adler32.OneByteChanges | protobuf/ProtobufCodec.cpp:126-129 | changing any one byte changes the Adler-32 checksum of section 8.2 of RFC 1950 |
| Codec.ParseExactly | protobuf/ProtobufCodec.cpp:123-153 | a body gives each of the four errors, and a message, exactly when its own condition on checksum, name length, known name and parser holds and the earlier ones do not |
| Codec.BadLengthReported | protobuf/ProtobufCodec.cpp:18-21 | with 14 bytes there, a bad length is reported at once if and only if the first word, signed, lies outside 10 bytes to 64 MiB |
| Codec.StopsExactly | protobuf/ProtobufCodec.cpp:17-37 | decoding stops without an error exactly at an incomplete frame, with a bad length exactly at one, and with any other error exactly at a complete frame whose body is that error |
| Codec.DeliveredCameIn | protobuf/ProtobufCodec.cpp:17-37 | the stream is one whole frame for each message delivered, in order, each with a good length, checksum, name and payload, followed by the leftover |
| Codec.FrameLayout | protobuf/ProtobufCodec.cpp:74-104 | every part of a frame at its place on the wire |
| Codec.RestIsSuffix | protobuf/ProtobufCodec.cpp:17-37 | what is left undecoded is the end of the stream, and it stops at a frame that is incomplete or bad |
| Codec.DecodeSplit | protobuf/ProtobufCodec.cpp:17-37 | decoding a stream is decoding its first part and then the leftover with the rest |
| Codec.SegmentationInvariant | protobuf/ProtobufCodec.cpp:17-37 | feeding any chunks one by one, with a call after each, delivers the messages, the leftover and the first error of decoding them all at once |
| Codec.SameStreamSameMessages | protobuf/ProtobufCodec.cpp:17-37 | two ways of cutting the same stream deliver the same |
| Codec.SentIsDelivered | protobuf/ProtobufCodec.cpp:74-104 | the frames of any list of sendable messages decode to exactly that list and nothing is left |
| Codec.SentIsDeliveredInChunks | protobuf/ProtobufCodec.cpp:17-37 | so they do however they are cut |
| Codec.DeliveredExactlyWhenSendable | protobuf/ProtobufCodec.cpp:123-153 | a frame is delivered if and only if its type is known and not empty and its body is within the maximum |
| Codec.CorruptionDetected | protobuf/ProtobufCodec.cpp:123-153 | changing exactly one byte of a body always makes Parse report a checksum error |
| Codec.CorruptedFrameStops | protobuf/ProtobufCodec.cpp:30-32 | such a frame stops decoding before anything behind it |
| ProtobufCodec.ProtobufCodec.OnMessage | protobuf/ProtobufCodec.cpp:17-37 | the loop over the buffer object delivers what decoding says, leaves the leftover and reports the error; each pass shortens the buffer |
| ByteBuffer.SameBytes | reactor/Buffer.h:58-196 | growth, compaction and the overflow array never show in the bytes |
| ByteBuffer.RoomInFront | reactor/Buffer.h:58-196 | the 8 bytes kept in front are used up by prepending alone |
| ProtobufCodec.ProtobufCodec.Receive | protobuf/ProtobufCodec.cpp:17-37 | reads of any sizes that the buffer and the overflow array take, each followed by OnMessage, deliver and leave what decoding all the bytes taken at once does, and report an error exactly when that does; a read takes at least what was wanted, up to 65536 bytes and the end of the stream |
| ProtobufCodec.ProtobufCodec.ReceiveAll | protobuf/ProtobufCodec.cpp:17-37 | the frames of sendable messages, read in pieces of any sizes, are delivered in order without an error: a beginning of the list at any time, and all of it, leaving an empty buffer, once all bytes were taken |
| ProtobufCodec.FillEmptyBuffer | protobuf/ProtobufCodec.cpp:74-104 | the buffer holds the frame: length, name length, name with zero byte, payload, checksum |
| TimerQueue.TimerQueue.NewTimer | reactor/Timer.cpp:5-13 | a new timer gets the next sequence number, the time, the interval and the repeat flag given, and waits to be scheduled |
| TimerQueue.TimerQueue.AddTimer | reactor/TimerQueue.cpp:83-87 | called in a callback or outside, the timer is scheduled at once for the time given, no other is touched, everything the runs rely on is kept, and the handle holds its address and sequence number 0 |
| TimerQueue.TimerQueue.AddTimerInLoop | reactor/TimerQueue.cpp:93-99 | the whole state after scheduling a timer, arming included |
| TimerQueue.TimerQueue.Insert | reactor/TimerQueue.cpp:182-205 | both sets gain the timer, and the result says whether it is now the earliest |
| TimerQueue.TimerQueue.CancelInLoop | reactor/TimerQueue.cpp:101-115 | the whole state after a cancellation, found, remembered or ignored |
| TimerQueue.TimerQueue.GetExpired | reactor/TimerQueue.cpp:137-154 | the due timers in order, taken out of both sets |
| TimerQueue.TimerQueue.ResetOne | reactor/TimerQueue.cpp:162-170 | one timer of the batch restarted and inserted again, or freed |
| TimerQueue.TimerQueue.Reset | reactor/TimerQueue.cpp:156-180 | the whole state after restarting, freeing and arming again |
| TimerQueue.TimerQueue.HandleRead | reactor/TimerQueue.cpp:117-135 | the whole state after a wakeup whose callbacks add and cancel timers in any way |
| TimerQueue.TimerQueue.Loop | reactor/TimerQueue.cpp:62-180 | a queue driven through any legal run of calls and wakeups keeps the invariant of all runs |
| TimerSpec.ArmDeadline | reactor/TimerQueue.cpp:16-27 | arming waits until the expiration but at least 100 microseconds |
| TimerProofs.ExpiredSplits | reactor/TimerQueue.cpp:137-154 | the ordered set splits exactly at now, in order, and the second set loses the same timers |
| TimerProofs.HandleReadOk | reactor/TimerQueue.cpp:117-135 | a wakeup keeps the two sets indexing the same timers, every timer in one place, sequence numbers unique and one-shots run at most once, whatever the callbacks do |
| TimerRuns.HandleKeeps | reactor/TimerQueue.cpp:93-180 | every call and wakeup keeps all that and the arming |
| TimerRuns.EveryRun | reactor/TimerQueue.cpp:93-205 | in every run: the two sets index the same timers and have the same size, a one-shot timer runs at most once, each timer is freed at most once and exactly when it is no longer live, every live timer is scheduled or waits to be, and the timer descriptor is armed in time for the earliest |
| TimerRuns.SameSize | reactor/TimerQueue.cpp:103 | the size assertions hold |
| TimerRuns.CancelExact | reactor/TimerQueue.cpp:106-110 | cancelling a scheduled timer by its key, inside a callback or outside, frees that timer and touches no other |
| TimerRuns.StaleKeyHarmless | reactor/TimerQueue.cpp:104-113 | a key with an old sequence number removes nothing and marks no live timer as cancelled, at the moment of the call, inside a callback or outside |
| TimerRuns.HandleCancelsNothing | reactor/TimerId.h:12-14 | the handle that AddTimer returns carries sequence number 0, and cancelling with it removes nothing and marks no live timer as cancelled at that moment |
| TimerCancel.FreedNeverRuns | reactor/TimerQueue.cpp:93-180 | a timer that was freed is not run again in any later event or callback |
| TimerCancel.CancelledNeverRuns | reactor/TimerQueue.cpp:101-115 | a scheduled timer cancelled between wakeups is never run again, whatever happens later |
| TimerCancel.CancelInBatch | reactor/TimerQueue.cpp:101-171 | a scheduled timer or one of the batch, cancelled by a callback, is run once more if its turn in that batch is still to come and never again otherwise, whatever later callbacks and events do |
| TimerCancel.TooEarlyIsLost | reactor/TimerQueue.cpp:93-115 | a timer cancelled before it was scheduled goes on as if it had not been cancelled, in everything that follows |
| TimerCancel.StrayKeyIsLost | reactor/TimerQueue.cpp:101-180 | cancelling with a key that belongs to no scheduled timer and to none of the batch being run: the rest of the wakeup and all later events go as if it had not been done |
| TimerCancel.StaleKeyIsLost | reactor/TimerQueue.cpp:101-180 | so it is with a key whose timer is gone, even when the address was handed out again |
| TimerCancel.HandleIsLost | reactor/TimerId.h:12-14 | and with the handle that AddTimer returns, for any address |
| TimerBatch.DueTimersRun | reactor/TimerQueue.cpp:117-135 | a wakeup runs each scheduled timer due by then exactly once and nothing else, whatever the callbacks add and cancel |
| TimerDue.AddedScheduled | reactor/TimerQueue.cpp:83-99 | an added timer is scheduled for the time given with the interval given, no other is touched, and the descriptor is set to that time, at least 100 microseconds ahead, exactly when it is the earliest |
| TimerDue.AddedArmed | reactor/TimerQueue.cpp:83-99 | so the descriptor fires for it in time |
| TimerDue.AddedRunsWhenDue | reactor/TimerQueue.cpp:83-180 | a timer added and not cancelled is run at no wakeup before its time and exactly once at the first one from then on, whatever else is added, run and cancelled in between |
| TimerDue.WakeupArms | reactor/TimerQueue.cpp:172-179 | after a wakeup the descriptor is set to the earliest timer exactly, at least 100 microseconds ahead |
| TimerDue.WakeupDisarms | reactor/TimerQueue.cpp:117-135 | the descriptor fires once: with no timer left and none added it is not armed |
| TimerBatch.DueInOrder | reactor/TimerQueue.cpp:117-154 | the due timers are run in order of expiration and address: at any moment those run so far are the first of them, once each, and the rest follows |
| TimerBatch.DoKeepsBatch | reactor/TimerQueue.cpp:93-115 | no operation of a callback changes a timer of the batch being run, and none runs a timer |
| TimerCancel.RestOfWakeupSteps | reactor/TimerQueue.cpp:117-135 | the rest of a wakeup used there is the wakeup from its start, taken forward operation by operation and callback by callback |
| TimerCancel.CancelledTimerRuns | reactor/TimerQueue.cpp:127-131 | a run in which a timer cancelled by an earlier callback of its batch is run |
| TimerRuns.BatchOutcome | reactor/TimerQueue.cpp:159-171 | after a batch each of its timers is scheduled again at now plus its interval if it repeats and was not cancelled, and freed once otherwise |
| BoundedBlockingQueue.StepKeeps | thread/BoundedBlockingQueue.h:23-43 | every step of any thread keeps: size within capacity, items conserved in order, queued items promised to woken consumers while one sleeps, free slots promised to woken producers while one sleeps |
| BoundedBlockingQueue.PutsComeOut | thread/BoundedBlockingQueue.h:23-43 | over any run the items of the puts that found room come out in that order: the takes got a beginning of them and the queue holds the rest |
| BoundedBlockingQueue.PutExactly | thread/BoundedBlockingQueue.h:23-31 | a put that finds room adds its item, is done and wakes a sleeping consumer; any other sleeps with its item |
| BoundedBlockingQueue.TakeExactly | thread/BoundedBlockingQueue.h:33-42 | a take that finds an item gets the oldest, is done and wakes a sleeping producer; any other sleeps |
| BoundedBlockingQueue.WaitingItemKept | thread/BoundedBlockingQueue.h:23-31 | a waiting producer keeps its item until it runs |
| BoundedBlockingQueue.FirstInFirstOut | thread/BoundedBlockingQueue.h:23-43 | in every interleaving what was taken is a prefix of what was put and the queue is the rest, within the capacity |
| BoundedBlockingQueue.NoLostWakeup | thread/BoundedBlockingQueue.h:25-42 | in every interleaving, while a consumer sleeps there are at least as many woken consumers as items, and the same for producers and free slots |
| BoundedBlockingQueue.NeverBothStuck | thread/BoundedBlockingQueue.h:23-43 | with capacity at least 1, while a producer and a consumer both sleep some woken thread can finish |
| BoundedBlockingQueue.FinishStep | thread/BoundedBlockingQueue.h:23-43 | some woken thread's test succeeds if and only if a woken thread has a step that puts or takes an item |
| BoundedBlockingQueue.CapacityMatters | thread/BoundedBlockingQueue.h:15-21 | an item can pass if and only if the capacity is at least 1 |
| DbPool.StepKeeps | db/DBConnectionPool.cpp:17-97 | every step of callers, workers and Stop keeps: each popped statement executed once or in one worker's hands, every connection in the pool or in one worker's hands, tasks matching statements, the latch accounted for |
| DbPool.TaskMoves | thread/ThreadPool.cpp:58-78 | what take removes from the queue is in the worker's hands until the worker carries it out |
| DbPool.JoinedKeeps | thread/ThreadPool.cpp:39-94 | workers leave only after the pool was stopped, and Stop returns only after all of them have left |
| DbPool.CoveredWork | thread/ThreadPool.cpp:58-78 | the latch is counted down only by a task taken after enough statements have been taken for all calls accepted before it |
| DbPool.NothingRunsDry | db/DBConnectionPool.cpp:67-97 | in every interleaving a worker with a task finds a statement, one with a statement finds a connection, and a step fails an assertion if and only if it takes an empty statement |
| DbPool.EmptyStatementFails | db/DBConnectionPool.cpp:67-69 | while the pool runs, until Stop has waited for the latch, and nothing more is pushed, some continuation fails an assertion if and only if an empty statement waits in the queue |
| DbPool.EmptyStatementRun | db/DBConnectionPool.cpp:54-69 | the run of five steps in which a single empty statement does |
| DbPool.ConnectionsNotShared | db/DBConnectionPool.cpp:71-85 | two workers, executing or returning, never hold the same connection |
| DbPool.ConnectionTaken | db/DBConnectionPool.cpp:71-85 | a connection that a worker executes on or is returning is not in the pool |
| DbPool.OneWorkerInOrder | db/DBConnectionPool.cpp:54-97 | with one worker statements are executed in the order pushed |
| DbPool.StatementsAsGiven | db/DBConnectionPool.cpp:54-63 | in every interleaving the statements queued, and so those executed, have the texts given to ExecuteSql, numbered in order, and the accepted calls are those that returned |
| DbPool.AfterStop | db/DBConnectionPool.cpp:42-52 | when Stop has returned the executed statements are the first ones pushed, each once, at least as many as were accepted when Stop was called |
| DbPool.StopGuarantee | db/DBConnectionPool.cpp:42-65 | every statement accepted before Stop is executed exactly once by the time Stop returns, in every continuation, if and only if no call in flight has pushed its statement before an accepted one |
| DbPool.PromiseCanBreak | db/DBConnectionPool.cpp:54-65 | a run with two callers in which the guarantee fails |
| DbPool.Drain | thread/ThreadPool.cpp:39-78 | from wherever Stop waits there is a continuation in which it returns while no other caller moves |
| AsyncLogging.StockedKeeps | logging/AsyncLoggingDoubleBuffering.cpp:73-120 | every step keeps: a missing next buffer means some buffer is full, spares empty, enough buffers to recycle, no assertion failing |
| AsyncLogging.NeverFails | logging/AsyncLoggingDoubleBuffering.cpp:72-123 | in every interleaving no assertion fails, no null buffer is used, and both spare buffers are there and empty at the top of the loop |
| AsyncLogging.LogIsAppended | logging/AsyncLoggingDoubleBuffering.cpp:31-123 | in every interleaving the batches taken followed by what is pending are the messages that fit a buffer, in order, none split; the file is those batches rendered |
| AsyncLogging.NothingLost | logging/AsyncLoggingDoubleBuffering.cpp:31-123 | in every interleaving the file followed by what is pending is everything appended, in order, if and only if every message was smaller than a buffer and no batch exceeded 25 buffers |
| AsyncLogging.SmallMessagesLost | logging/AsyncLoggingDoubleBuffering.cpp:31-109 | runs of n messages smaller than a buffer, taken as one batch, in which messages are lost if and only if n is more than 25 |
| AsyncLogging.CutShortens | logging/AsyncLoggingDoubleBuffering.cpp:94-103 | a batch over 25 buffers puts fewer lines into the file than it holds messages, the notice included, unless buffers of it were empty |
| AsyncLogging.PendingExactlyWhenSmall | logging/AsyncLoggingDoubleBuffering.cpp:31-46 | a message enters what is pending if and only if it is smaller than a buffer; a larger one only sends the current buffer off |
| AsyncLogging.WrittenExactly | logging/AsyncLoggingDoubleBuffering.cpp:94-103 | of a batch over 25 buffers the notice and the messages of the last two reach the file, of any other all messages, each buffer's in its place |
| AsyncLogging.LoopExactly | logging/AsyncLoggingDoubleBuffering.cpp:66-123 | the writing thread ends at the first test of its loop after Stop and at no other time, and takes all there is each time round |
| AsyncLogging.NothingAfterExit | logging/AsyncLoggingDoubleBuffering.cpp:66-123 | nothing is written once it has ended |
| AsyncLogging.FailsExactly | logging/AsyncLoggingDoubleBuffering.cpp:31-123 | exactly when an assertion fails or a null buffer is used, in whatever state |
| AsyncLogging.OneOwner | logging/AsyncLoggingDoubleBuffering.cpp:31-123 | each buffer is in one place: when one is made and when they are given back |
| AsyncLogging.WriteOut | logging/AsyncLoggingDoubleBuffering.cpp:94-103 | the writing loop: a batch over 25 buffers writes the notice and its last two, any other all of its buffers in order |
| TcpConnection.TcpConnection.SendInLoop | reactor/TcpConnection.cpp:161-192 | the whole state after a send: direct write, remainder buffered, write events enabled |
| TcpConnection.TcpConnection.Send | reactor/TcpConnection.cpp:47-55 | a send on the loop thread, ignored unless connected |
| TcpConnection.TcpConnection.SendBuffer | reactor/TcpConnection.cpp:57-70 | the same from a buffer, which is emptied exactly when the bytes were accepted |
| TcpConnection.TcpConnection.ShutDown | reactor/TcpConnection.cpp:72-77 | half-closes at once when nothing is being written and leaves it to the drain otherwise |
| TcpConnection.TcpConnection.HandleWrite | reactor/TcpConnection.cpp:119-142 | the whole state after a partial or complete drain, a failed write included |
| TcpConnection.TcpConnection.Serve | reactor/TcpConnection.cpp:47-199 | a connection driven through any legal run: bytes written followed by bytes waiting are the bytes accepted |
| TcpSpec.SendExactly | reactor/TcpConnection.cpp:47-192 | a send on a connection that is up, with nothing waiting and writing off, writes at once as much as the socket takes; the rest waits with writing on, or the completion is queued; in every other case all bytes wait; and nothing happens when the connection is not up |
| TcpSpec.WriteExactly | reactor/TcpConnection.cpp:119-142 | when the socket can be written the bytes it takes leave the buffer; the last one turns writing off, queues the completion and makes a half-close that was waiting; a failed write ends the process |
| TcpSpec.CallsExactly | reactor/TcpConnection.cpp:72-117 | the other calls move no byte; what each does to the phase, to writing and to the write side |
| TcpSpec.BytesKept | reactor/TcpConnection.cpp:119-192 | over any run, with closings at any time, bytes written followed by the output buffer are the accepted sends in order, and the write side is shut down at most once |
| TcpSpec.HalfCloseLast | reactor/TcpConnection.cpp:119-199 | while nothing is closed with bytes waiting: writing is enabled exactly when bytes wait, the half-close comes only after every accepted byte, and after ShutDown it has happened exactly when nothing waits |
| TcpSpec.NothingAfterHalfClose | reactor/TcpConnection.cpp:161-199 | nothing is written and nothing shut down again after the half-close |
| TcpSpec.HalfCloseOrder | reactor/TcpConnection.cpp:72-77 | over every run, with closings at any time, the half-close comes after every accepted byte if and only if ShutDown was never called on a connected connection that had bytes waiting and writing turned off |
| TcpSpec.HalfCloseCanBeEarly | reactor/TcpConnection.cpp:144-150 | a run from the start in which a close turns writing off and ShutDown then half-closes before an accepted byte |
| TcpSpec.SendReopens | reactor/TcpConnection.cpp:185-191 | after such a close the next send turns writing on again and the order is safe once more |
| TcpSpec.CompletionMeansWritten | reactor/TcpConnection.cpp:125-129 | the completion callback is queued by a step that leaves nothing waiting, and by every step that writes the last waiting byte |
| TcpSpec.Finishes | reactor/TcpConnection.cpp:119-142 | any positive results of write that add up to the waiting bytes leave nothing waiting and carry out a pending half-close |
| LogStream.Convert | logging/LogStream.cpp:26-44 | the printed integer with sign and zero character, its length, and nothing else in the buffer changed |
| LogStream.ConvertHex | logging/LogStream.cpp:46-59 | the same in base 16 |
| LogStream.StoreDigits | logging/LogStream.cpp:30-35 | the digit loop, for either sign, without ever negating the value |
| LogStream.ReverseRange | logging/LogStream.cpp:42 | the in-place reversal |
| LogStream.MirrorDigit | logging/LogStream.cpp:19-21 | the mirrored table has the digit of a remainder of either sign |
| LogStream.FixedBuffer.FormatInteger | logging/LogStream.cpp:70-76 | a 64-bit integer is appended when more than 32 characters are free, and nothing otherwise |
| LogStream.FixedBuffer.FormatAddress | logging/LogStream.cpp:141-151 | an address is appended behind 0x when at least 32 characters are free |
| Numerals.PrintedReadsBack | logging/LogStream.cpp:26-44 | parsing a printed integer gives it back, for every integer, the smallest of any width included |
| Numerals.NumeralReadsBack | logging/LogStream.cpp:46-59 | parsing a numeral gives the number back, in base 10 and 16 |
| Numerals.NoLeadingZero | logging/LogStream.cpp:26-59 | a numeral begins with 0 only for the number 0 |
| Numerals.NumeralUnique | logging/LogStream.cpp:26-59 | the numeral is the only digit string without a leading zero that parses to the number |
| Numerals.NumeralLength | logging/LogStream.cpp:26-59 | a numeral has at most k digits if and only if the number is below the k-th power of the base |
| Numerals.SixtyFourBitsFit | logging/LogStream.cpp:63-68 | every 64-bit integer takes at most 20 characters, every 64-bit address at most 16 |

## Left out

- FlatBuffers limits: buffers below 2 GiB, objects below 64 KiB and at most 32765 fields to a table, as the source's assertions and 16-bit slots demand.
- FlatBuffers scalars are bit patterns, so comparing a float with its default is comparing patterns.
- FlatAligned.EveryScalarAligned: a struct is covered when its size is a multiple of its alignment, as in C; `CreateVectorOfStructs` and `ReserveElements` are not modelled; `PreAlign` does not raise `minalign_`, so structs aligned to more than the buffer are not covered by the alignment claim.
- `SetField`, vector iterators, `StartStruct`, `AddStructOffset`, unions and the schema parser in `idl.h` are not modelled.
- Monster.AcceptedExactly: an odd vtable size counts as rejected, where the source would read one byte past the vtable; pointers that overflow the address space are not modelled.
- The protobuf runtime is an abstract pair of serialiser and parser with a set of known type names; generated message code is not modelled.
- Codec.SentIsDelivered: a body is shorter than 2^31 bytes because the runtime's sizes are `int`.
- Codec.SegmentationInvariant: the error callback leaves the buffer alone; how often it is called depends on the chunks.
- `Buffer::ReadInt32` narrows its result to 8 bits and `Shrink` leaves the indices as they are; both are omitted, as are `Swap`, `RetrieveUntil` and the 8- and 16-bit variants.
- TimerQueue.TimerQueue.Loop: the destructor, overflow of 64-bit time stamps and a failing `timerfd_settime` are not modelled; a repeat interval is a whole number of microseconds.
- TimerRuns.EveryRun: the counter of sequence numbers is the queue's own, while the source keeps one static counter for all queues; with several event loops, that every number up to it is live or freed holds only of all queues together.
- TimerQueue.TimerQueue.AddTimerInLoop: calls come on the loop thread, where `RunInLoop` runs them at once; callbacks do not throw.
- BoundedBlockingQueue.NoLostWakeup: fairness is not modelled, so that a particular thread is served is not claimed.
- DbPool.StepKeeps: in the three thread components the shared objects are parts of one state, not classes; connections are numbers and log buffers the messages in them, so two pointers to one buffer cannot arise.
- DbPool.StopGuarantee: pools with no worker (ruled out by an assertion of `ThreadPool::Start`), calls before `Init`, a second caller of `Stop` and null statements, which are ignored, are not modelled.
- DbPool.EmptyStatementFails: the time after Stop has passed the latch, when a waiting empty statement may never be taken, is not covered.
- DbPool.Drain: that Stop always returns is not claimed; `ThreadPool::Stop` notifies without the mutex and may miss a worker about to wait.
- AsyncLogging.LogIsAppended: how long the writing thread waits, rolling of log files and short writes to them are not modelled; what is pending when the thread exits is never written.
- TcpConnection.TcpConnection.Send: calls from other threads are not modelled, where a drain can half-close before a queued send; reading, callbacks other than the write completion and the poller are not modelled.
- LogStream.Convert: floating-point, string and pointer-formatting wrappers other than the two integer printers are not modelled.
- `Connector`, `TcpServer`, `TcpStream`, logging macros, singletons, thread-locals, MySQL calls and name resolution are not modelled.
