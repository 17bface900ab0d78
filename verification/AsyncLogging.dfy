/** Double-buffered asynchronous logging: any number of threads append under a mutex, one thread writes
    the full buffers out and recycles two of them. A step is what a thread does while it holds the
    mutex, or what the writing thread does on its own between two such sections. */
module AsyncLogging {
  import opened Wrappers

  const NOTICE := "Dropped log messages\n"

  /** A log buffer as the messages it holds. Empty options below are null pointers. */
  type Buffer = seq<string>

  function Length(b: Buffer): nat {
    if b == [] then 0 else |b[0]| + Length(b[1..])
  }

  /** FixedBuffer.Append: a message goes in only when more room is left than it needs. */
  function Put(b: Buffer, m: string, capacity: nat): Buffer {
    if capacity - Length(b) > |m| then b + [m] else b
  }

  datatype Writer = Head | Waiting | Writing | Recycling | Exited

  datatype State = State(
    capacity: nat,
    current: Option<Buffer>,
    next: Option<Buffer>,
    buffers: seq<Buffer>,
    running: bool,
    writer: Writer,
    spare1: Option<Buffer>,
    spare2: Option<Buffer>,
    toWrite: seq<Buffer>,
    file: seq<string>,             // what was written, piece by piece
    failed: bool,                  // an assertion failed or a null pointer was used
    appended: seq<string>,         // every message given to Append
    batches: seq<seq<Buffer>>)     // what the writer took each time round

  function Initial(capacity: nat): State {
    State(capacity, Some([]), Some([]), [], true, Head, Some([]), Some([]), [], [], false, [], [])
  }

  datatype Step = Append(m: string) | Stop | Enter | Swap | Write | Recycle

  predicate Enabled(s: State, step: Step) {
    && !s.failed
    && match step
       case Append(m) => true
       case Stop => true
       case Enter => s.writer.Head?
       case Swap => s.writer.Waiting?
       case Write => s.writer.Writing?
       case Recycle => s.writer.Recycling?
  }

  function AppendStep(s: State, m: string): State {
    var s := s.(appended := s.appended + [m]);
    match s.current
    case None => s.(failed := true)
    case Some(b) =>
      if s.capacity - Length(b) > |m| then
        s.(current := Some(Put(b, m, s.capacity)))
      else
        var blank := if s.next.Some? then s.next.value else [];
        s.(buffers := s.buffers + [b], current := Some(Put(blank, m, s.capacity)), next := None)
  }

  /** Everything appended so far is taken to be written, and the buffers in use are replaced. */
  function SwapStep(s: State): State {
    if s.current.None? then s.(failed := true)
    else
      s.(toWrite := s.buffers + [s.current.value], buffers := s.toWrite,
         current := s.spare1, spare1 := None,
         next := if s.next.None? then s.spare2 else s.next,
         spare2 := if s.next.None? then None else s.spare2,
         writer := Writing)
  }

  /** The top of the loop: its assertions, and the wait when there already is something to write. */
  function EnterStep(s: State): State {
    if !s.running then s.(writer := Exited)
    else if s.spare1 != Some([]) || s.spare2 != Some([]) || s.toWrite != [] then s.(failed := true)
    else if s.buffers != [] then s.(writer := Waiting)
    else SwapStep(s)
  }

  function WriteStep(s: State): State {
    if s.toWrite == [] then s.(failed := true)
    else
      s.(file := s.file + Render(s.toWrite), batches := s.batches + [s.toWrite],
         toWrite := if |s.toWrite| > 25 then s.toWrite[|s.toWrite| - 2..] else s.toWrite,
         writer := Recycling)
  }

  /** Two written buffers, reset, take the places of the spares that went into use. */
  function RecycleStep(s: State): State {
    var two := if |s.toWrite| > 2 then s.toWrite[..2] else s.toWrite;
    var rest := if s.spare1.None? && two != [] then two[..|two| - 1] else two;
    if s.spare1.None? && two == [] then s.(failed := true)
    else if s.spare2.None? && rest == [] then s.(failed := true)
    else
      s.(spare1 := if s.spare1.None? then Some([]) else s.spare1,
         spare2 := if s.spare2.None? then Some([]) else s.spare2,
         toWrite := [], writer := Head)
  }

  function Next(s: State, step: Step): State
    requires Enabled(s, step)
  {
    match step
    case Append(m) => AppendStep(s, m)
    case Stop => s.(running := false)
    case Enter => EnterStep(s)
    case Swap => SwapStep(s)
    case Write => WriteStep(s)
    case Recycle => RecycleStep(s)
  }

  ghost predicate RunOk(s: State, steps: seq<Step>)
    decreases |steps|
  {
    |steps| > 0 ==> Enabled(s, steps[0]) && RunOk(Next(s, steps[0]), steps[1..])
  }

  ghost function Run(s: State, steps: seq<Step>): State
    requires RunOk(s, steps)
    decreases |steps|
  {
    if |steps| == 0 then s else Run(Next(s, steps[0]), steps[1..])
  }

  // ---------------------------------------------------------------- what is written

  function Flat(buffers: seq<Buffer>): seq<string> {
    if buffers == [] then [] else buffers[0] + Flat(buffers[1..])
  }

  /** A batch of more than 25 buffers is cut down to the notice and its last two. */
  function Render(batch: seq<Buffer>): seq<string> {
    if |batch| > 25 then [NOTICE] + Flat(batch[|batch| - 2..]) else Flat(batch)
  }

  /** What reaches the file of a batch: the messages of its buffers, in order, or, of a batch of more than 25, a
      notice and the messages of its last two. */
  lemma WrittenExactly(batch: seq<Buffer>)
    ensures |batch| > 25 ==>
              Render(batch) == ["Dropped log messages\n"] + batch[|batch| - 2] + batch[|batch| - 1]
    ensures |batch| <= 25 ==> forall k :: 0 <= k < |batch| ==>
              && |Flat(batch[..k])| + |batch[k]| <= |Render(batch)|
              && Render(batch)[|Flat(batch[..k])|..|Flat(batch[..k])| + |batch[k]|] == batch[k]
  {
    var n := |batch|;
    if n > 25 {
      var two := batch[n - 2..];
      assert two == [] + [batch[n - 2]] + [batch[n - 1]];
      FlatAdd([], batch[n - 2]);
      FlatAdd([] + [batch[n - 2]], batch[n - 1]);
      assert Flat([]) == [];
      hide Flat;
      assert [NOTICE] + ([] + batch[n - 2] + batch[n - 1]) == [NOTICE] + batch[n - 2] + batch[n - 1];
    } else {
      hide Flat;
      forall k | 0 <= k < n
        ensures && |Flat(batch[..k])| + |batch[k]| <= |Flat(batch)|
                && Flat(batch)[|Flat(batch[..k])|..|Flat(batch[..k])| + |batch[k]|] == batch[k]
      {
        FlatConcat(batch[..k], batch[k..]);
        assert batch == batch[..k] + batch[k..];
        FlatFirst(batch[k..]);
      }
    }
  }

  lemma FlatFirst(buffers: seq<Buffer>)
    requires buffers != []
    ensures |Flat(buffers)| >= |buffers[0]| && Flat(buffers)[..|buffers[0]|] == buffers[0]
  {
  }

  /** The loop of the writing thread over one batch. */
  method WriteOut(batch: seq<Buffer>, file: seq<string>) returns (written: seq<string>, kept: seq<Buffer>)
    ensures written == file + Render(batch)
    ensures kept == if |batch| > 25 then batch[|batch| - 2..] else batch
  {
    written, kept := file, batch;
    if |kept| > 25 {
      written := written + [NOTICE];
      kept := kept[|kept| - 2..];
    }
    ghost var start := written;
    assert Flat(kept[..0]) == [];
    hide Flat;
    for n := 0 to |kept|
      invariant written == start + Flat(kept[..n])
    {
      assert kept[..n + 1] == kept[..n] + [kept[n]];
      FlatAdd(kept[..n], kept[n]);
      written := written + kept[n];
    }
    assert kept[..|kept|] == kept;
  }

  ghost function RenderAll(batches: seq<seq<Buffer>>): seq<string> {
    if batches == [] then [] else RenderAll(batches[..|batches| - 1]) + Render(batches[|batches| - 1])
  }

  ghost function FlatAll(batches: seq<seq<Buffer>>): seq<string> {
    if batches == [] then [] else FlatAll(batches[..|batches| - 1]) + Flat(batches[|batches| - 1])
  }

  /** The messages that fit into an empty buffer. */
  ghost function Kept(appended: seq<string>, capacity: nat): seq<string> {
    if appended == [] then []
    else
      var m := appended[|appended| - 1];
      Kept(appended[..|appended| - 1], capacity) + if |m| < capacity then [m] else []
  }

  lemma {:induction false} FlatAdd(buffers: seq<Buffer>, b: Buffer)
    ensures Flat(buffers + [b]) == Flat(buffers) + b
  {
    if buffers == [] {
      assert [b][1..] == [];
    } else {
      assert (buffers + [b])[1..] == buffers[1..] + [b];
      FlatAdd(buffers[1..], b);
    }
  }

  lemma {:induction false} LengthAdd(b: Buffer, m: string)
    ensures Length(b + [m]) == Length(b) + |m|
  {
    if b == [] {
      assert [m][1..] == [];
    } else {
      assert (b + [m])[1..] == b[1..] + [m];
      LengthAdd(b[1..], m);
    }
  }

  // ---------------------------------------------------------------- the invariant

  ghost predicate Fits(b: Buffer, capacity: nat) {
    Length(b) <= capacity && (b != [] ==> Length(b) < capacity)
  }

  /** Where the two spare buffers are. When the next buffer is missing, some buffer is full. */
  ghost predicate Stocked(s: State) {
    && !s.failed
    && s.current.Some?
    && s.next in {None, Some([])}
    && (s.next.None? ==> s.buffers != [])
    && s.spare2 in {None, Some([])}
    && match s.writer
       case Head => s.spare1 == Some([]) && s.spare2 == Some([]) && s.toWrite == []
       case Waiting => s.spare1 == Some([]) && s.spare2 == Some([]) && s.toWrite == []
       case Writing => s.spare1 == None && s.toWrite != [] && (s.spare2.None? ==> |s.toWrite| >= 2)
       case Recycling => s.spare1 == None && s.toWrite != [] && (s.spare2.None? ==> |s.toWrite| >= 2)
       case Exited => s.toWrite == []
  }

  /** No buffer is overfull. */
  ghost predicate AllFit(s: State) {
    && (s.current.Some? ==> Fits(s.current.value, s.capacity))
    && (forall i :: 0 <= i < |s.buffers| ==> Fits(s.buffers[i], s.capacity))
    && (forall i :: 0 <= i < |s.toWrite| ==> Fits(s.toWrite[i], s.capacity))
  }

  /** What waits to be written. */
  ghost function Pending(s: State): seq<string>
    requires s.current.Some?
  {
    (if s.writer.Writing? then Flat(s.toWrite) else []) + Flat(s.buffers) + s.current.value
  }

  ghost predicate Accounted(s: State)
    requires s.current.Some?
  {
    FlatAll(s.batches) + Pending(s) == Kept(s.appended, s.capacity)
  }

  ghost predicate Invariant(s: State) {
    && Stocked(s)
    && AllFit(s)
    && Accounted(s)
    && s.file == RenderAll(s.batches)
  }

  lemma StockedKeeps(s: State, step: Step)
    requires Stocked(s) && Enabled(s, step)
    ensures Stocked(Next(s, step))
  {
    hide Length, Flat, Render;
  }

  lemma PutFits(b: Buffer, m: string, capacity: nat)
    requires Fits(b, capacity)
    ensures Fits(Put(b, m, capacity), capacity)
    ensures Put([], m, capacity) == if |m| < capacity then [m] else []
  {
    LengthAdd(b, m);
  }

  lemma AppendFits(s: State, m: string)
    requires s.current.Some? && s.next in {None, Some([])} && AllFit(s)
    ensures AllFit(AppendStep(s, m))
  {
    PutFits(s.current.value, m, s.capacity);
    PutFits([], m, s.capacity);
    assert Fits([], s.capacity);
    hide Fits, Put, Length;
  }

  lemma FitKeeps(s: State, step: Step)
    requires Stocked(s) && AllFit(s) && Enabled(s, step)
    ensures AllFit(Next(s, step))
  {
    if step.Append? {
      AppendFits(s, step.m);
    }
    assert Fits([], s.capacity);
    hide Fits, Put, Length, Flat, Render, AppendStep;
  }

  ghost function IfFits(m: string, capacity: nat): seq<string> {
    if |m| < capacity then [m] else []
  }

  lemma Associates<T>(a: seq<T>, b: seq<T>, c: seq<T>)
    ensures (a + b) + c == a + (b + c)
  {
  }

  lemma Regroup<T>(a: seq<T>, b: seq<T>, c: seq<T>, d: seq<T>)
    ensures (a + b) + (c + d) == a + (b + c + d)
    ensures (a + b + c) + d == a + b + (c + d)
  {
  }

  /** An append adds the message to what is pending when it fits, and otherwise nothing. */
  lemma AppendPending(s: State, m: string)
    requires s.current.Some? && s.next in {None, Some([])}
    ensures var r := AppendStep(s, m);
            r.current.Some? && Pending(r) == Pending(s) + IfFits(m, s.capacity)
  {
    var b, r := s.current.value, AppendStep(s, m);
    var w := if s.writer.Writing? then Flat(s.toWrite) else [];
    Regroup(w, Flat(s.buffers), b, IfFits(m, s.capacity));
    assert Pending(s) == w + Flat(s.buffers) + b;
    AppendBuffers(s, m);
    assert Pending(r) == w + Flat(r.buffers) + r.current.value;
    hide Flat, Length, Put, AppendStep, Pending;
    if s.capacity - Length(b) <= |m| {
      FlatAdd(s.buffers, b);
      Associates(w, Flat(s.buffers), b);
    }
  }

  /** Where an append leaves the message and the buffer it found. */
  lemma AppendBuffers(s: State, m: string)
    requires s.current.Some? && s.next in {None, Some([])}
    ensures var b, r := s.current.value, AppendStep(s, m);
            && r.current.Some? && r.writer == s.writer && r.toWrite == s.toWrite
            && if s.capacity - Length(b) > |m|
               then r.buffers == s.buffers && r.current.value == b + IfFits(m, s.capacity)
               else r.buffers == s.buffers + [b] && r.current.value == IfFits(m, s.capacity)
  {
    PutFits([], m, s.capacity);
    hide Flat;
  }

  lemma AppendAccounted(s: State, m: string)
    requires s.current.Some? && s.next in {None, Some([])} && Accounted(s)
    ensures var r := AppendStep(s, m); r.current.Some? && Accounted(r)
  {
    var r := AppendStep(s, m);
    AppendPending(s, m);
    assert r.appended == s.appended + [m] && r.batches == s.batches && r.capacity == s.capacity;
    KeptAdd(s.appended, m, s.capacity);
    hide Flat, FlatAll, Kept, AppendStep, Pending, IfFits;
    Associates(FlatAll(s.batches), Pending(s), IfFits(m, s.capacity));
  }

  lemma SwapAccounted(s: State)
    requires Stocked(s) && Accounted(s) && (s.writer.Head? || s.writer.Waiting?)
    ensures var r := SwapStep(s); r.current.Some? && Accounted(r)
  {
    var r := SwapStep(s);
    FlatAdd(s.buffers, s.current.value);
    assert r.current == Some([]) && r.buffers == [];
    assert Pending(r) == Pending(s);
  }

  lemma WriteAccounted(s: State)
    requires s.current.Some? && s.toWrite != [] && s.writer.Writing? && Accounted(s) && s.file == RenderAll(s.batches)
    ensures var r := WriteStep(s); r.current.Some? && Accounted(r) && r.file == RenderAll(r.batches)
  {
    var r := WriteStep(s);
    assert r.batches == s.batches + [s.toWrite] && r.file == s.file + Render(s.toWrite);
    assert r.batches[..|r.batches| - 1] == s.batches;
    assert FlatAll(r.batches) == FlatAll(s.batches) + Flat(s.toWrite);
    assert Pending(r) == Flat(s.buffers) + s.current.value by {
      assert [] + Flat(s.buffers) == Flat(s.buffers);
    }
    Regroup(FlatAll(s.batches), Flat(s.toWrite), Flat(s.buffers), s.current.value);
    assert Pending(s) == Flat(s.toWrite) + Flat(s.buffers) + s.current.value;
    assert RenderAll(r.batches) == r.file;
    hide Flat, Render, RenderAll, FlatAll, Kept, Pending;
  }

  lemma OtherAccounted(s: State, step: Step)
    requires Stocked(s) && Accounted(s) && Enabled(s, step) && (step.Stop? || step.Recycle? || step.Enter?)
    ensures var r := Next(s, step);
            r.current.Some? && Accounted(r) && r.file == s.file && r.batches == s.batches
  {
    if step.Enter? && s.running && s.buffers == [] {
      SwapAccounted(s);
    }
    hide Flat, FlatAll, Kept;
  }

  lemma AccountedKeeps(s: State, step: Step)
    requires Stocked(s) && AllFit(s) && Accounted(s) && s.file == RenderAll(s.batches) && Enabled(s, step)
    requires Stocked(Next(s, step))
    ensures var r := Next(s, step); Accounted(r) && r.file == RenderAll(r.batches) && r.capacity == s.capacity
  {
    hide AllFit, Accounted, RenderAll;
    match step
    case Append(m) => AppendAccounted(s, m);
    case Swap => SwapAccounted(s);
    case Write => WriteAccounted(s);
    case _ => OtherAccounted(s, step);
  }

  lemma StepKeeps(s: State, step: Step)
    requires Invariant(s) && Enabled(s, step)
    ensures Invariant(Next(s, step))
    ensures Next(s, step).capacity == s.capacity
  {
    StockedKeeps(s, step);
    FitKeeps(s, step);
    AccountedKeeps(s, step);
    hide AllFit, Accounted, RenderAll, Next, Enabled;
  }

  lemma {:induction false} RunKeeps(s: State, steps: seq<Step>)
    requires Invariant(s) && RunOk(s, steps)
    ensures Invariant(Run(s, steps)) && Run(s, steps).capacity == s.capacity
    decreases |steps|
  {
    if |steps| > 0 {
      StepKeeps(s, steps[0]);
      hide Invariant, Enabled, Next;
      RunKeeps(Next(s, steps[0]), steps[1..]);
    }
  }

  // ---------------------------------------------------------------- what it means

  /** In every interleaving no assertion fails and no null buffer is used; both spare buffers are there
      and empty whenever the writing thread is at the top of its loop. */
  lemma NeverFails(capacity: nat, steps: seq<Step>)
    requires RunOk(Initial(capacity), steps)
    ensures var s := Run(Initial(capacity), steps);
            !s.failed && (s.writer.Head? ==> s.spare1 == Some([]) && s.spare2 == Some([]) && s.toWrite == [])
  {
    RunKeeps(Initial(capacity), steps);
  }

  /** In every interleaving the batches taken so far followed by what is pending are exactly the
      messages that fit into a buffer, in the order appended, each whole in one buffer; and the file
      holds those batches, rendered. */
  lemma LogIsAppended(capacity: nat, steps: seq<Step>)
    requires RunOk(Initial(capacity), steps)
    ensures var s := Run(Initial(capacity), steps);
            && s.current.Some?
            && FlatAll(s.batches) + Pending(s) == Kept(s.appended, capacity)
            && s.file == RenderAll(s.batches)
  {
    RunKeeps(Initial(capacity), steps);
  }

  /** The writing thread ends at the first test of its loop after Stop, and at no other time; before that it
      takes, at the wait or at once when nothing is handed over, everything there is. */
  lemma LoopExactly(s: State, step: Step)
    requires Stocked(s) && Enabled(s, step)
    ensures var r := Next(s, step);
            && (r.writer.Exited? <==> s.writer.Exited? || (step.Enter? && !s.running))
            && (r.running <==> s.running && !step.Stop?)
            && (step.Enter? && s.running && s.buffers != [] ==> r == s.(writer := Waiting))
            && (step.Swap? || (step.Enter? && s.running && s.buffers == []) ==>
                  r.writer.Writing? && r.toWrite == s.buffers + [s.current.value] && r.buffers == []
                  && r.current == Some([]))
            && (step.Recycle? ==> r.spare1 == Some([]) && r.spare2 == Some([]) && r.toWrite == [])
  {
    hide Flat, Render, Length;
  }

  ghost function Present(b: Option<Buffer>): nat {
    if b.Some? then 1 else 0
  }

  /** The spares that have to be replaced. */
  ghost function Missing(s: State): nat {
    2 - Present(s.spare1) - Present(s.spare2)
  }

  /** Exactly when an assertion fails or a null buffer is used, in whatever state: on appending or taking without
      a current buffer, at the top of the loop without two empty spares or with something left over, on writing
      nothing, and on recycling fewer buffers than are missing. */
  lemma FailsExactly(s: State, step: Step)
    requires Enabled(s, step)
    ensures Next(s, step).failed <==>
            match step
            case Append(_) => s.current.None?
            case Stop => false
            case Enter =>
              && s.running
              && (s.spare1 != Some([]) || s.spare2 != Some([]) || s.toWrite != [] ||
                  (s.buffers == [] && s.current.None?))
            case Swap => s.current.None?
            case Write => s.toWrite == []
            case Recycle => Missing(s) > |s.toWrite|
  {
    hide Render, Put;
  }

  /** The buffers there are, each in one place. */
  ghost function InUse(s: State): nat {
    |s.buffers| + |s.toWrite| + Present(s.current) + Present(s.next) + Present(s.spare1) + Present(s.spare2)
  }

  /** No buffer comes to be in two places: one is made only by an append that finds no room and no next buffer,
      and given back only by the writing thread, all but two of a batch that is cut and, after writing, all but
      those that replace a spare. */
  lemma OneOwner(s: State, step: Step)
    requires Stocked(s) && Enabled(s, step)
    ensures var r := Next(s, step);
            InUse(r) ==
              match step
              case Append(m) =>
                InUse(s) + if s.capacity - Length(s.current.value) <= |m| && s.next.None? then 1 else 0
              case Write => if |s.toWrite| > 25 then InUse(s) - |s.toWrite| + 2 else InUse(s)
              case Recycle => InUse(s) - |s.toWrite| + Missing(s)
              case _ => InUse(s)
  {
    hide Render, Length;
  }

  /** Nothing is written any more once it has ended. */
  lemma {:induction false} NothingAfterExit(s: State, steps: seq<Step>)
    requires s.writer.Exited? && RunOk(s, steps)
    ensures Run(s, steps).writer.Exited? && Run(s, steps).file == s.file
    decreases |steps|
  {
    if |steps| > 0 {
      assert Next(s, steps[0]).writer.Exited? && Next(s, steps[0]).file == s.file;
      hide Next, Enabled;
      NothingAfterExit(Next(s, steps[0]), steps[1..]);
    }
  }

  // ---------------------------------------------------------------- what is lost

  ghost predicate AllSmall(appended: seq<string>, capacity: nat) {
    forall i :: 0 <= i < |appended| ==> |appended[i]| < capacity
  }

  ghost predicate NoneCut(batches: seq<seq<Buffer>>) {
    forall i :: 0 <= i < |batches| ==> |batches[i]| <= 25
  }

  ghost function Empties(buffers: seq<Buffer>): nat {
    if buffers == [] then 0
    else Empties(buffers[..|buffers| - 1]) + if buffers[|buffers| - 1] == [] then 1 else 0
  }

  /** A batch without its last buffer, the one that was current. */
  ghost function Front(batch: seq<Buffer>): seq<Buffer> {
    if batch == [] then [] else batch[..|batch| - 1]
  }

  ghost function FrontEmpties(batches: seq<seq<Buffer>>): nat {
    if batches == [] then 0
    else FrontEmpties(batches[..|batches| - 1]) + Empties(Front(batches[|batches| - 1]))
  }

  /** An empty buffer is handed over only for a message too large for it, which is not kept. */
  ghost predicate EmptiesPaid(s: State) {
    FrontEmpties(s.batches) + (if s.writer.Writing? then Empties(Front(s.toWrite)) else 0) + Empties(s.buffers)
      + |Kept(s.appended, s.capacity)| <= |s.appended|
  }

  lemma EmptiesAdd(buffers: seq<Buffer>, b: Buffer)
    ensures Empties(buffers + [b]) == Empties(buffers) + if b == [] then 1 else 0
  {
    assert (buffers + [b])[..|buffers|] == buffers;
  }

  lemma KeptAdd(appended: seq<string>, m: string, capacity: nat)
    ensures Kept(appended + [m], capacity) == Kept(appended, capacity) + IfFits(m, capacity)
  {
    assert (appended + [m])[..|appended|] == appended;
  }

  lemma AppendEmpties(s: State, m: string)
    requires s.current.Some? && s.next in {None, Some([])}
    ensures var r := AppendStep(s, m);
            && r == s.(appended := s.appended + [m], buffers := r.buffers, current := r.current, next := r.next)
            && Empties(r.buffers) + |IfFits(m, s.capacity)| <= Empties(s.buffers) + 1
  {
    AppendBuffers(s, m);
    EmptiesAdd(s.buffers, s.current.value);
    hide Empties, Put;
  }

  lemma AppendPaid(s: State, m: string)
    requires s.current.Some? && s.next in {None, Some([])} && EmptiesPaid(s)
    ensures EmptiesPaid(AppendStep(s, m))
  {
    AppendEmpties(s, m);
    KeptAdd(s.appended, m, s.capacity);
    hide Kept, Empties, Front, FrontEmpties, AppendStep, IfFits;
  }

  lemma SwapPaid(s: State)
    requires Stocked(s) && EmptiesPaid(s) && (s.writer.Head? || s.writer.Waiting?)
    ensures EmptiesPaid(SwapStep(s))
  {
    var r := SwapStep(s);
    assert Front(r.toWrite) == s.buffers && r.buffers == [];
    hide Kept, FrontEmpties, Flat;
  }

  lemma WritePaid(s: State)
    requires s.toWrite != [] && s.writer.Writing? && EmptiesPaid(s)
    ensures EmptiesPaid(WriteStep(s))
  {
    var r := WriteStep(s);
    assert r.batches == s.batches + [s.toWrite] && r.batches[..|s.batches|] == s.batches;
    hide Kept, Front, Empties, Flat, Render;
  }

  lemma PaidKeeps(s: State, step: Step)
    requires Stocked(s) && EmptiesPaid(s) && Enabled(s, step)
    ensures EmptiesPaid(Next(s, step))
  {
    hide Kept, Front, FrontEmpties, Empties, Flat, Render, AppendStep;
    match step
    case Append(m) => AppendPaid(s, m);
    case Swap => SwapPaid(s);
    case Write => WritePaid(s);
    case Enter => if s.running && s.buffers == [] { SwapPaid(s); }
    case _ =>
  }

  lemma {:induction false} RunPaid(s: State, steps: seq<Step>)
    requires Stocked(s) && EmptiesPaid(s) && RunOk(s, steps)
    ensures EmptiesPaid(Run(s, steps))
    decreases |steps|
  {
    if |steps| > 0 {
      StockedKeeps(s, steps[0]);
      PaidKeeps(s, steps[0]);
      hide Stocked, EmptiesPaid, Enabled, Next;
      RunPaid(Next(s, steps[0]), steps[1..]);
    }
  }

  lemma {:induction false} FlatConcat(xs: seq<Buffer>, ys: seq<Buffer>)
    ensures Flat(xs + ys) == Flat(xs) + Flat(ys)
  {
    if xs == [] {
      assert xs + ys == ys;
    } else {
      assert (xs + ys)[1..] == xs[1..] + ys;
      FlatConcat(xs[1..], ys);
    }
  }

  /** Every buffer that is not empty holds a message at least. */
  lemma {:induction false} FlatAtLeast(buffers: seq<Buffer>)
    ensures |Flat(buffers)| + Empties(buffers) >= |buffers|
  {
    if buffers != [] {
      var n := |buffers| - 1;
      FlatAtLeast(buffers[..n]);
      FlatAdd(buffers[..n], buffers[n]);
      assert buffers == buffers[..n] + [buffers[n]];
    }
  }

  /** Cutting a batch loses more than the notice makes up for, unless its buffers were empty. */
  lemma CutShortens(batch: seq<Buffer>)
    requires |batch| > 25
    ensures |Render(batch)| < |Flat(batch)| + Empties(Front(batch))
  {
    var n := |batch| - 2;
    assert batch == batch[..n] + batch[n..];
    FlatConcat(batch[..n], batch[n..]);
    FlatAtLeast(batch[..n]);
    assert Front(batch)[..n] == batch[..n];
    hide Flat;
  }

  lemma {:induction false} RenderedLength(batches: seq<seq<Buffer>>)
    ensures |RenderAll(batches)| <= |FlatAll(batches)| + FrontEmpties(batches)
    ensures !NoneCut(batches) ==> |RenderAll(batches)| < |FlatAll(batches)| + FrontEmpties(batches)
    ensures NoneCut(batches) ==> RenderAll(batches) == FlatAll(batches)
  {
    if batches != [] {
      var n := |batches| - 1;
      RenderedLength(batches[..n]);
      if |batches[n]| > 25 {
        CutShortens(batches[n]);
      }
      assert NoneCut(batches) <==> NoneCut(batches[..n]) && |batches[n]| <= 25;
      hide Flat, Empties, Front, NoneCut;
    }
  }

  lemma {:induction false} KeptLength(appended: seq<string>, capacity: nat)
    ensures |Kept(appended, capacity)| <= |appended|
    ensures |Kept(appended, capacity)| == |appended| <==> AllSmall(appended, capacity)
    ensures AllSmall(appended, capacity) ==> Kept(appended, capacity) == appended
  {
    if appended != [] {
      var n := |appended| - 1;
      KeptLength(appended[..n], capacity);
      assert AllSmall(appended, capacity) <==> AllSmall(appended[..n], capacity) && |appended[n]| < capacity;
      assert appended == appended[..n] + [appended[n]];
    }
  }

  /** In every interleaving the file followed by what is pending is everything that was appended, in
      order, exactly as long as every message is smaller than a buffer and no batch exceeds 25 buffers. */
  lemma NothingLost(capacity: nat, steps: seq<Step>)
    requires RunOk(Initial(capacity), steps)
    ensures var s := Run(Initial(capacity), steps);
            && s.current.Some?
            && (s.file + Pending(s) == s.appended <==> AllSmall(s.appended, capacity) && NoneCut(s.batches))
  {
    var s := Run(Initial(capacity), steps);
    RunKeeps(Initial(capacity), steps);
    RunPaid(Initial(capacity), steps);
    RenderedLength(s.batches);
    KeptLength(s.appended, capacity);
    hide AllSmall, NoneCut, RenderAll, FlatAll, Kept, Pending, FrontEmpties, Empties, Front, AllFit;
  }

  /** A message enters what is pending exactly when it is smaller than an empty buffer; one that is not
      vanishes, and still sends the current buffer off to be written. */
  lemma PendingExactlyWhenSmall(capacity: nat, steps: seq<Step>, m: string)
    requires RunOk(Initial(capacity), steps)
    ensures var s := Run(Initial(capacity), steps);
            var r := AppendStep(s, m);
            && s.current.Some? && r.current.Some?
            && Pending(r) == Pending(s) + (if |m| < capacity then [m] else [])
            && (|m| >= capacity ==> r.buffers == s.buffers + [s.current.value] && r.current.value == [])
  {
    RunKeeps(Initial(capacity), steps);
    var s := Run(Initial(capacity), steps);
    AppendPending(s, m);
    hide Flat, FlatAll;
  }

  // ---------------------------------------------------------------- a run that loses messages

  lemma {:induction false} RunConcat(s: State, xs: seq<Step>, ys: seq<Step>)
    requires RunOk(s, xs) && RunOk(Run(s, xs), ys)
    ensures RunOk(s, xs + ys) && Run(s, xs + ys) == Run(Run(s, xs), ys)
    decreases |xs|
  {
    hide Enabled, Next;
    if |xs| > 0 {
      assert (xs + ys)[1..] == xs[1..] + ys;
      RunConcat(Next(s, xs[0]), xs[1..], ys);
    } else {
      assert xs + ys == ys;
    }
  }

  function Copies<T>(n: nat, x: T): seq<T> {
    seq(n, _ => x)
  }

  /** Buffers that take one message of one character: each further message fills another one. */
  ghost predicate Filling(s: State, n: nat) {
    && !s.failed && s.capacity == 2 && s.running && s.writer.Head?
    && s.spare1 == Some([]) && s.spare2 == Some([]) && s.toWrite == [] && s.batches == []
    && s.next in {None, Some([])}
    && s.current.Some? && s.current.value in {[], ["x"]} && (s.current.value == [] ==> n == 0)
    && |s.buffers| + 1 == (if s.current.value == [] then 1 else n)
    && s.appended == Copies(n, "x")
  }

  lemma FillingStep(s: State, n: nat)
    requires Filling(s, n)
    ensures Enabled(s, Append("x")) && Filling(Next(s, Append("x")), n + 1)
  {
    LengthAdd([], "x");
    assert [] + ["x"] == ["x"];
    AppendBuffers(s, "x");
    assert Copies(n, "x") + ["x"] == Copies(n + 1, "x");
  }

  lemma {:induction false} FillingRun(n: nat)
    ensures var steps := Copies(n, Append("x"));
            RunOk(Initial(2), steps) && Filling(Run(Initial(2), steps), n)
  {
    if n > 0 {
      var steps, last := Copies(n - 1, Append("x")), [Append("x")];
      FillingRun(n - 1);
      FillingStep(Run(Initial(2), steps), n - 1);
      hide Filling, Enabled, Next;
      assert last[1..] == [];
      RunConcat(Initial(2), steps, last);
      assert steps + last == Copies(n, Append("x"));
    }
  }

  /** The writing thread comes and takes all of them. */
  lemma TakenAtOnce(s: State, n: nat)
    requires Filling(s, n) && n >= 2
    ensures var steps := [Enter, Swap, Write];
            && RunOk(s, steps)
            && var r := Run(s, steps);
               r.appended == s.appended && |r.batches| == 1 && |r.batches[0]| == n
  {
    var s1 := EnterStep(s);
    var s2 := SwapStep(s1);
    var s3 := WriteStep(s2);
    assert s3.appended == s.appended && |s3.batches| == 1 && |s3.batches[0]| == n by {
      hide Render, Copies;
    }
    assert Enabled(s, Enter) && Next(s, Enter) == s1;
    assert Enabled(s1, Swap) && Next(s1, Swap) == s2;
    assert Enabled(s2, Write) && Next(s2, Write) == s3;
    var last := [Enter, Swap, Write];
    hide Next, Enabled, Filling, Copies, EnterStep, SwapStep, WriteStep;
    assert last[1..] == [Swap, Write] && last[1..][1..] == [Write] && last[1..][1..][1..] == [];
    assert RunOk(s2, last[1..][1..]) && Run(s2, last[1..][1..]) == s3;
    assert RunOk(s1, last[1..]) && Run(s1, last[1..]) == s3;
  }

  /** Messages that fill a buffer each, all of them smaller than it, and appended before the writing
      thread comes to write: some are lost exactly when there are more than 25. */
  lemma SmallMessagesLost(n: nat)
    requires n >= 2
    ensures var steps := Copies(n, Append("x")) + [Enter, Swap, Write];
            && RunOk(Initial(2), steps)
            && var s := Run(Initial(2), steps);
               && s.appended == Copies(n, "x") && AllSmall(s.appended, 2) && s.current.Some?
               && (s.file + Pending(s) == s.appended <==> n <= 25)
  {
    var fill, last := Copies(n, Append("x")), [Enter, Swap, Write];
    FillingRun(n);
    var s := Run(Initial(2), fill);
    TakenAtOnce(s, n);
    assert s.appended == Copies(n, "x");
    hide Filling, RunOk, Run, Pending;
    RunConcat(Initial(2), fill, last);
    NothingLost(2, fill + last);
  }
}
