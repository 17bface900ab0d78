/** The output side of a connection, seen from its loop thread: what each call does to the bytes waiting
    to be written, and what a whole run of calls keeps. */
module TcpSpec {
  import opened Bytes

  datatype Phase = Connecting | Connected | Disconnecting | Disconnected

  datatype State = State(
    phase: Phase,
    writing: bool,            // the channel asks to be told when the socket can be written
    output: seq<Byte>,        // bytes waiting in the output buffer
    wire: seq<Byte>,          // bytes the socket has taken
    shutDowns: nat,           // how often the write side was shut down
    completions: nat,         // write-complete callbacks queued
    aborted: bool,            // a failed write in HandleWrite ends the process
    accepted: seq<Byte>)      // everything given to Send while connected

  /** result is what the system call write returns if it is made: a byte count, or -1. */
  datatype Event =
    | Established
    | Send(data: seq<Byte>, result: int)
    | ShutDown
    | HandleWrite(result: int)
    | HandleClose
    | Destroyed

  const INITIAL := State(Connecting, false, [], [], 0, 0, false, [])

  /** A run calls only what the source's assertions allow, and write returns what it can return. */
  predicate Legal(s: State, e: Event) {
    && !s.aborted
    && match e
       case Established => s.phase.Connecting?
       case Send(data, result) => -1 <= result <= |data|
       case ShutDown => true
       case HandleWrite(result) => -1 <= result <= |s.output|
       case HandleClose => s.phase.Connected? || s.phase.Disconnecting?
       case Destroyed => s.phase.Connected? || s.phase.Disconnecting?
  }

  function SendInLoop(s: State, data: seq<Byte>, result: int): State
    requires result <= |data|
  {
    if s.phase.Disconnected? then s
    else
      var direct := !s.writing && s.output == [];
      var taken := if direct && result >= 0 then result else 0;
      var rest := data[taken..];
      s.(wire := s.wire + data[..taken],
         completions := if direct && result >= 0 && rest == [] then s.completions + 1 else s.completions,
         output := s.output + rest,
         writing := s.writing || rest != [])
  }

  function ShutDownInLoop(s: State): State {
    if s.writing then s else s.(shutDowns := s.shutDowns + 1)
  }

  function Drain(s: State, result: int): State
    requires -1 <= result <= |s.output|
  {
    if !s.writing then s
    else if result <= 0 then s.(aborted := true)
    else
      var t := s.(wire := s.wire + s.output[..result], output := s.output[result..]);
      if t.output != [] then t
      else
        var u := t.(writing := false, completions := t.completions + 1);
        if u.phase.Disconnecting? then ShutDownInLoop(u) else u
  }

  function Next(s: State, e: Event): State
    requires Legal(s, e)
  {
    match e
    case Established => s.(phase := Connected)
    case Send(data, result) =>
      if s.phase.Connected? then SendInLoop(s.(accepted := s.accepted + data), data, result) else s
    case ShutDown =>
      if s.phase.Connected? then ShutDownInLoop(s.(phase := Disconnecting)) else s
    case HandleWrite(result) => Drain(s, result)
    case HandleClose => s.(writing := false)
    case Destroyed => s.(phase := Disconnected, writing := false)
  }

  ghost predicate RunLegal(s: State, events: seq<Event>)
    decreases |events|
  {
    |events| > 0 ==> Legal(s, events[0]) && RunLegal(Next(s, events[0]), events[1..])
  }

  ghost function Run(s: State, events: seq<Event>): State
    requires RunLegal(s, events)
    decreases |events|
  {
    if |events| == 0 then s else Run(Next(s, events[0]), events[1..])
  }

  // ---------------------------------------------------------------- what every run keeps

  /** No byte is lost, doubled or reordered. */
  ghost predicate Conserved(s: State) {
    s.wire + s.output == s.accepted
  }

  /** At most one half-close, never while connected, and nothing is written after it. */
  ghost predicate ShutOnce(s: State) {
    && s.shutDowns <= 1
    && (s.phase.Connecting? || s.phase.Connected? ==> s.shutDowns == 0)
    && (s.shutDowns == 1 ==> !s.writing)
    && (s.phase.Connecting? || s.phase.Disconnected? ==> !s.writing)
  }

  ghost predicate Always(s: State) {
    Conserved(s) && ShutOnce(s) && (s.writing ==> s.output != [])
  }

  /** While the connection was never closed with bytes waiting: writing is enabled exactly when there is
      something to write, and after ShutDown the half-close happens exactly when nothing is left. */
  ghost predicate Orderly(s: State) {
    && (s.writing <==> s.output != [])
    && (s.shutDowns == 1 ==> s.wire == s.accepted)
    && (s.phase.Disconnecting? ==> (s.shutDowns == 1 <==> s.output == []))
  }

  lemma SendConserves(s: State, data: seq<Byte>, result: int)
    requires Conserved(s) && -1 <= result <= |data| && !s.phase.Disconnected?
    ensures Conserved(SendInLoop(s.(accepted := s.accepted + data), data, result))
  {
    var taken := if !s.writing && s.output == [] && result >= 0 then result else 0;
    assert data == data[..taken] + data[taken..];
    if taken == 0 {
      assert data[..taken] == [] && data[taken..] == data;
      assert s.wire + [] == s.wire;
      assert s.wire + (s.output + data) == s.accepted + data;
    } else {
      assert s.wire == s.accepted;
      assert [] + data[taken..] == data[taken..];
      assert (s.wire + data[..taken]) + data[taken..] == s.accepted + data;
    }
  }

  lemma DrainConserves(s: State, result: int)
    requires Conserved(s) && -1 <= result <= |s.output|
    ensures Conserved(Drain(s, result))
  {
    if result > 0 {
      assert s.output == s.output[..result] + s.output[result..];
      assert (s.wire + s.output[..result]) + s.output[result..] == s.wire + s.output;
    }
  }

  lemma StepKeeps(s: State, e: Event)
    requires Always(s) && Legal(s, e)
    ensures Always(Next(s, e))
  {
    match e
    case Send(data, result) => if s.phase.Connected? { SendConserves(s, data, result); }
    case HandleWrite(result) => DrainConserves(s, result);
    case _ =>
  }

  /** A step that closes does so with nothing waiting. */
  ghost predicate Quiet(s: State, e: Event) {
    e.HandleClose? || e.Destroyed? ==> s.output == []
  }

  lemma OrderlyKeeps(s: State, e: Event)
    requires Always(s) && Orderly(s) && Legal(s, e) && Quiet(s, e)
    ensures Orderly(Next(s, e))
  {
    StepKeeps(s, e);
  }

  ghost predicate RunQuiet(s: State, events: seq<Event>)
    requires RunLegal(s, events)
    decreases |events|
  {
    |events| > 0 ==> Quiet(s, events[0]) && RunQuiet(Next(s, events[0]), events[1..])
  }

  /** Over any run of calls, partial writes and closings: what the socket took followed by what waits is
      what Send accepted, in order, and the write side is shut down at most once. */
  lemma {:induction false} RunKeeps(s: State, events: seq<Event>)
    requires Always(s) && RunLegal(s, events)
    ensures Always(Run(s, events))
    ensures Orderly(s) && RunQuiet(s, events) ==> Orderly(Run(s, events))
    decreases |events|
  {
    if |events| > 0 {
      StepKeeps(s, events[0]);
      if Orderly(s) && Quiet(s, events[0]) {
        OrderlyKeeps(s, events[0]);
      }
      hide Always, Orderly, Legal, Next;
      RunKeeps(Next(s, events[0]), events[1..]);
    }
  }

  // ---------------------------------------------------------------- what it means

  /** What a send does. Nothing is written, and nothing waits, unless the connection is up. With nothing waiting
      and writing off the bytes go out at once, as many as the socket takes; the rest waits, with writing on,
      and with no rest the completion is queued. In every other case all of them wait behind what waits. */
  lemma SendExactly(s: State, data: seq<Byte>, result: int)
    requires Legal(s, Send(data, result))
    ensures var r := Next(s, Send(data, result));
            && (!s.phase.Connected? ==> r == s)
            && (s.phase.Connected? ==>
                  && r.accepted == s.accepted + data
                  && r.phase == s.phase && r.shutDowns == s.shutDowns && !r.aborted
                  && if !s.writing && s.output == [] && result >= 0
                     then && r.wire == s.wire + data[..result] && r.output == data[result..]
                          && (r.writing <==> result < |data|)
                          && r.completions == s.completions + (if result == |data| then 1 else 0)
                     else && r.wire == s.wire && r.output == s.output + data
                          && (r.writing <==> s.writing || data != [])
                          && r.completions == s.completions)
  {
    assert data[..0] == [] && data[0..] == data && s.wire + [] == s.wire;
    if 0 <= result && s.output == [] {
      assert s.output + data[result..] == data[result..];
    }
  }

  /** What a writable socket leads to: nothing when writing is off; the end of the process when the write fails;
      otherwise the bytes taken leave the output, and with the last of them writing goes off, the completion is
      queued, and a half-close that was waiting for it is made. */
  lemma WriteExactly(s: State, result: int)
    requires Legal(s, HandleWrite(result))
    ensures var r := Next(s, HandleWrite(result));
            && (r.aborted <==> s.writing && result <= 0)
            && (!s.writing || result <= 0 ==> r == s.(aborted := r.aborted))
            && (s.writing && result > 0 ==>
                  && r.phase == s.phase && r.accepted == s.accepted
                  && r.wire == s.wire + s.output[..result] && s.output == s.output[..result] + r.output
                  && (r.writing <==> result < |s.output|)
                  && r.completions == s.completions + (if result == |s.output| then 1 else 0)
                  && r.shutDowns ==
                     s.shutDowns + if result == |s.output| && s.phase.Disconnecting? then 1 else 0)
  {
  }

  /** The other calls move no byte. ShutDown takes a connection that is up to Disconnecting, with the half-close
      at once when writing is off, and does nothing otherwise; a connection that is gone sends no more. */
  lemma CallsExactly(s: State, e: Event)
    requires Legal(s, e) && !e.Send? && !e.HandleWrite?
    ensures var r := Next(s, e);
            && r.wire == s.wire && r.output == s.output && r.accepted == s.accepted
            && r.completions == s.completions && !r.aborted
            && r.phase == (match e
                           case Established => Connected
                           case ShutDown => if s.phase.Connected? then Disconnecting else s.phase
                           case Destroyed => Disconnected
                           case _ => s.phase)
            && r.shutDowns == s.shutDowns + (if e.ShutDown? && s.phase.Connected? && !s.writing then 1 else 0)
            && r.writing == (s.writing && !e.HandleClose? && !e.Destroyed?)
  {
  }

  /** Whatever the writes return and whenever the connection is closed. */
  lemma BytesKept(events: seq<Event>)
    requires RunLegal(INITIAL, events)
    ensures var s := Run(INITIAL, events); s.wire + s.output == s.accepted && s.shutDowns <= 1
  {
    assert [] + INITIAL.output == INITIAL.accepted;
    RunKeeps(INITIAL, events);
  }

  /** The half-close comes last: it happens at most once, only after every accepted byte was written, and
      once ShutDown was called it has happened exactly when nothing is waiting any more. */
  lemma HalfCloseLast(events: seq<Event>)
    requires RunLegal(INITIAL, events) && RunQuiet(INITIAL, events)
    ensures var s := Run(INITIAL, events);
            && (s.writing <==> s.output != [])
            && (s.shutDowns == 1 ==> s.wire == s.accepted)
            && (s.phase.Disconnecting? ==> (s.shutDowns == 1 <==> s.output == []))
  {
    RunKeeps(INITIAL, events);
  }

  /** The half-close, if there was one, came after every accepted byte. */
  ghost predicate InOrder(s: State) {
    s.shutDowns == 1 ==> s.wire == s.accepted
  }

  /** ShutDown on a connection that has bytes waiting but does not ask to be told when it can write. */
  ghost predicate Early(s: State, e: Event) {
    e.ShutDown? && s.phase.Connected? && !s.writing && s.output != []
  }

  ghost predicate NeverEarly(s: State, events: seq<Event>)
    requires RunLegal(s, events)
    decreases |events|
  {
    |events| > 0 ==> !Early(s, events[0]) && NeverEarly(Next(s, events[0]), events[1..])
  }

  lemma StepOrder(s: State, e: Event)
    requires Always(s) && Legal(s, e)
    ensures InOrder(Next(s, e)) <==> InOrder(s) && !Early(s, e)
  {
    var r := Next(s, e);
    StepKeeps(s, e);
    assert r.output == [] ==> r.wire + r.output == r.wire;
    assert |r.accepted| == |r.wire| + |r.output|;
  }

  lemma {:induction false} RunOrder(s: State, events: seq<Event>)
    requires Always(s) && RunLegal(s, events)
    ensures InOrder(Run(s, events)) <==> InOrder(s) && NeverEarly(s, events)
    decreases |events|
  {
    if |events| > 0 {
      StepOrder(s, events[0]);
      StepKeeps(s, events[0]);
      hide Always, InOrder, Early, Legal, Next;
      RunOrder(Next(s, events[0]), events[1..]);
    }
  }

  /** Exactly when the half-close comes last, over every run with closings at any time: when ShutDown was
      never called on a connected connection whose writing had been turned off with bytes waiting. */
  lemma HalfCloseOrder(events: seq<Event>)
    requires RunLegal(INITIAL, events)
    ensures var s := Run(INITIAL, events);
            (s.shutDowns == 1 ==> s.wire == s.accepted) <==> NeverEarly(INITIAL, events)
  {
    assert Always(INITIAL);
    RunOrder(INITIAL, events);
  }

  /** A run in which it does not: a send that has to wait, a close, and the shutdown. */
  lemma HalfCloseCanBeEarly(x: Byte) returns (events: seq<Event>)
    ensures RunLegal(INITIAL, events)
    ensures var s := Run(INITIAL, events); s.shutDowns == 1 && s.wire == [] && s.accepted == [x]
  {
    events := [Established, Send([x], -1), HandleClose, ShutDown];
    var s1 := Next(INITIAL, events[0]);
    var s2 := Next(s1, events[1]);
    var s3 := Next(s2, events[2]);
    var s4 := Next(s3, events[3]);
    assert s2.output == [x] && s2.wire == [] && s2.writing && s2.accepted == [x];
    assert events[1..] == [events[1], events[2], events[3]] && events[1..][1..] == [events[2], events[3]];
    assert events[1..][1..][1..] == [events[3]] && events[1..][1..][1..][1..] == [];
    assert RunLegal(s3, [events[3]]) && Run(s3, [events[3]]) == s4;
    assert RunLegal(s2, events[1..][1..]) && Run(s2, events[1..][1..]) == s4;
    assert RunLegal(s1, events[1..]) && Run(s1, events[1..]) == s4;
    assert RunLegal(INITIAL, events) && Run(INITIAL, events) == s4;
  }

  /** A send after such a close turns writing on again, and the order is safe once more. */
  lemma SendReopens(s: State, data: seq<Byte>, result: int)
    requires Always(s) && s.phase.Connected? && !s.writing && s.output != [] && data != []
    requires Legal(s, Send(data, result))
    ensures Next(s, Send(data, result)).writing && Orderly(Next(s, Send(data, result)))
  {
    assert data[0..] == data;
  }

  /** Nothing is written after the half-close. */
  lemma NothingAfterHalfClose(s: State, e: Event)
    requires Always(s) && s.shutDowns == 1 && Legal(s, e)
    ensures Next(s, e).wire == s.wire && Next(s, e).shutDowns == 1
  {
  }

  /** A completion is queued by the step that leaves nothing waiting, and by every step that writes the
      last waiting byte. */
  lemma CompletionMeansWritten(s: State, e: Event)
    requires Always(s) && Orderly(s) && Legal(s, e)
    ensures var r := Next(s, e);
            && r.completions <= s.completions + 1
            && (r.completions > s.completions ==> r.output == [] && !r.writing)
            && (r.wire != s.wire && r.output == [] ==> r.completions == s.completions + 1)
  {
    assert forall x: seq<Byte> :: s.wire + x[..0] == s.wire;
  }

  function Sum(results: seq<int>): int {
    if results == [] then 0 else results[0] + Sum(results[1..])
  }

  function Writes(results: seq<int>): seq<Event> {
    if results == [] then [] else [HandleWrite(results[0])] + Writes(results[1..])
  }

  lemma {:induction false} SumAtLeast(results: seq<int>)
    requires forall i :: 0 <= i < |results| ==> results[i] > 0
    ensures Sum(results) >= |results|
  {
    if results != [] {
      SumAtLeast(results[1..]);
    }
  }

  /** As long as the socket takes bytes, in pieces of any size, what waits is written out, and a pending
      half-close is carried out. */
  lemma {:induction false} Finishes(s: State, results: seq<int>)
    requires Always(s) && Orderly(s) && !s.aborted
    requires (forall i :: 0 <= i < |results| ==> results[i] > 0) && Sum(results) == |s.output|
    ensures RunLegal(s, Writes(results))
    ensures var r := Run(s, Writes(results));
            && r.output == [] && r.phase == s.phase && r.wire == s.accepted && !r.aborted
            && (s.phase.Disconnecting? ==> r.shutDowns == 1)
    decreases |results|
  {
    if results == [] {
      assert s.wire + [] == s.wire;
    } else {
      var e := HandleWrite(results[0]);
      SumAtLeast(results[1..]);
      OrderlyKeeps(s, e);
      StepKeeps(s, e);
      var t := Next(s, e);
      assert t.accepted == s.accepted && t.phase == s.phase && |t.output| == |s.output| - results[0] && !t.aborted;
      assert Legal(s, e);
      hide Always, Orderly, Next, Legal;
      Finishes(t, results[1..]);
      assert Writes(results)[0] == e && Writes(results)[1..] == Writes(results[1..]);
    }
  }
}
