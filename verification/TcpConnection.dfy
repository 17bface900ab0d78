/** The connection object itself: its state, its channel's write flag and its output buffer, changed in
    place. The socket is what it has been told: the bytes taken and the half-closes. */
module TcpConnection {
  import opened Bytes
  import opened ByteBuffer
  import Spec = TcpSpec

  class TcpConnection {
    var phase: Spec.Phase
    var writing: bool
    var output: Buffer
    var wire: seq<Byte>
    var shutDowns: nat
    var completions: nat
    var aborted: bool
    ghost var accepted: seq<Byte>

    ghost predicate Valid()
      reads this, output
    {
      output.Valid()
    }

    /** The connection as a value. */
    ghost function Model(): Spec.State
      requires Valid()
      reads this, output, output.store
    {
      Spec.State(phase, writing, output.Readable(), wire, shutDowns, completions, aborted, accepted)
    }

    /** The output buffer stays the connection's own. */
    twostate predicate Kept()
      reads this, output
    {
      Valid() && output == old(output) && output.Owned()
    }

    constructor ()
      ensures Valid() && fresh(output) && fresh(output.store) && Model() == Spec.INITIAL
    {
      phase, writing, wire, shutDowns, completions, aborted := Spec.Connecting, false, [], 0, 0, false;
      accepted := [];
      output := new Buffer();
    }

    method ConnectedEstablished()
      requires Valid() && Spec.Legal(Model(), Spec.Established)
      modifies this`phase
      ensures Kept() && Model() == Spec.Next(old(Model()), Spec.Established)
    {
      phase := Spec.Connected;
    }

    /** What the socket did not take waits in the output buffer for the channel to become writable. */
    method KeepRest(rest: seq<Byte>)
      requires Valid()
      modifies this`writing, output, output.store
      ensures Kept()
      ensures Model() == old(Model()).(output := old(Model()).output + rest, writing := old(writing) || rest != [])
    {
      if |rest| > 0 {
        hide WithRoom, Appended;
        output.Append(rest);
        if !writing {
          writing := true;
        }
      } else {
        assert Model().output + rest == Model().output;
      }
    }

    /** Writes as much as the socket takes if nothing is waiting yet, and keeps the rest. */
    method SendInLoop(data: seq<Byte>, result: int)
      requires Valid() && -1 <= result <= |data|
      modifies this`writing, this`wire, this`completions, output, output.store
      ensures Kept() && Model() == Spec.SendInLoop(old(Model()), data, result)
    {
      if phase.Disconnected? {
        return;
      }
      var written := 0;
      if !writing && output.ReadableBytes() == 0 {
        if result >= 0 {
          written := result;
          wire := wire + data[..written];
          if |data| - written == 0 {
            completions := completions + 1;
          }
        }
      }
      assert written == 0 ==> old(wire) + data[..written] == old(wire);
      assert wire == old(wire) + data[..written];
      KeepRest(data[written..]);
    }

    method Send(data: seq<Byte>, result: int)
      requires Valid() && Spec.Legal(Model(), Spec.Send(data, result))
      modifies this`writing, this`wire, this`completions, this`accepted, output, output.store
      ensures Kept() && Model() == Spec.Next(old(Model()), Spec.Send(data, result))
    {
      if phase.Connected? {
        accepted := accepted + data;
        SendInLoop(data, result);
      }
    }

    /** Sends what another buffer holds and empties it, if the connection is up. */
    method SendBuffer(buf: Buffer, result: int)
      requires Valid() && buf.Valid() && buf != output && buf.store != output.store
      requires Spec.Legal(Model(), Spec.Send(buf.Readable(), result))
      modifies this`writing, this`wire, this`completions, this`accepted, output, output.store, buf`reader, buf`writer
      ensures Kept() && Model() == Spec.Next(old(Model()), Spec.Send(old(buf.Readable()), result))
      ensures buf.Valid() && buf.Readable() == if old(phase).Connected? then [] else old(buf.Readable())
    {
      if phase.Connected? {
        accepted := accepted + buf.store[buf.reader..buf.writer];
        SendInLoop(buf.store[buf.reader..buf.writer], result);
        buf.RetrieveAll();
      }
    }

    method ShutDownInLoop()
      requires Valid()
      modifies this`shutDowns
      ensures Kept() && Model() == Spec.ShutDownInLoop(old(Model()))
    {
      if !writing {
        shutDowns := shutDowns + 1;
      }
    }

    method ShutDown()
      requires Valid() && Spec.Legal(Model(), Spec.ShutDown)
      modifies this`phase, this`shutDowns
      ensures Kept() && Model() == Spec.Next(old(Model()), Spec.ShutDown)
    {
      if phase.Connected? {
        phase := Spec.Disconnecting;
        ShutDownInLoop();
      }
    }

    /** The socket took that many of the waiting bytes. */
    method Written(result: nat)
      requires Valid() && result <= |output.Readable()|
      modifies this`wire, output`reader
      ensures Kept()
      ensures wire == old(wire) + old(output.Readable())[..result]
      ensures output.Readable() == old(output.Readable())[result..]
    {
      wire := wire + output.store[output.reader..output.writer][..result];
      output.Retrieve(result);
    }

    /** The socket can be written: hand it what is waiting. */
    method HandleWrite(result: int)
      requires Valid() && Spec.Legal(Model(), Spec.HandleWrite(result))
      modifies this`writing, this`wire, this`completions, this`shutDowns, this`aborted, output, output.store
      ensures Kept() && Model() == Spec.Next(old(Model()), Spec.HandleWrite(result))
    {
      if writing {
        if result > 0 {
          Written(result);
          if output.ReadableBytes() == 0 {
            writing := false;
            completions := completions + 1;
            if phase.Disconnecting? {
              ShutDownInLoop();
            }
          }
        } else {
          aborted := true;
        }
      }
    }

    method HandleClose()
      requires Valid() && Spec.Legal(Model(), Spec.HandleClose)
      modifies this`writing
      ensures Kept() && Model() == Spec.Next(old(Model()), Spec.HandleClose)
    {
      writing := false;
    }

    method ConnectedDestroyed()
      requires Valid() && Spec.Legal(Model(), Spec.Destroyed)
      modifies this`phase, this`writing
      ensures Kept() && Model() == Spec.Next(old(Model()), Spec.Destroyed)
    {
      phase := Spec.Disconnected;
      writing := false;
    }

    method Handle(e: Spec.Event)
      requires Valid() && Spec.Legal(Model(), e)
      modifies this, output, output.store
      ensures Kept() && Model() == Spec.Next(old(Model()), e)
    {
      match e
      case Established => ConnectedEstablished();
      case Send(data, result) => Send(data, result);
      case ShutDown => ShutDown();
      case HandleWrite(result) => HandleWrite(result);
      case HandleClose => HandleClose();
      case Destroyed => ConnectedDestroyed();
    }

    /** A connection driven through any legal run from its creation. */
    method Serve(events: seq<Spec.Event>)
      requires Valid() && Model() == Spec.INITIAL && Spec.RunLegal(Spec.INITIAL, events)
      modifies this, output, output.store
      ensures Kept() && Model() == Spec.Run(Spec.INITIAL, events)
      ensures wire + output.Readable() == accepted && shutDowns <= 1
    {
      Spec.BytesKept(events);
      var i := 0;
      assert events[0..] == events;
      while i < |events|
        invariant 0 <= i <= |events| && Kept()
        invariant Spec.RunLegal(Model(), events[i..])
        invariant Spec.Run(Model(), events[i..]) == Spec.Run(Spec.INITIAL, events)
      {
        assert events[i..][0] == events[i] && events[i..][1..] == events[i + 1..];
        Handle(events[i]);
        i := i + 1;
      }
    }
  }
}
