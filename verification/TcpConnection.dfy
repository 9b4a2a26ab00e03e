/** The output path of a connection, over its output buffer.  Every handler performs one of
    the steps of `ConnSystem`. */
module TcpConnection {
  import opened ConnSystem
  import B = Buffer

  class Connection {
    var state: Status
    var reading: bool
    var writing: bool
    const outputBuffer: B.Buffer
    var highWaterMark: nat
    var writeCompleteCallback: bool
    var highWaterMarkCallback: bool
    var shutdownQueued: bool
    ghost var queued: seq<Note>  // callbacks handed to the loop
    ghost var wire: seq<B.Byte>
    ghost var taken: seq<B.Byte>
    ghost var shuts: seq<Shut>
    ghost var early: bool

    ghost predicate Valid()
      reads this, outputBuffer
    {
      outputBuffer.Valid()
    }

    ghost function View(): Conn
      requires Valid()
      reads this, outputBuffer, outputBuffer.buffer
    {
      Conn(state, reading, writing, outputBuffer.Contents(), highWaterMark, writeCompleteCallback,
           highWaterMarkCallback, shutdownQueued, wire, taken, shuts, early, queued)
    }

    constructor (mark: nat, onWriteComplete: bool, onHighWater: bool)
      ensures Valid() && View() == Start(mark, onWriteComplete, onHighWater) && Inv(View())
    {
      state, reading, writing := Connecting, false, false;
      outputBuffer := new B.Buffer();
      highWaterMark, writeCompleteCallback, highWaterMarkCallback := mark, onWriteComplete, onHighWater;
      shutdownQueued, queued := false, [];
      wire, taken, shuts, early := [], [], [], false;
    }

    method ConnectEstablished()
      requires Valid() && Inv(View()) && state == Connecting
      modifies this
      ensures Valid() && View() == Step(old(View()), Establish) && Inv(View())
    {
      StepKeepsInv(View(), Establish);
      state := Connected;
      reading := true;
    }

    method NoteHighWater(added: nat)
      requires Valid()
      modifies this`queued
      ensures Valid() && View() == Noted(old(View()), added)
    {
      var oldLen := outputBuffer.ReadableBytes();
      if oldLen + added >= highWaterMark && oldLen < highWaterMark && highWaterMarkCallback {
        queued := queued + [HighWater(oldLen + added)];
      }
    }

    method Store(rest: seq<B.Byte>)
      requires Valid()
      modifies this`writing, outputBuffer, outputBuffer.buffer
      ensures Valid() && View() == old(View()).(out := old(View()).out + rest, writing := true)
    {
      outputBuffer.Append(rest);
      if !writing {
        writing := true;
      }
    }

    // The end of `sendInLoop`: what the socket did not take is buffered.
    method KeepRest(rest: seq<B.Byte>)
      requires Valid() && rest != []
      modifies this, outputBuffer, outputBuffer.buffer
      ensures Valid() && View() == Keep(old(View()), rest)
    {
      hide Noted, Valid, View;
      NoteHighWater(|rest|);
      Store(rest);
      KeepIs(old(View()), rest);
    }

    method SendOnLoop(data: seq<B.Byte>, result: WriteResult)
      requires Valid() && Inv(View()) && Enabled(View(), Send(data, result))
      modifies this, outputBuffer, outputBuffer.buffer
      ensures Valid() && View() == Step(old(View()), Send(data, result)) && Inv(View())
    {
      hide Inv;
      StepKeepsInv(View(), Send(data, result));
      if state == Disconnected {
        return;
      }
      var nwrote, error := 0, false;
      var remaining := |data|;
      if !writing && outputBuffer.ReadableBytes() == 0 {
        if result.Wrote? {
          nwrote := result.n;
          remaining := |data| - nwrote;
          wire := wire + data[..nwrote];
          if remaining == 0 && writeCompleteCallback {
            queued := queued + [WriteComplete(|wire|, |taken + data|)];
          }
        } else {
          error := result.BrokenPipe?;
        }
      }
      if !error {
        taken := taken + data;
        if remaining > 0 {
          KeepRest(data[nwrote..]);
        }
      }
    }

    method ShutdownOnLoop()
      requires Valid()
      modifies this`shuts
      ensures Valid() && View() == ShutdownInLoop(old(View()))
    {
      if !writing {
        shuts := shuts + [Shut(|wire|, |taken|)];
      }
    }

    // The part of `handleWrite` for a buffer that has become empty.
    method OnDrained()
      requires Valid()
      modifies this
      ensures Valid() && View() == Drained(old(View()))
    {
      writing := false;
      if writeCompleteCallback {
        queued := queued + [WriteComplete(|wire|, |taken|)];
      }
      if state == Disconnecting {
        early := early || shutdownQueued;
        ShutdownOnLoop();
      }
    }

    method OnWritable(result: WriteResult)
      requires Valid() && Inv(View()) && Enabled(View(), Writable(result))
      modifies this, outputBuffer
      ensures Valid() && View() == Step(old(View()), Writable(result)) && Inv(View())
    {
      hide Inv, Drained;
      StepKeepsInv(View(), Writable(result));
      if writing {
        if result.Wrote? && result.n > 0 {
          wire := wire + outputBuffer.Contents()[..result.n];
          outputBuffer.Retrieve(result.n);
          if outputBuffer.ReadableBytes() == 0 {
            OnDrained();
          }
        }
      }
    }

    /** `shutdown`, called on the loop thread or on another one. */
    method RequestShutdown(inLoop: bool)
      requires Valid() && Inv(View())
      modifies this
      ensures Valid() && View() == Step(old(View()), Shutdown(inLoop)) && Inv(View())
    {
      hide Inv;
      StepKeepsInv(View(), Shutdown(inLoop));
      if state == Connected {
        state := Disconnecting;
        if inLoop {
          ShutdownOnLoop();
        } else {
          shutdownQueued := true;
        }
      }
    }

    method RunQueuedShutdown()
      requires Valid() && Inv(View()) && shutdownQueued
      modifies this
      ensures Valid() && View() == Step(old(View()), RunDeferred) && Inv(View())
    {
      hide Inv;
      StepKeepsInv(View(), RunDeferred);
      shutdownQueued := false;
      ShutdownOnLoop();
    }

    method HandleClose()
      requires Valid() && Inv(View()) && (state == Connected || state == Disconnecting)
      modifies this
      ensures Valid() && View() == Step(old(View()), Close) && Inv(View())
    {
      hide Inv;
      StepKeepsInv(View(), Close);
      state := Disconnected;
      reading, writing := false, false;
    }
  }
}
