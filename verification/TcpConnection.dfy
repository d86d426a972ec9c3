/** net/TcpConnection.cpp: the output path of a connection as a class over its output Buffer; OutputMachine says
    what each method does to the connection as a whole. */
module TcpConnection {
  import opened ConnectionState
  import opened Endian
  import opened Sequences
  import opened M = OutputMachine
  import B = Buffer

  class TcpConnection {
    var state: ConnState
    var writing: bool                       // channel_->isWriting()
    const outputBuffer: B.Buffer
    const highWaterMark: nat
    var toShut: nat                         // shutdownInLoop functors queued on the loop

    ghost var kernel: Bytes
    ghost var accepted: seq<Bytes>
    ghost var finished: nat
    ghost var finishedLate: bool
    ghost var closedWriting: bool
    ghost var trail: seq<Trail>

    ghost predicate Valid()
      reads this, outputBuffer
    {
      outputBuffer.Valid()
    }

    ghost function View(): State
      requires Valid()
      reads this, outputBuffer, outputBuffer.buffer
    {
      State(state, writing, outputBuffer.Readable(), highWaterMark, toShut,
            kernel, accepted, finished, finishedLate, closedWriting, trail)
    }

    constructor (mark: nat)
      ensures Valid() && fresh(outputBuffer) && fresh(outputBuffer.buffer)
      ensures Inv(View()) && View() == Initial(mark)
    {
      state, writing, highWaterMark, toShut := Connecting, false, mark, 0;
      outputBuffer := new B.Buffer();
      kernel, accepted, finished, finishedLate, closedWriting, trail := [], [], 0, false, false, [Pending(0)];
      new;
      InitialInv(mark);
    }

    method ConnectEstablished()
      requires Valid() && Inv(View()) && Enabled(View(), Establish)
      modifies this`state
      ensures Valid() && Inv(View()) && View() == Apply(old(View()), Establish)
      ensures state == Connected && finished + toShut == 0
    {
      StepKeepsInv(View(), Establish);
      hide StreamOk, TrailOk;
      state := Connected;
    }

    /** write(2) took these bytes. */
    ghost method Took(bytes: Bytes)
      modifies this`kernel
      ensures kernel == old(kernel) + bytes
    {
      kernel := kernel + bytes;
    }

    /** The end of sendInLoop: buffers what was not sent and asks for writability. */
    method Pend(rest: Bytes)
      requires Valid()
      modifies this`writing, this`trail, outputBuffer, outputBuffer.buffer
      ensures Valid() && (outputBuffer.buffer == old(outputBuffer.buffer) || fresh(outputBuffer.buffer))
      ensures View() == M.Pend(old(View()), rest)
    {
      if |rest| > 0 {
        var oldLen := outputBuffer.ReadableBytes();
        if oldLen + |rest| >= highWaterMark && oldLen < highWaterMark {
          trail := trail + [Notice(oldLen + |rest|)];   // queues highWaterMarkCallback_
        }
        outputBuffer.Append(rest);
        if !writing {
          writing := true;
        }
      }
    }

    /** sendInLoop; `result` is what write(2) returns if the message is written directly. */
    method SendInLoop(data: Bytes, result: WriteResult)
      requires Valid() && Inv(View()) && Enabled(View(), Send(data, result))
      modifies this`writing, this`kernel, this`accepted, this`trail, outputBuffer, outputBuffer.buffer
      ensures Valid() && (outputBuffer.buffer == old(outputBuffer.buffer) || fresh(outputBuffer.buffer))
      ensures Inv(View()) && View() == Apply(old(View()), Send(data, result))
      ensures state != Disconnected && old(outputBuffer.Readable()) == [] && result.Wrote? ==>
                kernel == old(kernel) + data[..result.n] && outputBuffer.Readable() == data[result.n..]
      ensures state != Disconnected && old(outputBuffer.Readable()) != [] ==>
                kernel == old(kernel) && outputBuffer.Readable() == old(outputBuffer.Readable()) + data
    {
      hide Apply, Enabled, Inv;
      SendSplits(View(), data, result);
      SendBytes(data, result);
    }

    /** Its body. */
    method SendBytes(data: Bytes, result: WriteResult)
      requires Valid() && Inv(View()) && Enabled(View(), Send(data, result))
      modifies this`writing, this`kernel, this`accepted, this`trail, outputBuffer, outputBuffer.buffer
      ensures Valid() && (outputBuffer.buffer == old(outputBuffer.buffer) || fresh(outputBuffer.buffer))
      ensures Inv(View()) && View() == Apply(old(View()), Send(data, result))
    {
      hide M.Pend, Inv;
      StepKeepsInv(View(), Send(data, result));
      var nwrote, faultError := 0, false;
      if state == Disconnected {
        return;
      }
      if !writing && outputBuffer.ReadableBytes() == 0 {
        match result {
          case Wrote(n) =>
            nwrote := n;
          case Failed(errno) =>
            if errno != EWouldBlock {
              if errno == EPipe || errno == EConnReset {
                faultError := true;
              }
            }
        }
      }
      Took(data[..nwrote]);
      if !faultError {
        accepted := accepted + [data];
        Pend(data[nwrote..]);
      }
      trail := trail + [Pending(|outputBuffer.Readable()|)];
    }

    /** handleWrite: what the write took goes from the front of the buffer to the kernel; afterwards the channel asks for
        writability exactly while output is pending. */
    method HandleWrite(result: WriteResult)
      requires Valid() && Inv(View()) && Enabled(View(), Writable(result))
      modifies this`writing, this`kernel, this`trail, outputBuffer`readerIndex, outputBuffer`writerIndex
      ensures Valid() && Inv(View()) && View() == Apply(old(View()), Writable(result))
      ensures state != Disconnected ==>
                var n := if result.Wrote? then result.n else 0;
                && kernel == old(kernel) + old(outputBuffer.Readable())[..n]
                && outputBuffer.Readable() == old(outputBuffer.Readable())[n..]
                && (writing <==> n < |old(outputBuffer.Readable())|)
    {
      hide Inv;
      if state != Disconnected {
        WriteMoves(View(), result);
      }
      StepKeepsInv(View(), Writable(result));
      if writing {
        if result.Wrote? && result.n > 0 {
          Took(outputBuffer.Readable()[..result.n]);
          outputBuffer.Retrieve(result.n);
          if outputBuffer.ReadableBytes() == 0 {
            writing := false;
          }
        }
      }
      trail := trail + [Pending(|outputBuffer.Readable()|)];
    }

    /** shutdown, up to its runInLoop: of all calls together at most one half-close comes. */
    method Shutdown()
      requires Valid() && Inv(View())
      modifies this`state, this`toShut
      ensures Valid() && Inv(View()) && View() == Apply(old(View()), M.Shutdown)
      ensures state != Connected && finished + toShut <= 1
    {
      StepKeepsInv(View(), M.Shutdown);
      hide StreamOk, TrailOk;
      if state == Connected {
        state := Disconnecting;
        toShut := toShut + 1;
      }
    }

    /** shutdownInLoop: a half-close is the only one, and everything accepted is then in the kernel unless the
        connection was closed while it was writing. */
    method ShutdownInLoop()
      requires Valid() && Inv(View()) && Enabled(View(), M.ShutdownInLoop)
      modifies this`toShut, this`finished, this`finishedLate
      ensures Valid() && Inv(View()) && View() == Apply(old(View()), M.ShutdownInLoop)
      ensures finished > old(finished) ==> finished == 1 && (kernel == Concat(accepted) <==> !closedWriting)
    {
      StepKeepsInv(View(), M.ShutdownInLoop);
      HalfCloseSends(View());
      hide Inv;
      toShut := toShut - 1;
      if !writing {
        finishedLate := finishedLate || outputBuffer.Readable() != [];
        finished := finished + 1;  // shutdownWrite
      }
    }

    /** forceClose or forceCloseWithDelay, up to queueing its functor or timer: no more sends from other threads. */
    method ForceClose()
      requires Valid() && Inv(View())
      modifies this`state
      ensures Valid() && Inv(View()) && View() == Apply(old(View()), M.ForceClose)
      ensures state != Connected && kernel + outputBuffer.Readable() == Concat(accepted)
    {
      StepKeepsInv(View(), M.ForceClose);
      hide TrailOk;
      if state == Connected || state == Disconnecting {
        state := Disconnecting;
      }
    }

    /** handleClose: what was pending stays unsent, and is remembered as such. */
    method HandleClose()
      requires Valid() && Inv(View()) && Enabled(View(), Close)
      modifies this`state, this`writing, this`closedWriting
      ensures Valid() && Inv(View()) && View() == Apply(old(View()), Close)
      ensures !writing && (closedWriting <==> kernel != Concat(accepted))
    {
      StepKeepsInv(View(), Close);
      ClosedSends(Apply(View(), Close));
      hide Inv;
      closedWriting := writing;
      state := Disconnected;
      writing := false;  // disableAll
    }

    /** forceCloseInLoop: afterwards the connection is not open. */
    method ForceCloseInLoop()
      requires Valid() && Inv(View())
      modifies this`state, this`writing, this`closedWriting
      ensures Valid() && Inv(View())
      ensures View() == if Enabled(old(View()), Close) then Apply(old(View()), Close) else old(View())
      ensures state == Connecting || (state == Disconnected && !writing)
    {
      OpenOrNot(View());
      hide Inv;
      if state == Connected || state == Disconnecting {
        HandleClose();
      }
    }

    /** Any one step. */
    method Perform(step: Step)
      requires Valid() && Inv(View()) && Enabled(View(), step)
      modifies this, outputBuffer, outputBuffer.buffer
      ensures Valid() && (outputBuffer.buffer == old(outputBuffer.buffer) || fresh(outputBuffer.buffer))
      ensures Inv(View()) && View() == Apply(old(View()), step)
    {
      hide Inv, M.SendInLoop, M.HandleWrite;
      match step {
        case Establish => ConnectEstablished();
        case Send(data, result) => SendInLoop(data, result);
        case Writable(result) => HandleWrite(result);
        case Shutdown => Shutdown();
        case ShutdownInLoop => ShutdownInLoop();
        case ForceClose => ForceClose();
        case Close => HandleClose();
      }
    }

    /** Any run of steps: the object goes where the machine goes, so that what holds of every run of the machine
        holds of the object. */
    method Drive(steps: seq<Step>)
      requires Valid() && Inv(View()) && Legal(View(), steps)
      modifies this, outputBuffer, outputBuffer.buffer
      ensures Valid() && Inv(View()) && View() == Run(old(View()), steps)
    {
      hide Inv, Enabled, Apply;
      var i := 0;
      while i < |steps|
        invariant 0 <= i <= |steps| && Valid() && Inv(View()) && Legal(View(), steps[i..])
        invariant outputBuffer.buffer == old(outputBuffer.buffer) || fresh(outputBuffer.buffer)
        invariant Run(View(), steps[i..]) == Run(old(View()), steps)
      {
        assert steps[i..][0] == steps[i] && steps[i..][1..] == steps[i + 1..];
        Perform(steps[i]);
        i := i + 1;
      }
    }
  }

  lemma OpenOrNot(s: State)
    requires Inv(s)
    ensures s.state == Disconnected ==> !s.writing
  {
  }

  /** What is in the kernel when shutdownWrite is called. */
  lemma HalfCloseSends(s: State)
    requires Inv(s) && s.toShut > 0
    ensures s.finished == 0
    ensures !s.writing ==> (s.kernel == Concat(s.accepted) <==> !s.closedWriting)
  {
    hide TrailOk;
  }

  lemma ClosedSends(s: State)
    requires Inv(s) && s.state == Disconnected
    ensures s.closedWriting <==> s.kernel != Concat(s.accepted)
  {
    hide TrailOk;
  }
}
