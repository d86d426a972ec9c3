/** net/TcpConnection.cpp: the output path of one connection, from sendInLoop through the output buffer to the
    kernel, with half-close and the high-water mark, as a state machine over arbitrary results of write(2). */
module OutputMachine {
  import opened ConnectionState
  import opened Endian
  import opened Sequences

  datatype Errno = EWouldBlock | EPipe | EConnReset | Other

  /** What write(2) returns. */
  datatype WriteResult = Wrote(n: nat) | Failed(errno: Errno)

  /** History for the high-water mark: the pending output after each step, and each notification. */
  datatype Trail = Pending(n: nat) | Notice(n: nat)

  datatype State = State(
    state: ConnState,
    writing: bool,                  // the channel asks for writability
    output: Bytes,              // outputBuffer_
    mark: nat,                      // highWaterMark_
    toShut: nat,                    // shutdownInLoop calls queued or about to run
    // history
    kernel: Bytes,              // bytes accepted by write(2), in order
    accepted: seq<Bytes>,       // messages whose sendInLoop was neither refused nor dropped
    finished: nat,                  // calls of shutdownWrite
    finishedLate: bool,             // one of them found output unsent
    closedWriting: bool,            // handleClose found the channel writing
    trail: seq<Trail>)

  function Initial(mark: nat): State {
    State(Connecting, false, [], mark, 0, [], [], 0, false, false, [Pending(0)])
  }

  datatype Step =
    | Establish
    | Send(data: Bytes, result: WriteResult)    // sendInLoop; the result counts if it writes directly
    | Writable(result: WriteResult)                 // handleWrite
    | Shutdown                                      // shutdown, up to its queueing
    | ShutdownInLoop
    | ForceClose                                    // forceClose or forceCloseWithDelay, up to its queueing
    | Close                                         // handleClose

  /** write(2) takes no more than it was given. */
  predicate Possible(result: WriteResult, len: nat) {
    result.Wrote? ==> result.n <= len
  }

  predicate Enabled(s: State, step: Step) {
    match step
    case Establish => s.state == Connecting
    case Send(data, result) => s.state != Connecting && Possible(result, |data|)
    case Writable(result) => Possible(result, |s.output|)
    case Shutdown => true
    case ShutdownInLoop => s.toShut > 0
    case ForceClose => true
    case Close => s.state == Connected || s.state == Disconnecting
  }

  predicate WritesDirectly(s: State) {
    !s.writing && s.output == []
  }

  /** How many bytes of a message sendInLoop's own write sent. */
  function SentDirectly(s: State, result: WriteResult): nat {
    if WritesDirectly(s) && result.Wrote? then result.n else 0
  }

  /** A direct write met a closed peer: the message is dropped. */
  predicate Faults(s: State, result: WriteResult) {
    WritesDirectly(s) && result.Failed? && (result.errno == EPipe || result.errno == EConnReset)
  }

  /** sendInLoop queues the high-water callback. */
  predicate Notifies(s: State, remaining: nat) {
    |s.output| + remaining >= s.mark && |s.output| < s.mark
  }

  /** What was not sent directly joins the output buffer. */
  function Pend(s: State, rest: Bytes): State {
    if rest == [] then s
    else
      var noticed := if Notifies(s, |rest|) then s.(trail := s.trail + [Notice(|s.output| + |rest|)]) else s;
      noticed.(output := s.output + rest, writing := true)
  }

  function SendInLoop(s: State, data: Bytes, result: WriteResult): State
    requires Possible(result, |data|)
  {
    if s.state == Disconnected then s
    else
      var nwrote := SentDirectly(s, result);
      var written := s.(kernel := s.kernel + data[..nwrote]);
      if Faults(s, result) then Observed(written)
      else Observed(Pend(written.(accepted := s.accepted + [data]), data[nwrote..]))
  }

  function HandleWrite(s: State, result: WriteResult): State
    requires Possible(result, |s.output|)
  {
    if s.writing && result.Wrote? && result.n > 0 then
      var output := s.output[result.n..];
      Observed(s.(kernel := s.kernel + s.output[..result.n], output := output, writing := output != []))
    else Observed(s)
  }

  function Observed(s: State): State {
    s.(trail := s.trail + [Pending(|s.output|)])
  }

  function Apply(s: State, step: Step): State
    requires Enabled(s, step)
  {
    match step
    case Establish => s.(state := Connected)
    case Send(data, result) => SendInLoop(s, data, result)
    case Writable(result) => HandleWrite(s, result)
    case Shutdown => if s.state == Connected then s.(state := Disconnecting, toShut := s.toShut + 1) else s
    case ShutdownInLoop =>
      if s.writing then s.(toShut := s.toShut - 1)
      else s.(toShut := s.toShut - 1, finished := s.finished + 1, finishedLate := s.finishedLate || s.output != [])
    case ForceClose => if s.state == Connected || s.state == Disconnecting then s.(state := Disconnecting) else s
    case Close => s.(state := Disconnected, writing := false, closedWriting := s.writing)
  }

  // ---- The invariant ----

  /** Since the last notification, if any, the pending output has been below the mark. */
  predicate LowSince(trail: seq<Trail>, mark: nat) {
    trail == [] ||
    match trail[|trail| - 1]
    case Notice(_) => false
    case Pending(n) => n < mark || LowSince(trail[..|trail| - 1], mark)
  }

  /** Every notification came with the output below the mark since the one before. */
  predicate Separated(trail: seq<Trail>, mark: nat) {
    trail == [] ||
    var before := trail[..|trail| - 1];
    Separated(before, mark) && (trail[|trail| - 1].Notice? ==> LowSince(before, mark))
  }

  /** Nothing is lost, duplicated or reordered. */
  predicate StreamOk(kernel: Bytes, output: Bytes, accepted: seq<Bytes>) {
    kernel + output == Concat(accepted)
  }

  /** Writing is enabled iff output is pending, until the connection closes. */
  predicate WritingOk(state: ConnState, writing: bool, pending: bool, closedWriting: bool) {
    if state == Disconnected then !writing && (closedWriting <==> pending) else (writing <==> pending) && !closedWriting
  }

  predicate HalfCloseOk(state: ConnState, toShut: nat, finished: nat, finishedLate: bool, closedWriting: bool) {
    && toShut + finished <= (if state == Connecting || state == Connected then 0 else 1)
    && (finishedLate ==> closedWriting)
  }

  predicate TrailOk(trail: seq<Trail>, mark: nat, pending: nat) {
    && Separated(trail, mark)
    && trail != [] && trail[|trail| - 1] == Pending(pending)
    && (!LowSince(trail, mark) ==> mark <= pending)
  }

  predicate Inv(s: State) {
    && StreamOk(s.kernel, s.output, s.accepted)
    && WritingOk(s.state, s.writing, s.output != [], s.closedWriting)
    && HalfCloseOk(s.state, s.toShut, s.finished, s.finishedLate, s.closedWriting)
    && TrailOk(s.trail, s.mark, |s.output|)
  }

  lemma PendingKeeps(trail: seq<Trail>, mark: nat, n: nat)
    requires Separated(trail, mark)
    ensures TrailOk(trail + [Pending(n)], mark, n)
  {
    assert (trail + [Pending(n)])[..|trail|] == trail;
  }

  lemma NoticeKeeps(trail: seq<Trail>, mark: nat, pending: nat, n: nat)
    requires TrailOk(trail, mark, pending) && pending < mark
    ensures Separated(trail + [Notice(n)], mark)
  {
    assert (trail + [Notice(n)])[..|trail|] == trail;
  }

  lemma PendKeepsTrail(s: State, rest: Bytes)
    requires TrailOk(s.trail, s.mark, |s.output|)
    ensures var s' := Observed(Pend(s, rest)); TrailOk(s'.trail, s.mark, |s'.output|)
  {
    hide LowSince, Separated;
    assert Separated(s.trail, s.mark);
    if rest != [] && Notifies(s, |rest|) {
      NoticeKeeps(s.trail, s.mark, |s.output|, |s.output| + |rest|);
    }
    hide TrailOk;
    var s' := Pend(s, rest);
    PendingKeeps(s'.trail, s.mark, |s'.output|);
  }

  lemma SendKeepsTrail(s: State, data: Bytes, result: WriteResult)
    requires TrailOk(s.trail, s.mark, |s.output|) && Possible(result, |data|)
    ensures var s' := SendInLoop(s, data, result); TrailOk(s'.trail, s.mark, |s'.output|)
  {
    hide LowSince, Separated;
    PendingKeeps(s.trail, s.mark, |s.output|);
    hide TrailOk, Pend;
    var n := SentDirectly(s, result);
    PendKeepsTrail(s.(kernel := s.kernel + data[..n], accepted := s.accepted + [data]), data[n..]);
  }

  /** One message joins the stream: part of it in the kernel, the rest behind what is pending. */
  lemma StreamGrows(kernel: Bytes, output: Bytes, accepted: seq<Bytes>, data: Bytes, n: nat)
    requires StreamOk(kernel, output, accepted) && n <= |data| && (output != [] ==> n == 0)
    ensures StreamOk(kernel + data[..n], output + data[n..], accepted + [data])
  {
    ConcatSnoc(accepted, data);
    assert kernel + data[..n] + (output + data[n..]) == kernel + output + data;
  }

  lemma SendKeepsStream(s: State, data: Bytes, result: WriteResult)
    requires StreamOk(s.kernel, s.output, s.accepted) && Possible(result, |data|)
    ensures var s' := SendInLoop(s, data, result); StreamOk(s'.kernel, s'.output, s'.accepted)
  {
    hide StreamOk;
    var n := SentDirectly(s, result);
    StreamGrows(s.kernel, s.output, s.accepted, data, n);
    if data[n..] == [] {
      assert s.output + data[n..] == s.output;
    }
    if Faults(s, result) {
      assert s.kernel + data[..n] == s.kernel;
    }
  }

  lemma SendKeepsInv(s: State, data: Bytes, result: WriteResult)
    requires Inv(s) && Enabled(s, Send(data, result))
    ensures Inv(SendInLoop(s, data, result))
  {
    hide StreamOk, TrailOk;
    SendKeepsStream(s, data, result);
    SendKeepsTrail(s, data, result);
  }

  lemma WriteKeepsInv(s: State, result: WriteResult)
    requires Inv(s) && Enabled(s, Writable(result))
    ensures Inv(HandleWrite(s, result))
  {
    hide LowSince;
    if s.writing && result.Wrote? && result.n > 0 {
      var output := s.output[result.n..];
      assert s.kernel + s.output == s.kernel + s.output[..result.n] + output;
      PendingKeeps(s.trail, s.mark, |output|);
    } else {
      PendingKeeps(s.trail, s.mark, |s.output|);
    }
  }

  lemma StepKeepsInv(s: State, step: Step)
    requires Inv(s) && Enabled(s, step)
    ensures Inv(Apply(s, step))
  {
    hide StreamOk, TrailOk;
    match step
    case Send(data, result) => SendKeepsInv(s, data, result);
    case Writable(result) => WriteKeepsInv(s, result);
    case _ =>
  }

  lemma InitialInv(mark: nat)
    ensures Inv(Initial(mark))
  {
    assert [Pending(0)][..0] == [];
  }

  // ---- Runs ----

  predicate Legal(s: State, steps: seq<Step>)
    decreases |steps|
  {
    steps == [] || (Enabled(s, steps[0]) && Legal(Apply(s, steps[0]), steps[1..]))
  }

  function Run(s: State, steps: seq<Step>): State
    requires Legal(s, steps)
    decreases |steps|
  {
    if steps == [] then s else Run(Apply(s, steps[0]), steps[1..])
  }

  lemma {:induction false} RunKeepsInv(s: State, steps: seq<Step>)
    requires Inv(s) && Legal(s, steps)
    ensures Inv(Run(s, steps))
    decreases |steps|
  {
    if steps == [] {
    } else {
      StepKeepsInv(s, steps[0]);
      RunKeepsInv(Apply(s, steps[0]), steps[1..]);
    }
  }

  lemma {:induction false} LowBetween(trail: seq<Trail>, mark: nat, i: nat) returns (k: nat)
    requires i < |trail| && trail[i].Notice? && LowSince(trail, mark)
    ensures i < k < |trail| && trail[k].Pending? && trail[k].n < mark
  {
    var last := trail[|trail| - 1];
    if last.Pending? && last.n < mark {
      k := |trail| - 1;
    } else {
      k := LowBetween(trail[..|trail| - 1], mark, i);
    }
  }

  lemma {:induction false} SeparatedNotices(trail: seq<Trail>, mark: nat, i: nat, j: nat) returns (k: nat)
    requires Separated(trail, mark) && i < j < |trail| && trail[i].Notice? && trail[j].Notice?
    ensures i < k < j && trail[k].Pending? && trail[k].n < mark
  {
    var before := trail[..|trail| - 1];
    if j == |trail| - 1 {
      k := LowBetween(before, mark, i);
    } else {
      k := SeparatedNotices(before, mark, i, j);
    }
  }

  /** Over every run with any partial writes and errors: what the kernel took followed by what is pending is
      exactly the accepted messages in order; writing is enabled iff output is pending, unless disconnected;
      and between two high-water notifications the pending output was below the mark. */
  lemma StreamIntegrity(mark: nat, steps: seq<Step>)
    requires Legal(Initial(mark), steps)
    ensures var s := Run(Initial(mark), steps);
      && s.kernel + s.output == Concat(s.accepted)
      && (s.state != Disconnected ==> (s.writing <==> s.output != []))
      && forall i, j :: 0 <= i < j < |s.trail| && s.trail[i].Notice? && s.trail[j].Notice? ==>
           exists k :: i < k < j && s.trail[k].Pending? && s.trail[k].n < s.mark
  {
    RunKeepsInv(Initial(mark), steps);
    var s := Run(Initial(mark), steps);
    forall i, j | 0 <= i < j < |s.trail| && s.trail[i].Notice? && s.trail[j].Notice?
      ensures exists k :: i < k < j && s.trail[k].Pending? && s.trail[k].n < s.mark
    {
      var k := SeparatedNotices(s.trail, s.mark, i, j);
    }
  }

  /** sendInLoop accepts a whole message or nothing of it: refused when disconnected, dropped when its own
      write met EPIPE or ECONNRESET; and it never sends past output that is already pending. */
  lemma SendIsWhole(s: State, data: Bytes, result: WriteResult)
    requires Inv(s) && Enabled(s, Send(data, result))
    ensures var s' := SendInLoop(s, data, result);
      && s'.accepted == (if s.state == Disconnected || Faults(s, result) then s.accepted else s.accepted + [data])
      && (s.output != [] ==> s'.kernel == s.kernel)
      && s.kernel <= s'.kernel
  {
  }

  /** Where the bytes of a message go: with nothing pending its own write comes first, and what that did not take becomes
      pending; otherwise all of it becomes pending. It is dropped if its own write met a closed peer. */
  lemma SendSplits(s: State, data: Bytes, result: WriteResult)
    requires Inv(s) && Enabled(s, Send(data, result))
    ensures var t := Apply(s, Send(data, result));
            if s.state == Disconnected then t == s
            else if s.output == [] && result.Wrote? then
              t.kernel == s.kernel + data[..result.n] && t.output == data[result.n..] && t.accepted == s.accepted + [data]
            else if s.output == [] && (result.errno == EPipe || result.errno == EConnReset) then
              t.kernel == s.kernel && t.output == [] && t.accepted == s.accepted
            else
              t.kernel == s.kernel && t.output == s.output + data && t.accepted == s.accepted + [data]
  {
    hide StreamOk, TrailOk;
    if s.output == [] && result.Wrote? && result.n == |data| {
      assert s.kernel + data[..result.n] == s.kernel + data && s.output + [] == s.output;
    }
    if data == [] {
      assert s.output + data == s.output;
    }
    assert s.kernel + data[..0] == s.kernel && data[0..] == data;
  }

  /** handleWrite passes on as many bytes as its write took, from the front of what is pending. */
  lemma WriteMoves(s: State, result: WriteResult)
    requires Inv(s) && s.state != Disconnected && Enabled(s, Writable(result))
    ensures var t, n := Apply(s, Writable(result)), if result.Wrote? then result.n else 0;
            && t.kernel == s.kernel + s.output[..n] && t.output == s.output[n..]
            && (t.writing <==> n < |s.output|)
            && t.accepted == s.accepted && t.state == s.state
  {
    hide StreamOk, TrailOk;
    assert s.kernel + s.output[..0] == s.kernel && s.output[0..] == s.output;
  }

  /** How many bytes the writes of handleWrite took over a run. */
  function Taken(steps: seq<Step>): nat {
    if steps == [] then 0 else TakenBy(steps[0]) + Taken(steps[1..])
  }

  function TakenBy(step: Step): nat {
    if step.Writable? && step.result.Wrote? then step.result.n else 0
  }

  /** n bytes have gone from the front of what was pending to the kernel. */
  predicate Moved(s: State, t: State, n: nat) {
    n <= |s.output| && t.kernel == s.kernel + s.output[..n] && t.output == s.output[n..]
  }

  lemma StepMoves(s: State, step: Step)
    requires Inv(s) && Enabled(s, step) && s.state != Disconnected && !step.Send? && !step.Close?
    ensures var t, n := Apply(s, step), TakenBy(step); Moved(s, t, n) && |t.output| + n == |s.output| && t.state != Disconnected
  {
    if step.Writable? {
      WriteMoves(s, step.result);
    } else {
      assert s.kernel + s.output[..0] == s.kernel && s.output[0..] == s.output;
    }
    hide Inv;
  }

  lemma MovesCompose(s: State, t: State, u: State, n: nat, m: nat)
    requires Moved(s, t, n) && Moved(t, u, m)
    ensures Moved(s, u, n + m)
  {
    assert s.output[n..][m..] == s.output[n + m..];
    assert s.output[..n] + s.output[n..][..m] == s.output[..n + m];
  }

  /** Pending output drains: while nothing is sent and the connection is not closed, the kernel has got the first so many
      bytes of it in order. When the writes together took all, nothing is pending and writing is off. */
  lemma {:induction false} Drains(s: State, steps: seq<Step>)
    requires Inv(s) && Legal(s, steps) && s.state != Disconnected
    requires forall i :: 0 <= i < |steps| ==> !steps[i].Send? && !steps[i].Close?
    ensures var t, n := Run(s, steps), Taken(steps);
            Moved(s, t, n) && t.state != Disconnected && (t.writing <==> n < |s.output|)
    decreases |steps|
  {
    hide Inv, Apply, Enabled, Moved;
    if steps == [] {
      WritesPending(s);
    } else {
      StepKeepsInv(s, steps[0]);
      StepMoves(s, steps[0]);
      var t := Apply(s, steps[0]);
      assert forall i :: 0 <= i < |steps[1..]| ==> steps[1..][i] == steps[i + 1];
      Drains(t, steps[1..]);
      MovesCompose(s, t, Run(s, steps), TakenBy(steps[0]), Taken(steps[1..]));
    }
    NoneMoved(s);
  }

  lemma NoneMoved(s: State)
    ensures Moved(s, s, 0)
  {
    assert s.kernel + s.output[..0] == s.kernel && s.output[0..] == s.output;
  }

  lemma WritesPending(s: State)
    requires Inv(s) && s.state != Disconnected
    ensures s.writing <==> s.output != []
  {
    hide StreamOk, TrailOk;
  }

  /** The high-water callback is queued exactly when a send takes the pending output from below the mark to it or beyond,
      with the size reached; nothing else queues it. */
  lemma NoticeExactly(s: State, step: Step)
    requires Enabled(s, step)
    ensures var t := Apply(s, step);
            if step.Send? && s.state != Disconnected && |s.output| < s.mark <= |t.output|
            then t.trail == s.trail + [Notice(|t.output|), Pending(|t.output|)]
            else t.trail == s.trail || t.trail == s.trail + [Pending(|t.output|)]
  {
  }

  /** Nothing is accepted or sent any more once the connection is closed. */
  lemma {:induction false} ClosedForGood(s: State, steps: seq<Step>)
    requires Legal(s, steps) && s.state == Disconnected && !s.writing
    ensures var t := Run(s, steps);
            t.state == Disconnected && t.kernel == s.kernel && t.accepted == s.accepted && t.output == s.output
    decreases |steps|
  {
    if steps == [] {
    } else {
      ClosedForGood(Apply(s, steps[0]), steps[1..]);
    }
  }

  /** After shutdown on an open connection, whatever comes before shutdownInLoop: it does run, and then makes the
      half-close, once, unless writing is still on. */
  lemma ShutdownHalfCloses(s: State, steps: seq<Step>)
    requires Inv(s) && s.state == Connected && Legal(Apply(s, Shutdown), steps)
    requires forall i :: 0 <= i < |steps| ==> !steps[i].ShutdownInLoop?
    ensures var t := Run(Apply(s, Shutdown), steps);
            && (t.state == Disconnecting || t.state == Disconnected) && t.toShut == 1 && t.finished == 0
            && Enabled(t, ShutdownInLoop) && Apply(t, ShutdownInLoop).toShut == 0
            && Apply(t, ShutdownInLoop).finished == if t.writing then 0 else 1
  {
    hide StreamOk, TrailOk;
    StaysDown(Apply(s, Shutdown), steps);
  }

  lemma {:induction false} StaysDown(s: State, steps: seq<Step>)
    requires Legal(s, steps) && (s.state == Disconnecting || s.state == Disconnected)
    requires forall i :: 0 <= i < |steps| ==> !steps[i].ShutdownInLoop?
    ensures var t := Run(s, steps);
            (t.state == Disconnecting || t.state == Disconnected) && t.toShut == s.toShut && t.finished == s.finished
    decreases |steps|
  {
    if steps == [] {
    } else {
      assert forall i :: 0 <= i < |steps[1..]| ==> steps[1..][i] == steps[i + 1];
      StaysDown(Apply(s, steps[0]), steps[1..]);
    }
  }

  /** shutdownWrite is called at most once. When it is, everything accepted is in the kernel, unless the
      connection was closed while it was writing: that is exactly when it is called with output unsent. */
  lemma HalfClose(mark: nat, steps: seq<Step>)
    requires Legal(Initial(mark), steps)
    ensures var s := Run(Initial(mark), steps);
      && s.finished <= 1
      && (Enabled(s, ShutdownInLoop) && !s.writing ==>
            && s.finished == 0
            && Apply(s, ShutdownInLoop).finished == 1
            && (s.kernel == Concat(s.accepted) <==> !s.closedWriting)
            && (Apply(s, ShutdownInLoop).finishedLate <==> s.closedWriting))
      && (s.finishedLate ==> s.state == Disconnected && s.closedWriting)
  {
    RunKeepsInv(Initial(mark), steps);
  }

  /** A half-close that shutdownInLoop skipped because output was pending never happens: handleWrite does not
      retry it, nor does anything else. */
  lemma {:induction false} SkippedHalfCloseIsLost(s: State, steps: seq<Step>)
    requires Legal(s, steps) && s.toShut == 0 && (s.state == Disconnecting || s.state == Disconnected)
    ensures Run(s, steps).finished == s.finished
    decreases |steps|
  {
    if steps == [] {
    } else {
      SkippedHalfCloseIsLost(Apply(s, steps[0]), steps[1..]);
    }
  }

  /** Such a run: shutdown is called on another thread, the connection closes with output pending, and only
      then does the loop get to shutdownInLoop. */
  lemma HalfCloseWithOutputUnsent(b: Byte)
    ensures var steps := [Establish, Send([b], Failed(EWouldBlock)), Shutdown, Close, ShutdownInLoop];
            && Legal(Initial(1), steps)
            && var s := Run(Initial(1), steps); s.finished == 1 && s.finishedLate && s.kernel == [] && s.accepted == [[b]]
  {
    var s1 := Apply(Initial(1), Establish);
    var s2 := Apply(s1, Send([b], Failed(EWouldBlock)));
    assert s2.output == [b] && s2.writing && s2.accepted == [[b]] && s2.kernel == [] && s2.state == Connected;
    var last := [Shutdown, Close, ShutdownInLoop];
    UnsentTail(s2);
    var mid := [Send([b], Failed(EWouldBlock))] + last;
    RunCons(s1, Send([b], Failed(EWouldBlock)), last);
    RunCons(Initial(1), Establish, mid);
    assert [Establish, Send([b], Failed(EWouldBlock)), Shutdown, Close, ShutdownInLoop] == [Establish] + mid;
  }

  lemma RunCons(s: State, step: Step, steps: seq<Step>)
    requires Enabled(s, step) && Legal(Apply(s, step), steps)
    ensures Legal(s, [step] + steps) && Run(s, [step] + steps) == Run(Apply(s, step), steps)
  {
    hide Apply, Enabled;
    assert ([step] + steps)[1..] == steps;
  }

  /** shutdown, a close, then shutdownInLoop, from a connection with output pending. */
  lemma UnsentTail(s: State)
    requires s.state == Connected && s.writing && s.output != [] && s.toShut == 0
    ensures var steps := [Shutdown, Close, ShutdownInLoop];
            && Legal(s, steps)
            && var t := Run(s, steps);
               t.finished == s.finished + 1 && t.finishedLate && t.kernel == s.kernel && t.accepted == s.accepted
  {
    var s1 := Apply(s, Shutdown);
    var s2 := Apply(s1, Close);
    var s3 := Apply(s2, ShutdownInLoop);
    RunCons(s2, ShutdownInLoop, []);
    RunCons(s1, Close, [ShutdownInLoop]);
    RunCons(s, Shutdown, [Close, ShutdownInLoop]);
    assert [Close] + [ShutdownInLoop] == [Close, ShutdownInLoop];
    assert [Shutdown] + [Close, ShutdownInLoop] == [Shutdown, Close, ShutdownInLoop];
    assert [ShutdownInLoop] + [] == [ShutdownInLoop];
  }
}
