/** base/AsyncLogging.cpp: any number of threads that append messages, and the thread that writes full buffers to
    the log file, as a state machine.

    Each buffer has one owner (unique_ptr), so a buffer is its contents, and moving from a field leaves None. */
module LoggingMachine {
  import opened Endian
  import opened FixedBuffer
  import opened Sequences
  import opened Wrappers

  /** What output.append was called with: a buffer, or the notice that buffers were dropped. */
  datatype Chunk = Data(bytes: Bytes) | Dropped(buffers: nat)

  /** How far threadFunc got in its loop. */
  datatype Phase = Head | Swapped | Writing(written: nat) | Stopped

  datatype State = State(
    // guarded by the mutex
    current: Bytes,
    next: Option<Bytes>,
    buffers: seq<Bytes>,
    // owned by the writing thread
    phase: Phase,
    newBuffer1: Option<Bytes>,
    newBuffer2: Option<Bytes>,
    toWrite: seq<Bytes>,
    file: seq<Chunk>,
    // history
    appended: seq<Bytes>,            // every message, in lock order
    batches: seq<seq<Bytes>>)        // what each exchange took

  const INITIAL := State([], Some([]), [], Head, Some([]), Some([]), [], [], [], [])

  datatype Step =
    | Append(message: Bytes)         // append, on any thread
    | Exchange                       // the critical section of threadFunc, once its wait is over
    | Trim                           // the branch for more than 25 buffers
    | WriteOne
    | Refill                         // from the end of the write loop to the head of the loop
    | Stop                           // running_ found false

  const MANY: nat := 25

  predicate Enabled(s: State, step: Step) {
    match step
    case Append(_) => |s.current| <= LARGE_BUFFER
    case Exchange => s.phase == Head && s.newBuffer1.Some?
    case Trim => s.phase == Swapped
    case WriteOne => s.phase.Writing? && s.phase.written < |s.toWrite|
    case Refill => s.phase.Writing? && s.phase.written == |s.toWrite| && CanRefill(s)
    case Stop => s.phase == Head
  }

  /** The assertions before the two refills: there is a buffer to take each time. */
  predicate CanRefill(s: State) {
    |s.toWrite| >= (if s.newBuffer1.None? then 1 else 0) + (if s.newBuffer2.None? then 1 else 0)
  }

  function DoAppend(s: State, message: Bytes): State
    requires |s.current| <= LARGE_BUFFER
  {
    var t := s.(appended := s.appended + [message]);
    if LARGE_BUFFER - |s.current| > |message| then t.(current := Appended(s.current, LARGE_BUFFER, message))
    else
      var empty := if s.next.Some? && |s.next.value| <= LARGE_BUFFER then s.next.value else [];
      t.(buffers := s.buffers + [s.current], next := None, current := Appended(empty, LARGE_BUFFER, message))
  }

  function DoExchange(s: State): State
    requires Enabled(s, Exchange)
  {
    var batch := s.buffers + [s.current];
    var t := s.(phase := Swapped, current := s.newBuffer1.value, newBuffer1 := None,
                toWrite := batch, buffers := s.toWrite, batches := s.batches + [batch]);
    if s.next.None? then t.(next := s.newBuffer2, newBuffer2 := None) else t
  }

  function DoTrim(s: State): State {
    var t := s.(phase := Writing(0));
    if |s.toWrite| > MANY then t.(toWrite := s.toWrite[..2], file := s.file + [Dropped(|s.toWrite| - 2)]) else t
  }

  function DoWriteOne(s: State): State
    requires Enabled(s, WriteOne)
  {
    s.(file := s.file + [Data(s.toWrite[s.phase.written])], phase := Writing(s.phase.written + 1))
  }

  function DoRefill(s: State): State
    requires CanRefill(s)
  {
    s.(phase := Head, toWrite := [],
       newBuffer1 := if s.newBuffer1.None? then Some([]) else s.newBuffer1,
       newBuffer2 := if s.newBuffer2.None? then Some([]) else s.newBuffer2)
  }

  function Apply(s: State, step: Step): State
    requires Enabled(s, step)
  {
    match step
    case Append(message) => DoAppend(s, message)
    case Exchange => DoExchange(s)
    case Trim => DoTrim(s)
    case WriteOne => DoWriteOne(s)
    case Refill => DoRefill(s)
    case Stop => s.(phase := Stopped)
  }

  // ---- The invariant ----

  /** The messages that fit into an empty buffer. */
  function Fitting(messages: seq<Bytes>): seq<Bytes> {
    if messages == [] then []
    else
      var last := messages[|messages| - 1];
      Fitting(messages[..|messages| - 1]) + if |last| < LARGE_BUFFER then [last] else []
  }

  /** What of a batch is written: all of it, or of more than 25 buffers the first two. */
  function Kept(batch: seq<Bytes>): seq<Bytes> {
    if |batch| > MANY then batch[..2] else batch
  }

  function NoticeOf(batch: seq<Bytes>): seq<Chunk> {
    if |batch| > MANY then [Dropped(|batch| - 2)] else []
  }

  function DataOf(buffers: seq<Bytes>): seq<Chunk> {
    seq(|buffers|, i requires 0 <= i < |buffers| => Data(buffers[i]))
  }

  /** The file after batches are written out in full. */
  function Output(batches: seq<seq<Bytes>>): seq<Chunk> {
    if batches == [] then []
    else
      var last := batches[|batches| - 1];
      Output(batches[..|batches| - 1]) + NoticeOf(last) + DataOf(Kept(last))
  }

  /** Every message that fits is in some batch, in a full buffer, or in the current one, once and in order. */
  predicate StreamOk(appended: seq<Bytes>, batches: seq<seq<Bytes>>, buffers: seq<Bytes>, current: Bytes) {
    Concat(Fitting(appended)) == Concat(Concat(batches)) + (Concat(buffers) + current)
  }

  /** At every release of the mutex. */
  predicate FrontOk(current: Bytes, next: Option<Bytes>, buffers: seq<Bytes>) {
    && |current| < LARGE_BUFFER
    && (if next.None? then buffers != [] else next.value == [])
  }

  /** The assertions at the head of the loop, and what makes them hold again. */
  predicate SparesOk(phase: Phase, newBuffer1: Option<Bytes>, newBuffer2: Option<Bytes>, toWrite: seq<Bytes>) {
    && (newBuffer2.Some? ==> newBuffer2.value == [])
    && if phase.Head? || phase.Stopped? then newBuffer1 == Some([]) && newBuffer2.Some? && toWrite == []
       else newBuffer1.None? && |toWrite| >= (if newBuffer2.None? then 2 else 1)
  }

  predicate FileOk(phase: Phase, toWrite: seq<Bytes>, batches: seq<seq<Bytes>>, file: seq<Chunk>) {
    if phase.Head? || phase.Stopped? then file == Output(batches)
    else
      && batches != []
      && var done, last := Output(batches[..|batches| - 1]), batches[|batches| - 1];
         if phase.Swapped? then toWrite == last && file == done
         else toWrite == Kept(last) && phase.written <= |toWrite| && file == done + NoticeOf(last) + DataOf(toWrite[..phase.written])
  }

  predicate Inv(s: State) {
    && StreamOk(s.appended, s.batches, s.buffers, s.current)
    && FrontOk(s.current, s.next, s.buffers)
    && SparesOk(s.phase, s.newBuffer1, s.newBuffer2, s.toWrite)
    && FileOk(s.phase, s.toWrite, s.batches, s.file)
  }

  lemma FittingSnoc(messages: seq<Bytes>, message: Bytes)
    ensures Concat(Fitting(messages + [message])) == Concat(Fitting(messages)) + (if |message| < LARGE_BUFFER then message else [])
  {
    assert (messages + [message])[..|messages|] == messages;
    ConcatSnoc(Fitting(messages), message);
    assert Fitting(messages) + [] == Fitting(messages);
  }

  /** A message goes behind everything there is, if it fits at all. */
  lemma StreamGrows(appended: seq<Bytes>, batches: seq<seq<Bytes>>, buffers: seq<Bytes>, current: Bytes, message: Bytes)
    requires StreamOk(appended, batches, buffers, current)
    ensures StreamOk(appended + [message], batches, buffers, current + if |message| < LARGE_BUFFER then message else [])
  {
    hide Concat, Fitting;
    FittingSnoc(appended, message);
    var m := if |message| < LARGE_BUFFER then message else [];
    var taken, front := Concat(Concat(batches)), Concat(buffers);
    assert taken + (front + current) + m == taken + (front + (current + m));
  }

  lemma StreamRotates(appended: seq<Bytes>, batches: seq<seq<Bytes>>, buffers: seq<Bytes>, current: Bytes)
    requires StreamOk(appended, batches, buffers, current)
    ensures StreamOk(appended, batches, buffers + [current], [])
  {
    ConcatSnoc(buffers, current);
    hide Concat, Fitting;
    assert Concat(buffers + [current]) + [] == Concat(buffers) + current;
  }

  lemma AppendKeepsStream(s: State, message: Bytes)
    requires Inv(s)
    ensures var t := DoAppend(s, message); StreamOk(t.appended, t.batches, t.buffers, t.current)
  {
    hide StreamOk, FileOk, SparesOk;
    if LARGE_BUFFER - |s.current| > |message| {
      StreamGrows(s.appended, s.batches, s.buffers, s.current, message);
    } else {
      StreamRotates(s.appended, s.batches, s.buffers, s.current);
      StreamGrows(s.appended, s.batches, s.buffers + [s.current], [], message);
      assert DoAppend(s, message).current == [] + if |message| < LARGE_BUFFER then message else [];
    }
  }

  lemma AppendKeepsInv(s: State, message: Bytes)
    requires Inv(s)
    ensures Inv(DoAppend(s, message))
  {
    AppendKeepsStream(s, message);
    hide StreamOk, FileOk;
  }

  /** The full buffers and the current one become the last batch. */
  lemma StreamTaken(appended: seq<Bytes>, batches: seq<seq<Bytes>>, buffers: seq<Bytes>, current: Bytes)
    requires StreamOk(appended, batches, buffers, current)
    ensures StreamOk(appended, batches + [buffers + [current]], [], [])
  {
    var batch := buffers + [current];
    assert Concat<Byte>([]) == [];
    hide Fitting, Concat;
    ConcatSnoc(batches, batch);
    ConcatAppend(Concat(batches), batch);
    ConcatSnoc(buffers, current);
    var all := Concat(Concat(batches + [batch]));
    assert all + ([] + []) == all;
  }

  lemma ExchangeKeepsInv(s: State)
    requires Inv(s) && Enabled(s, Exchange)
    ensures Inv(DoExchange(s))
  {
    hide StreamOk, Output;
    StreamTaken(s.appended, s.batches, s.buffers, s.current);
    var batch := s.buffers + [s.current];
    assert (s.batches + [batch])[..|s.batches|] == s.batches;
  }

  lemma TrimKeepsInv(s: State)
    requires Inv(s) && Enabled(s, Trim)
    ensures Inv(DoTrim(s))
  {
    hide Output, StreamOk;
    assert DataOf(DoTrim(s).toWrite[..0]) == [];
  }

  lemma WriteOneKeepsInv(s: State)
    requires Inv(s) && Enabled(s, WriteOne)
    ensures Inv(DoWriteOne(s))
  {
    hide Output, StreamOk, Kept, NoticeOf;
    var n := s.phase.written;
    assert DataOf(s.toWrite[..n + 1]) == DataOf(s.toWrite[..n]) + [Data(s.toWrite[n])];
  }

  lemma RefillKeepsInv(s: State)
    requires Inv(s) && s.phase.Writing? && s.phase.written == |s.toWrite|
    ensures Enabled(s, Refill) && Inv(DoRefill(s))
  {
    hide StreamOk, Kept, NoticeOf;
    assert s.toWrite[..|s.toWrite|] == s.toWrite;
  }

  lemma StepKeepsInv(s: State, step: Step)
    requires Inv(s) && Enabled(s, step)
    ensures Inv(Apply(s, step))
  {
    hide StreamOk, FileOk, DoAppend, DoExchange, DoTrim, DoWriteOne, DoRefill;
    match step
    case Append(message) => AppendKeepsInv(s, message);
    case Exchange => ExchangeKeepsInv(s);
    case Trim => TrimKeepsInv(s);
    case WriteOne => WriteOneKeepsInv(s);
    case Refill => RefillKeepsInv(s);
    case Stop => StopKeepsInv(s);
  }

  lemma StopKeepsInv(s: State)
    requires Inv(s) && s.phase == Head
    ensures Inv(s.(phase := Stopped))
  {
    hide StreamOk, Output;
  }

  lemma InitialInv()
    ensures Inv(INITIAL)
  {
  }

  // ---- Runs ----

  predicate Legal(s: State, steps: seq<Step>)
    decreases |steps|
  {
    steps == [] || (Enabled(s, steps[0]) && Legal(Apply(s, steps[0]), steps[1..]))
  }

  function Run(s: State, steps: seq<Step>): State
    requires Legal(s, steps)
    decreases |steps|
  {
    if steps == [] then s else Run(Apply(s, steps[0]), steps[1..])
  }

  lemma {:induction false} RunKeepsInv(s: State, steps: seq<Step>)
    requires Inv(s) && Legal(s, steps)
    ensures Inv(Run(s, steps))
    decreases |steps|
  {
    hide Inv, Enabled, Apply;
    if steps == [] {
    } else {
      StepKeepsInv(s, steps[0]);
      RunKeepsInv(Apply(s, steps[0]), steps[1..]);
    }
  }

  lemma {:induction false} RunConcat(s: State, steps: seq<Step>, more: seq<Step>)
    requires Legal(s, steps) && Legal(Run(s, steps), more)
    ensures Legal(s, steps + more) && Run(s, steps + more) == Run(Run(s, steps), more)
    decreases |steps|
  {
    hide Enabled, Apply;
    if steps == [] {
      assert steps + more == more;
    } else {
      RunConcat(Apply(s, steps[0]), steps[1..], more);
      assert (steps + more)[1..] == steps[1..] + more;
    }
  }

  lemma RunOne(s: State, step: Step)
    requires Enabled(s, step)
    ensures Legal(s, [step]) && Run(s, [step]) == Apply(s, step)
  {
    hide Enabled, Apply;
    assert [step][1..] == [];
  }

  /** The messages of the calls of append, in the order in which these got the mutex. */
  function Messages(steps: seq<Step>): seq<Bytes> {
    if steps == [] then [] else (if steps[0].Append? then [steps[0].message] else []) + Messages(steps[1..])
  }

  /** How many times the writing thread exchanged buffers, and how many buffers it wrote. */
  function Exchanges(steps: seq<Step>): nat {
    if steps == [] then 0 else (if steps[0].Exchange? then 1 else 0) + Exchanges(steps[1..])
  }

  function Writes(steps: seq<Step>): nat {
    if steps == [] then 0 else (if steps[0].WriteOne? then 1 else 0) + Writes(steps[1..])
  }

  function BuffersIn(file: seq<Chunk>): nat {
    if file == [] then 0 else BuffersIn(file[..|file| - 1]) + if file[|file| - 1].Data? then 1 else 0
  }

  lemma BuffersInSnoc(file: seq<Chunk>, chunk: Chunk)
    ensures BuffersIn(file + [chunk]) == BuffersIn(file) + if chunk.Data? then 1 else 0
  {
    assert (file + [chunk])[..|file|] == file;
  }

  lemma StepCounts(s: State, step: Step)
    requires Enabled(s, step)
    ensures var t := Apply(s, step);
            && t.appended == s.appended + (if step.Append? then [step.message] else [])
            && |t.batches| == |s.batches| + (if step.Exchange? then 1 else 0)
            && BuffersIn(t.file) == BuffersIn(s.file) + (if step.WriteOne? then 1 else 0)
  {
    if step.WriteOne? {
      BuffersInSnoc(s.file, Data(s.toWrite[s.phase.written]));
    } else if step.Trim? {
      BuffersInSnoc(s.file, Dropped(if |s.toWrite| > 2 then |s.toWrite| - 2 else 0));
    }
    hide Appended;
  }

  lemma {:induction false} AppendedExactly(s: State, steps: seq<Step>)
    requires Legal(s, steps)
    ensures Run(s, steps).appended == s.appended + Messages(steps)
    decreases |steps|
  {
    hide Enabled, Apply, BuffersIn;
    if steps == [] {
    } else {
      StepCounts(s, steps[0]);
      AppendedExactly(Apply(s, steps[0]), steps[1..]);
      hide Run, Legal;
      var first := if steps[0].Append? then [steps[0].message] else [];
      assert s.appended + first + Messages(steps[1..]) == s.appended + (first + Messages(steps[1..]));
    }
  }

  lemma {:induction false} CountsExactly(s: State, steps: seq<Step>)
    requires Legal(s, steps)
    ensures var t := Run(s, steps);
            && |t.batches| == |s.batches| + Exchanges(steps)
            && BuffersIn(t.file) == BuffersIn(s.file) + Writes(steps)
    decreases |steps|
  {
    hide Enabled, Apply, BuffersIn, Messages;
    if steps == [] {
    } else {
      StepCounts(s, steps[0]);
      CountsExactly(Apply(s, steps[0]), steps[1..]);
    }
  }

  /** The history of a run is that of its steps: every message a call brought, every exchange, every buffer written. */
  lemma HistoryExactly(s: State, steps: seq<Step>)
    requires Legal(s, steps)
    ensures var t := Run(s, steps);
            && t.appended == s.appended + Messages(steps)
            && |t.batches| == |s.batches| + Exchanges(steps)
            && BuffersIn(t.file) == BuffersIn(s.file) + Writes(steps)
  {
    AppendedExactly(s, steps);
    CountsExactly(s, steps);
    hide Run, Legal;
  }

  /** How many buffers there are, each counted where it is owned. */
  function Owned(s: State): nat {
    1 + (if s.next.Some? then 1 else 0) + |s.buffers|
    + (if s.newBuffer1.Some? then 1 else 0) + (if s.newBuffer2.Some? then 1 else 0) + |s.toWrite|
  }

  /** No buffer has two owners or none: append makes a new one just when the current one is full and the spare is
      used up, the cut frees all but two, the refills keep just the two spares, and nothing else makes or frees any. */
  lemma BuffersConserved(s: State, step: Step)
    requires Inv(s) && Enabled(s, step)
    ensures var t := Apply(s, step);
            match step
            case Append(message) =>
              Owned(t) == Owned(s) + if |s.current| + |message| >= LARGE_BUFFER && s.next.None? then 1 else 0
            case Trim => Owned(t) == Owned(s) - if |s.toWrite| > 25 then |s.toWrite| - 2 else 0
            case Refill => t.toWrite == [] && Owned(t) == 3 + |t.buffers| + if t.next.Some? then 1 else 0
            case _ => Owned(t) == Owned(s)
  {
    hide StreamOk, FileOk, Appended;
  }

  /** The bytes of the file, without the notices. */
  function FileData(file: seq<Chunk>): Bytes {
    if file == [] then []
    else FileData(file[..|file| - 1]) + match file[|file| - 1] case Data(bytes) => bytes case Dropped(_) => []
  }

  lemma {:induction false} FileDataConcat(a: seq<Chunk>, b: seq<Chunk>)
    ensures FileData(a + b) == FileData(a) + FileData(b)
  {
    if b == [] {
      assert a + b == a;
    } else {
      FileDataConcat(a, b[..|b| - 1]);
      assert (a + b)[..|a + b| - 1] == a + b[..|b| - 1];
    }
  }

  lemma {:induction false} FileDataOfBuffers(buffers: seq<Bytes>)
    ensures FileData(DataOf(buffers)) == Concat(buffers)
  {
    if buffers == [] {
    } else {
      var init := buffers[..|buffers| - 1];
      FileDataOfBuffers(init);
      assert DataOf(buffers)[..|buffers| - 1] == DataOf(init);
    }
  }

  /** The buffers of all batches that are written, in order. */
  function AllKept(batches: seq<seq<Bytes>>): seq<Bytes> {
    if batches == [] then [] else AllKept(batches[..|batches| - 1]) + Kept(batches[|batches| - 1])
  }

  lemma AllKeptSnoc(batches: seq<seq<Bytes>>, batch: seq<Bytes>)
    ensures AllKept(batches + [batch]) == AllKept(batches) + Kept(batch)
  {
    assert (batches + [batch])[..|batches|] == batches;
  }

  lemma NoticesHaveNoData(batch: seq<Bytes>)
    ensures FileData(NoticeOf(batch)) == []
  {
    if |batch| > MANY {
      assert NoticeOf(batch)[..0] == [];
    }
  }

  /** What is written of a file by the time n buffers of the last batch are. */
  lemma DataOfBatch(done: seq<Chunk>, batch: seq<Bytes>, written: seq<Bytes>)
    ensures FileData(done + NoticeOf(batch) + DataOf(written)) == FileData(done) + Concat(written)
  {
    hide *;
    NoticesHaveNoData(batch);
    FileDataConcat(done + NoticeOf(batch), DataOf(written));
    FileDataConcat(done, NoticeOf(batch));
    FileDataOfBuffers(written);
    assert FileData(done) + [] == FileData(done);
  }

  lemma {:induction false} OutputIsKept(batches: seq<seq<Bytes>>)
    ensures FileData(Output(batches)) == Concat(AllKept(batches))
  {
    if batches == [] {
      assert Concat<Byte>([]) == [];
    } else {
      var init, last := batches[..|batches| - 1], batches[|batches| - 1];
      OutputIsKept(init);
      hide FileData, Concat, Kept, NoticeOf, DataOf;
      DataOfBatch(Output(init), last, Kept(last));
      ConcatAppend(AllKept(init), Kept(last));
    }
  }

  /** What remains to be written of the batch in hand. */
  function InHand(s: State): seq<Bytes> {
    match s.phase
    case Swapped => Kept(s.toWrite)
    case Writing(n) => if n <= |s.toWrite| then s.toWrite[n..] else []
    case _ => []
  }

  /** The batch in hand, in terms of how many of its kept buffers are written. */
  lemma HandIs(s: State, init: seq<seq<Bytes>>, last: seq<Bytes>) returns (n: nat)
    requires FileOk(s.phase, s.toWrite, s.batches, s.file) && !s.phase.Head? && !s.phase.Stopped?
    requires s.batches == init + [last]
    ensures n <= |Kept(last)| && InHand(s) == Kept(last)[n..]
    ensures s.file == Output(init) + NoticeOf(last) + DataOf(Kept(last)[..n]) || (n == 0 && s.file == Output(init))
  {
    hide Output, Kept, NoticeOf, DataOf;
    assert s.batches[..|s.batches| - 1] == init;
    n := if s.phase.Swapped? then 0 else s.phase.written;
  }

  lemma BusyWriting(s: State, init: seq<seq<Bytes>>, last: seq<Bytes>)
    requires FileOk(s.phase, s.toWrite, s.batches, s.file) && !s.phase.Head? && !s.phase.Stopped?
    requires s.batches == init + [last]
    ensures FileData(s.file) + Concat(InHand(s)) == Concat(AllKept(s.batches))
  {
    hide *;
    var n := HandIs(s, init, last);
    var kept := Kept(last);
    AllKeptSnoc(init, last);
    OutputIsKept(init);
    ConcatAppend(AllKept(init), kept);
    ConcatAppend(kept[..n], kept[n..]);
    assert kept[..n] + kept[n..] == kept;
    DataOfBatch(Output(init), last, kept[..n]);
    if n == 0 {
      NothingWritten(kept);
    }
    assert FileData(Output(init)) + Concat(kept[..n]) + Concat(kept[n..]) == FileData(Output(init)) + (Concat(kept[..n]) + Concat(kept[n..]));
  }

  lemma NothingWritten(kept: seq<Bytes>)
    ensures Concat(kept[..0]) == [] && forall b: Bytes :: b + [] == b
  {
  }

  /** What is in the file and what is still to be written of the batch in hand are exactly the kept buffers of all
      batches. */
  lemma FileAndHand(s: State)
    requires Inv(s)
    ensures FileData(s.file) + Concat(InHand(s)) == Concat(AllKept(s.batches))
  {
    hide StreamOk, FrontOk, SparesOk, FileData, Output, AllKept;
    if s.phase.Head? || s.phase.Stopped? {
      OutputIsKept(s.batches);
      assert FileData(s.file) + [] == FileData(s.file);
    } else {
      var init, last := s.batches[..|s.batches| - 1], s.batches[|s.batches| - 1];
      hide Concat;
      assert s.batches == init + [last];
      BusyWriting(s, init, last);
    }
  }

  /** No batch has had more than 25 buffers. */
  predicate NoneDropped(batches: seq<seq<Bytes>>) {
    forall i :: 0 <= i < |batches| ==> |batches[i]| <= MANY
  }

  lemma {:induction false} AllKeptIsAll(batches: seq<seq<Bytes>>)
    requires NoneDropped(batches)
    ensures AllKept(batches) == Concat(batches)
  {
    if batches == [] {
    } else {
      AllKeptIsAll(batches[..|batches| - 1]);
    }
  }

  /** Over every interleaving: the batches, the full buffers and the current buffer together are exactly the
      messages appended, in lock order, except those of the size of a whole buffer or more, which append drops;
      and the bytes of the file with the rest of the batch in hand are exactly the buffers kept of all batches.
      So if no batch was cut, the file, the batch in hand and the buffers are all those messages. */
  lemma Conservation(steps: seq<Step>)
    requires Legal(INITIAL, steps)
    ensures var s := Run(INITIAL, steps);
      && Concat(Fitting(s.appended)) == Concat(Concat(s.batches)) + (Concat(s.buffers) + s.current)
      && FileData(s.file) + Concat(InHand(s)) == Concat(AllKept(s.batches))
      && (NoneDropped(s.batches) ==>
            Concat(Fitting(s.appended)) == FileData(s.file) + Concat(InHand(s)) + Concat(s.buffers) + s.current)
  {
    InitialInv();
    RunKeepsInv(INITIAL, steps);
    var s := Run(INITIAL, steps);
    FileAndHand(s);
    hide Run, Legal, FileData, InHand, Fitting, FrontOk, SparesOk, FileOk, Concat;
    if NoneDropped(s.batches) {
      AllKeptIsAll(s.batches);
    }
  }

  /** With cuts: the file holds, batch by batch and in order, the whole batch, or after a notice its first two
      buffers when it had more than 25; and the batches with the full buffers and the current one are exactly
      the messages appended that fit. So only buffers at positions 2 and up of such batches are missing. */
  lemma MissingExactly(steps: seq<Step>)
    requires Legal(INITIAL, steps)
    ensures var s := Run(INITIAL, steps);
      && FileOk(s.phase, s.toWrite, s.batches, s.file)
      && Concat(Fitting(s.appended)) == Concat(Concat(s.batches)) + (Concat(s.buffers) + s.current)
  {
    InitialInv();
    RunKeepsInv(INITIAL, steps);
  }

  /** The buffers are recycled without ever running dry, under any interleaving of appends: at the head of the
      loop there are two empty spares and no batch, the batch is never empty after an exchange, and both
      refills find a buffer. */
  lemma RecyclingNeverRunsDry(steps: seq<Step>)
    requires Legal(INITIAL, steps)
    ensures var s := Run(INITIAL, steps);
      && (s.phase.Head? ==> s.newBuffer1 == Some([]) && s.newBuffer2 == Some([]) && s.toWrite == [] && Enabled(s, Exchange))
      && (s.phase.Swapped? || s.phase.Writing? ==> s.toWrite != [] && CanRefill(s))
      && (s.next.None? ==> s.buffers != [])
      && forall message :: Enabled(s, Append(message))
  {
    InitialInv();
    RunKeepsInv(INITIAL, steps);
  }
}
