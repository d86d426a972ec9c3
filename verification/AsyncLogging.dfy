/** base/AsyncLogging.cpp as a class: append for the front end, the loop of threadFunc for the back end. */
module AsyncLogging {
  import opened Endian
  import opened FixedBuffer
  import opened Wrappers
  import opened M = LoggingMachine

  /** What other threads append during one round of the loop: until its wait is over, and after its exchange. */
  datatype Round = Round(waiting: seq<Bytes>, writing: seq<Bytes>)

  function AppendAll(s: State, messages: seq<Bytes>): State
    requires Inv(s)
    ensures Inv(AppendAll(s, messages)) && AppendAll(s, messages).phase == s.phase
    ensures AppendAll(s, messages).toWrite == s.toWrite && AppendAll(s, messages).batches == s.batches
    decreases |messages|
  {
    if messages == [] then s
    else
      AppendKeepsInv(s, messages[0]);
      AppendAll(DoAppend(s, messages[0]), messages[1..])
  }

  lemma {:induction false} AllAppended(s: State, messages: seq<Bytes>)
    requires Inv(s)
    ensures AppendAll(s, messages).appended == s.appended + messages
    decreases |messages|
  {
    if messages == [] {
    } else {
      AppendKeepsInv(s, messages[0]);
      OneAppended(s, messages[0]);
      hide Inv, DoAppend;
      AllAppended(DoAppend(s, messages[0]), messages[1..]);
      assert s.appended + [messages[0]] + messages[1..] == s.appended + messages;
    }
  }

  lemma OneAppended(s: State, message: Bytes)
    requires Inv(s)
    ensures DoAppend(s, message).appended == s.appended + [message]
  {
    hide Appended;
  }

  /** The first n turns of the write loop. */
  function WriteOut(s: State, n: nat): State
    requires s.phase == Writing(0) && n <= |s.toWrite|
    ensures WriteOut(s, n) == s.(phase := Writing(n), file := s.file + DataOf(s.toWrite[..n]))
  {
    if n == 0 then s else DoWriteOne(WriteOut(s, n - 1))
  }

  lemma {:induction false} WriteOutKeepsInv(s: State, n: nat)
    requires Inv(s) && s.phase == Writing(0) && n <= |s.toWrite|
    ensures Inv(WriteOut(s, n))
  {
    hide Inv, DataOf;
    if n == 0 {
    } else {
      WriteOutKeepsInv(s, n - 1);
      WriteOneKeepsInv(WriteOut(s, n - 1));
    }
  }

  /** What the invariant says about the fields of one phase. */
  lemma FieldsOk(s: State)
    requires Inv(s)
    ensures FrontOk(s.current, s.next, s.buffers)
    ensures SparesOk(s.phase, s.newBuffer1, s.newBuffer2, s.toWrite)
    ensures s.phase.Head? ==> Enabled(s, M.Exchange)
    ensures s.phase.Swapped? ==> Enabled(s, M.Trim)
    ensures s.phase.Head? ==> s.file == Output(s.batches)
  {
  }

  /** One turn of the loop of threadFunc. */
  function DoRound(s: State, round: Round): (t: State)
    requires Inv(s) && s.phase == Head
    ensures Inv(t) && t.phase == Head && |t.batches| == |s.batches| + 1
    ensures t.appended == s.appended + round.waiting + round.writing
  {
    hide Inv, WriteOut;
    var waited := AppendAll(s, round.waiting);
    AllAppended(s, round.waiting);
    FieldsOk(waited);
    ExchangeKeepsInv(waited);
    var swapped := DoExchange(waited);
    TrimKeepsInv(swapped);
    var trimmed := DoTrim(swapped);
    WriteOutKeepsInv(trimmed, |trimmed.toWrite|);
    var written := AppendAll(WriteOut(trimmed, |trimmed.toWrite|), round.writing);
    AllAppended(WriteOut(trimmed, |trimmed.toWrite|), round.writing);
    RefillKeepsInv(written);
    DoRefill(written)
  }

  function DoRounds(s: State, rounds: seq<Round>): (t: State)
    requires Inv(s) && s.phase == Head
    ensures Inv(t) && t.phase == Head && |t.batches| == |s.batches| + |rounds| && s.appended <= t.appended
    decreases |rounds|
  {
    if rounds == [] then s else DoRounds(DoRound(s, rounds[0]), rounds[1..])
  }

  // ---- Rounds are runs ----

  lemma {:induction false} AppendsAreRun(s: State, messages: seq<Bytes>) returns (steps: seq<Step>)
    requires Inv(s)
    ensures Legal(s, steps) && Run(s, steps) == AppendAll(s, messages)
    decreases |messages|
  {
    if messages == [] {
      steps := [];
    } else {
      AppendKeepsInv(s, messages[0]);
      AppendIsStep(s, messages[0]);
      hide Inv, DoAppend, Apply, Enabled;
      var rest := AppendsAreRun(DoAppend(s, messages[0]), messages[1..]);
      RunOne(s, M.Append(messages[0]));
      RunConcat(s, [M.Append(messages[0])], rest);
      steps := [M.Append(messages[0])] + rest;
    }
  }

  lemma AppendIsStep(s: State, message: Bytes)
    requires Inv(s)
    ensures Enabled(s, M.Append(message)) && Apply(s, M.Append(message)) == DoAppend(s, message)
  {
  }

  lemma {:induction false} WritesAreRun(s: State, n: nat) returns (steps: seq<Step>)
    requires s.phase == Writing(0) && n <= |s.toWrite|
    ensures Legal(s, steps) && Run(s, steps) == WriteOut(s, n)
  {
    if n == 0 {
      steps := [];
    } else {
      var init := WritesAreRun(s, n - 1);
      var t := WriteOut(s, n - 1);
      assert Enabled(t, WriteOne) && Apply(t, WriteOne) == WriteOut(s, n);
      hide Apply, Enabled, WriteOut;
      RunOne(t, WriteOne);
      RunConcat(s, init, [WriteOne]);
      steps := init + [WriteOne];
    }
  }

  /** The steps of the back end between the appends. */
  lemma BackEndIsRun(s: State) returns (steps: seq<Step>)
    requires Inv(s) && s.phase == Head
    ensures Enabled(s, M.Exchange) && Inv(DoExchange(s)) && Legal(s, steps)
    ensures var trimmed := DoTrim(DoExchange(s));
            trimmed.phase == Writing(0) && Run(s, steps) == WriteOut(trimmed, |trimmed.toWrite|)
  {
    FieldsOk(s);
    ExchangeKeepsInv(s);
    var swapped := DoExchange(s);
    var trimmed := DoTrim(swapped);
    assert Apply(s, M.Exchange) == swapped && Enabled(swapped, M.Trim) && Apply(swapped, M.Trim) == trimmed;
    hide Inv, Apply, Enabled, WriteOut;
    var writes := WritesAreRun(trimmed, |trimmed.toWrite|);
    RunOne(swapped, M.Trim);
    RunConcat(swapped, [M.Trim], writes);
    RunOne(s, M.Exchange);
    RunConcat(s, [M.Exchange], [M.Trim] + writes);
    steps := [M.Exchange] + ([M.Trim] + writes);
  }

  lemma RefillIsStep(s: State)
    requires Inv(s) && s.phase.Writing? && s.phase.written == |s.toWrite|
    ensures Enabled(s, M.Refill) && Apply(s, M.Refill) == DoRefill(s)
  {
    RefillKeepsInv(s);
  }

  lemma RoundIsRun(s: State, round: Round) returns (steps: seq<Step>)
    requires Inv(s) && s.phase == Head
    ensures Legal(s, steps) && Run(s, steps) == DoRound(s, round)
  {
    hide Inv, Apply, Enabled, WriteOut, DoRefill, DoTrim, DoExchange;
    var waited := AppendAll(s, round.waiting);
    var first := AppendsAreRun(s, round.waiting);
    var second := BackEndIsRun(waited);
    RunConcat(s, first, second);
    var trimmed := DoTrim(DoExchange(waited));
    var out := Run(s, first + second);
    Written(waited);
    var third := AppendsAreRun(out, round.writing);
    RunConcat(s, first + second, third);
    var all := AppendAll(out, round.writing);
    StillWritten(out, round.writing);
    RefillIsStep(all);
    RunOne(all, M.Refill);
    RunConcat(s, first + second + third, [M.Refill]);
    steps := first + second + third + [M.Refill];
  }

  lemma Written(s: State)
    requires Inv(s) && s.phase == Head
    ensures Enabled(s, M.Exchange)
    ensures var trimmed := DoTrim(DoExchange(s));
            && trimmed.phase == Writing(0)
            && var t := WriteOut(trimmed, |trimmed.toWrite|);
               Inv(t) && t.phase == Writing(|t.toWrite|)
  {
    FieldsOk(s);
    ExchangeKeepsInv(s);
    TrimKeepsInv(DoExchange(s));
    var trimmed := DoTrim(DoExchange(s));
    hide Inv, DoExchange;
    WriteOutKeepsInv(trimmed, |trimmed.toWrite|);
  }

  lemma StillWritten(s: State, messages: seq<Bytes>)
    requires Inv(s) && s.phase == Writing(|s.toWrite|)
    ensures var t := AppendAll(s, messages); Inv(t) && t.phase == Writing(|t.toWrite|)
  {
  }

  /** Whatever other threads append meanwhile, the loop of threadFunc is a run of the machine. */
  lemma {:induction false} RoundsAreRun(s: State, rounds: seq<Round>) returns (steps: seq<Step>)
    requires Inv(s) && s.phase == Head
    ensures Legal(s, steps) && Run(s, steps) == DoRounds(s, rounds)
    decreases |rounds|
  {
    hide Inv, Apply, Enabled, DoRound;
    if rounds == [] {
      steps := [];
    } else {
      var first := RoundIsRun(s, rounds[0]);
      var rest := RoundsAreRun(DoRound(s, rounds[0]), rounds[1..]);
      RunConcat(s, first, rest);
      steps := first + rest;
    }
  }

  class AsyncLogging {
    var currentBuffer: Bytes
    var nextBuffer: Option<Bytes>
    var buffers: seq<Bytes>
    var phase: Phase
    var newBuffer1: Option<Bytes>
    var newBuffer2: Option<Bytes>
    var buffersToWrite: seq<Bytes>
    var output: seq<Chunk>

    ghost var appended: seq<Bytes>
    ghost var batches: seq<seq<Bytes>>

    ghost function View(): State
      reads this
    {
      State(currentBuffer, nextBuffer, buffers, phase, newBuffer1, newBuffer2, buffersToWrite, output, appended, batches)
    }

    constructor ()
      ensures View() == INITIAL && Inv(View())
    {
      currentBuffer, nextBuffer, buffers, phase := [], Some([]), [], Head;
      newBuffer1, newBuffer2, buffersToWrite, output := Some([]), Some([]), [], [];
      appended, batches := [], [];
      new;
      InitialInv();
    }

    method Append(logline: Bytes)
      requires Inv(View())
      modifies this`currentBuffer, this`nextBuffer, this`buffers, this`appended
      ensures Inv(View()) && View() == DoAppend(old(View()), logline)
    {
      hide Inv, SparesOk;
      AppendKeepsInv(View(), logline);
      FieldsOk(View());
      appended := appended + [logline];
      if LARGE_BUFFER - |currentBuffer| > |logline| {
        currentBuffer := Appended(currentBuffer, LARGE_BUFFER, logline);
      } else {
        buffers := buffers + [currentBuffer];
        if nextBuffer.Some? {
          currentBuffer := nextBuffer.value;
          nextBuffer := None;
        } else {
          currentBuffer := [];  // a new buffer, rarely
        }
        currentBuffer := Appended(currentBuffer, LARGE_BUFFER, logline);
      }
    }

    /** Other threads get the mutex for these messages. */
    method AppendEach(messages: seq<Bytes>)
      requires Inv(View())
      modifies this`currentBuffer, this`nextBuffer, this`buffers, this`appended
      ensures Inv(View()) && View() == AppendAll(old(View()), messages)
    {
      hide Inv, DoAppend;
      var i := 0;
      while i < |messages|
        invariant 0 <= i <= |messages| && Inv(View())
        invariant AppendAll(View(), messages[i..]) == AppendAll(old(View()), messages)
      {
        assert messages[i..][0] == messages[i] && messages[i..][1..] == messages[i + 1..];
        Append(messages[i]);
        i := i + 1;
      }
    }

    /** The critical section of threadFunc, after its wait. */
    method Exchange()
      requires Inv(View()) && phase == Head
      modifies this`currentBuffer, this`nextBuffer, this`buffers, this`phase, this`newBuffer1, this`newBuffer2,
               this`buffersToWrite, this`batches
      ensures Inv(View()) && View() == DoExchange(old(View()))
    {
      hide Inv;
      FieldsOk(View());
      ExchangeKeepsInv(View());
      buffers := buffers + [currentBuffer];
      currentBuffer, newBuffer1 := newBuffer1.value, None;
      buffersToWrite, buffers := buffers, buffersToWrite;
      if nextBuffer.None? {
        nextBuffer, newBuffer2 := newBuffer2, None;
      }
      batches := batches + [buffersToWrite];
      phase := Swapped;
    }

    method Trim()
      requires Inv(View()) && phase == Swapped
      modifies this`buffersToWrite, this`output, this`phase
      ensures Inv(View()) && View() == DoTrim(old(View()))
    {
      hide Inv;
      FieldsOk(View());
      TrimKeepsInv(View());
      if |buffersToWrite| > MANY {
        output := output + [Dropped(|buffersToWrite| - 2)];
        buffersToWrite := buffersToWrite[..2];
      }
      phase := Writing(0);
    }

    /** The write loop. */
    method WriteBatch()
      requires Inv(View()) && phase == Writing(0)
      modifies this`output, this`phase
      ensures Inv(View()) && View() == WriteOut(old(View()), |buffersToWrite|)
    {
      hide Inv;
      var i := 0;
      while i < |buffersToWrite|
        invariant 0 <= i <= |buffersToWrite|
        invariant View() == WriteOut(old(View()), i)
      {
        output := output + [Data(buffersToWrite[i])];
        phase := Writing(i + 1);
        i := i + 1;
      }
      WriteOutKeepsInv(old(View()), i);
    }

    /** The two refills; the source's assertions before each hold. */
    method Refill()
      requires Inv(View()) && phase == Writing(|buffersToWrite|)
      modifies this`buffersToWrite, this`newBuffer1, this`newBuffer2, this`phase
      ensures Inv(View()) && View() == DoRefill(old(View()))
    {
      hide Inv;
      FieldsOk(View());
      RefillKeepsInv(View());
      if |buffersToWrite| > 2 {
        buffersToWrite := buffersToWrite[..2];
      }
      if newBuffer1.None? {
        assert buffersToWrite != [];
        newBuffer1 := Some([]);     // the last buffer, reset
        buffersToWrite := buffersToWrite[..|buffersToWrite| - 1];
      }
      if newBuffer2.None? {
        assert buffersToWrite != [];
        newBuffer2 := Some([]);     // the last buffer, reset
        buffersToWrite := buffersToWrite[..|buffersToWrite| - 1];
      }
      buffersToWrite := [];
      phase := Head;
    }

    /** threadFunc: its loop, one round for each element of the schedule, until running_ is false. The source's
        assertions hold in each round, whatever other threads append in between. */
    method ThreadFunc(schedule: seq<Round>)
      requires Inv(View()) && phase == Head
      modifies this
      ensures Inv(View()) && View() == DoRounds(old(View()), schedule).(phase := Stopped)
      ensures output == Output(batches) && |batches| == |old(batches)| + |schedule| && old(appended) <= appended
    {
      hide Inv, DoRound;
      var i := 0;
      while i < |schedule|
        invariant 0 <= i <= |schedule| && Inv(View()) && phase == Head
        invariant DoRounds(View(), schedule[i..]) == DoRounds(old(View()), schedule)
      {
        assert schedule[i..][0] == schedule[i] && schedule[i..][1..] == schedule[i + 1..];
        TurnLoop(schedule[i]);
        i := i + 1;
      }
      FieldsOk(View());
      StopKeepsInv(View());
      phase := Stopped;
    }

    method TurnLoop(round: Round)
      requires Inv(View()) && phase == Head
      modifies this
      ensures Inv(View()) && phase == Head && View() == DoRound(old(View()), round)
      ensures appended == old(appended) + round.waiting + round.writing
    {
      hide Inv, AppendAll, WriteOut;
      FieldsOk(View());
      assert newBuffer1 == Some([]) && newBuffer2 == Some([]) && buffersToWrite == [];
      AppendEach(round.waiting);
      FieldsOk(View());
      Exchange();
      FieldsOk(View());
      assert buffersToWrite != [];
      Trim();
      WriteBatch();
      AppendEach(round.writing);
      Refill();
    }
  }
}
