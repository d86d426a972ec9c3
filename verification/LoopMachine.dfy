/** net/EventLoop.cpp as a state machine: one loop thread and any number of other threads that queue functors
    or call quit. A step is what happens between two points where another thread can intervene. */
module LoopMachine {
  type Functor = nat
  type Thread = nat

  const EVENTFD_MAX: nat := 0xffff_ffff_ffff_fffe

  /** Where the loop thread is. Outside covers the time before loop() and after it returned. Releasing is the end of
      doPendingFunctors, past the reset of callingPendingFunctors_: its local vector and the functors in it are
      destroyed, and what they owned may queue functors from its destructors. */
  datatype Phase =
    | Outside
    | Head                                       // about to test quit_
    | Polling
    | Handling(wakeupActive: bool)               // the wakeup channel is among the active ones, not yet handled
    | Swapping                                   // doPendingFunctors, before it takes the lock
    | Running(functors: seq<Functor>, next: nat)
    | Releasing(functors: seq<Functor>)

  datatype State = State(
    phase: Phase,
    quit: bool,
    pending: seq<Functor>,      // pendingFunctors_
    calling: bool,              // callingPendingFunctors_
    eventfd: nat,               // the counter behind wakeupFd_
    owing: set<Thread>,         // other threads past their push or their store to quit_, before wakeup()
    selfOwing: bool,            // the loop thread past its push, before wakeup()
    silent: nat,                // how many of the pending functors the loop thread queued without a wakeup
    taken: nat,                 // history: how many functors had been queued at the last swap
    pushed: seq<Functor>,       // history
    executed: seq<Functor>)     // history

  const INITIAL := State(Outside, false, [], false, 0, {}, false, 0, 0, [], [])

  datatype Step =
    | StartLoop
    | TestQuit
    | PollReturns(wakeupActive: bool)
    | HandleRead
    | HandlersDone
    | Swap
    | RunFunctor
    | FunctorsDone
    | Released
    | LoopPush(functor: Functor)          // queueInLoop called on the loop thread
    | LoopWakeup
    | LoopQuit
    | ForeignPush(thread: Thread, functor: Functor)
    | ForeignQuit(thread: Thread)
    | ForeignWakeup(thread: Thread)

  /** The loop thread is in code of its user: callbacks, functors, destructors of functors, or not in loop() at all. */
  predicate InUserCode(s: State) {
    !s.selfOwing && (s.phase.Outside? || s.phase.Handling? || s.phase.Running? || (s.phase.Releasing? && s.phase.functors != []))
  }

  predicate Enabled(s: State, step: Step) {
    match step
    case StartLoop => s.phase == Outside
    case TestQuit => s.phase == Head
    case PollReturns(wakeupActive) => s.phase == Polling && (wakeupActive ==> s.eventfd > 0)
    case HandleRead => s.phase == Handling(true)
    case HandlersDone => s.phase == Handling(false)
    case Swap => s.phase == Swapping
    case RunFunctor => s.phase.Running? && !s.selfOwing && s.phase.next < |s.phase.functors|
    case FunctorsDone => s.phase.Running? && !s.selfOwing && s.phase.next == |s.phase.functors|
    case Released => s.phase.Releasing?
    case LoopPush(f) => InUserCode(s)
    case LoopWakeup => s.selfOwing
    case LoopQuit => InUserCode(s)
    case ForeignPush(t, f) => t !in s.owing
    case ForeignQuit(t) => t !in s.owing
    case ForeignWakeup(t) => t in s.owing
  }

  /** Writing 1 to the eventfd; at its maximum the non-blocking write fails and the counter stays. */
  function Write(eventfd: nat): nat {
    if eventfd < EVENTFD_MAX then eventfd + 1 else eventfd
  }

  function Push(s: State, f: Functor): State {
    s.(pending := s.pending + [f], pushed := s.pushed + [f])
  }

  function Apply(s: State, step: Step): State
    requires Enabled(s, step)
  {
    match step
    case StartLoop => s.(phase := Head, quit := false)
    case TestQuit => s.(phase := if s.quit then Outside else Polling)
    case PollReturns(wakeupActive) => s.(phase := Handling(wakeupActive))
    case HandleRead => s.(phase := Handling(false), eventfd := 0)
    case HandlersDone => s.(phase := Swapping, calling := true)
    case Swap => s.(phase := Running(s.pending, 0), pending := [], silent := 0, taken := |s.pushed|)
    case RunFunctor =>
      s.(phase := s.phase.(next := s.phase.next + 1), executed := s.executed + [s.phase.functors[s.phase.next]])
    case FunctorsDone => s.(phase := Releasing(s.phase.functors), calling := false)
    case Released => s.(phase := Head)
    case LoopPush(f) => Push(s, f).(selfOwing := s.calling, silent := if s.calling then s.silent else s.silent + 1)
    case LoopWakeup => s.(selfOwing := false, eventfd := Write(s.eventfd))
    case LoopQuit => s.(quit := true)
    case ForeignPush(t, f) => Push(s, f).(owing := s.owing + {t})
    case ForeignQuit(t) => s.(quit := true, owing := s.owing + {t})
    case ForeignWakeup(t) => s.(owing := s.owing - {t}, eventfd := Write(s.eventfd))
  }

  /** The poll returns, or is about to be made to. */
  predicate Woken(s: State) {
    s.eventfd > 0 || s.owing != {} || s.selfOwing
  }

  function InFlight(phase: Phase): seq<Functor> {
    if phase.Running? && phase.next <= |phase.functors| then phase.functors[phase.next..] else []
  }

  // ---- The invariant ----

  predicate ShapeOk(phase: Phase, calling: bool, selfOwing: bool, eventfd: nat) {
    && (calling <==> phase.Swapping? || phase.Running?)
    && (selfOwing ==> phase.Running?)
    && (phase == Handling(true) ==> eventfd > 0)
    && (phase.Running? ==> phase.next <= |phase.functors|)
  }

  /** Except between reading the eventfd and the swap, a pending functor that is not silent is announced, and a
      loop that is told to quit while it polls is. */
  predicate AnnouncedOk(phase: Phase, quit: bool, pending: nat, silent: nat, woken: bool) {
    && silent <= pending
    && (phase != Handling(false) && phase != Swapping && silent < pending ==> woken)
    && (phase.Polling? && quit ==> woken)
  }

  /** Functors run once each, in the order they were queued. */
  predicate OrderOk(phase: Phase, pending: seq<Functor>, taken: nat, pushed: seq<Functor>, executed: seq<Functor>) {
    && pushed == executed + InFlight(phase) + pending
    && taken == |executed| + |InFlight(phase)|
  }

  predicate Inv(s: State) {
    && ShapeOk(s.phase, s.calling, s.selfOwing, s.eventfd)
    && AnnouncedOk(s.phase, s.quit, |s.pending|, s.silent, Woken(s))
    && OrderOk(s.phase, s.pending, s.taken, s.pushed, s.executed)
  }

  lemma PushKeepsOrder(phase: Phase, pending: seq<Functor>, taken: nat, pushed: seq<Functor>, executed: seq<Functor>, f: Functor)
    requires OrderOk(phase, pending, taken, pushed, executed)
    ensures OrderOk(phase, pending + [f], taken, pushed + [f], executed)
  {
    assert executed + InFlight(phase) + (pending + [f]) == executed + InFlight(phase) + pending + [f];
  }

  lemma SwapKeepsOrder(phase: Phase, pending: seq<Functor>, taken: nat, pushed: seq<Functor>, executed: seq<Functor>)
    requires OrderOk(phase, pending, taken, pushed, executed) && phase == Swapping
    ensures OrderOk(Running(pending, 0), [], |pushed|, pushed, executed)
  {
    assert executed + [] + pending == executed + pending + [];
  }

  lemma SplitFirst(functors: seq<Functor>, next: nat)
    requires next < |functors|
    ensures functors[next..] == [functors[next]] + functors[next + 1..]
  {
  }

  lemma Regroup(a: seq<Functor>, b: seq<Functor>, c: seq<Functor>, d: seq<Functor>)
    ensures a + (b + c) + d == a + b + c + d
  {
  }

  lemma RunKeepsOrder(functors: seq<Functor>, next: nat, pending: seq<Functor>, taken: nat, pushed: seq<Functor>, executed: seq<Functor>)
    requires OrderOk(Running(functors, next), pending, taken, pushed, executed) && next < |functors|
    ensures OrderOk(Running(functors, next + 1), pending, taken, pushed, executed + [functors[next]])
  {
    SplitFirst(functors, next);
    Regroup(executed, [functors[next]], functors[next + 1..], pending);
  }

  /** Steps that queue or execute nothing. */
  lemma OtherKeepsOrder(s: State, step: Step)
    requires Inv(s) && Enabled(s, step)
    requires !step.Swap? && !step.RunFunctor? && !step.LoopPush? && !step.ForeignPush?
    ensures var t := Apply(s, step); OrderOk(t.phase, t.pending, t.taken, t.pushed, t.executed)
  {
    hide AnnouncedOk;
  }

  lemma StepKeepsOrder(s: State, step: Step)
    requires Inv(s) && Enabled(s, step)
    ensures var t := Apply(s, step); OrderOk(t.phase, t.pending, t.taken, t.pushed, t.executed)
  {
    hide OrderOk, ShapeOk, AnnouncedOk;
    match step
    case Swap => SwapKeepsOrder(s.phase, s.pending, s.taken, s.pushed, s.executed);
    case RunFunctor => RunKeepsOrder(s.phase.functors, s.phase.next, s.pending, s.taken, s.pushed, s.executed);
    case LoopPush(f) => PushKeepsOrder(s.phase, s.pending, s.taken, s.pushed, s.executed, f);
    case ForeignPush(t, f) => PushKeepsOrder(s.phase, s.pending, s.taken, s.pushed, s.executed, f);
    case _ => OtherKeepsOrder(s, step);
  }

  lemma StepKeepsShape(s: State, step: Step)
    requires ShapeOk(s.phase, s.calling, s.selfOwing, s.eventfd) && Enabled(s, step)
    ensures var t := Apply(s, step); ShapeOk(t.phase, t.calling, t.selfOwing, t.eventfd)
  {
  }

  lemma StepKeepsAnnounced(s: State, step: Step)
    requires Inv(s) && Enabled(s, step)
    ensures var t := Apply(s, step); AnnouncedOk(t.phase, t.quit, |t.pending|, t.silent, Woken(t))
  {
    hide OrderOk;
  }

  lemma StepKeepsInv(s: State, step: Step)
    requires Inv(s) && Enabled(s, step)
    ensures Inv(Apply(s, step))
  {
    StepKeepsOrder(s, step);
    StepKeepsAnnounced(s, step);
    StepKeepsShape(s, step);
    hide OrderOk, ShapeOk, AnnouncedOk, Apply;
  }

  // ---- Runs ----

  ghost predicate Legal(s: State, steps: seq<Step>)
    decreases |steps|
  {
    steps == [] || (Enabled(s, steps[0]) && Legal(Apply(s, steps[0]), steps[1..]))
  }

  ghost function Run(s: State, steps: seq<Step>): State
    requires Legal(s, steps)
    decreases |steps|
  {
    if steps == [] then s else Run(Apply(s, steps[0]), steps[1..])
  }

  lemma {:induction false} RunKeepsInv(s: State, steps: seq<Step>)
    requires Inv(s) && Legal(s, steps)
    ensures Inv(Run(s, steps))
    decreases |steps|
  {
    hide Inv, Enabled, Apply;
    if steps == [] {
    } else {
      StepKeepsInv(s, steps[0]);
      RunKeepsInv(Apply(s, steps[0]), steps[1..]);
    }
  }

  lemma {:induction false} RunConcat(s: State, steps: seq<Step>, more: seq<Step>)
    requires Legal(s, steps) && Legal(Run(s, steps), more)
    ensures Legal(s, steps + more) && Run(s, steps + more) == Run(Run(s, steps), more)
    decreases |steps|
  {
    if steps == [] {
      assert steps + more == more;
    } else {
      RunConcat(Apply(s, steps[0]), steps[1..], more);
      assert (steps + more)[1..] == steps[1..] + more;
    }
  }

  /** In every run, whatever the interleaving: functors execute in queueing order, none twice and none skipped;
      and a loop that polls with a functor pending is woken (the eventfd is readable already, or a thread has its
      wakeup still to come), unless the loop thread itself queued all the pending ones silently: before loop(),
      or from destructors of executed functors. A loop told to quit while it polls is woken too. */
  lemma NoLostWakeup(steps: seq<Step>)
    requires Legal(INITIAL, steps)
    ensures var s := Run(INITIAL, steps);
      && s.pushed == s.executed + InFlight(s.phase) + s.pending
      && s.silent <= |s.pending|
      && (s.phase.Polling? && (s.silent < |s.pending| || s.quit) ==> s.eventfd > 0 || s.owing != {})
  {
    RunKeepsInv(INITIAL, steps);
  }

  /** When the loop tests quit_ and polls again, every functor queued before its last swap has been executed. */
  lemma PollsWithNothingInFlight(steps: seq<Step>)
    requires Legal(INITIAL, steps)
    ensures var s := Run(INITIAL, steps);
      s.phase.Releasing? || s.phase.Head? || s.phase.Polling? ==>
        s.taken <= |s.pushed| && s.executed == s.pushed[..s.taken] && s.pending == s.pushed[s.taken..]
  {
    RunKeepsInv(INITIAL, steps);
  }

  /** A poll that is to be woken is not stuck: letting a thread that owes a wakeup finish enables it to return. */
  lemma PollCanReturn(s: State)
    requires Inv(s) && s.phase.Polling? && (s.silent < |s.pending| || s.quit)
    ensures Enabled(s, PollReturns(true))
         || exists t :: Enabled(s, ForeignWakeup(t)) && Enabled(Apply(s, ForeignWakeup(t)), PollReturns(true))
  {
    if s.eventfd == 0 {
      var t :| t in s.owing;
      assert Enabled(Apply(s, ForeignWakeup(t)), PollReturns(true));
    }
  }

  // ---- What a state owes to its run ----

  /** The functors queued over the run, on whatever thread. */
  function Pushes(steps: seq<Step>): seq<Functor> {
    if steps == [] then []
    else
      Pushes(steps[..|steps| - 1])
      + match steps[|steps| - 1]
        case LoopPush(f) => [f]
        case ForeignPush(_, f) => [f]
        case _ => []
  }

  /** How many wakeups have come since the eventfd was last read. */
  function WakeupsSince(steps: seq<Step>): nat {
    if steps == [] || steps[|steps| - 1].HandleRead? then 0
    else
      WakeupsSince(steps[..|steps| - 1])
      + if steps[|steps| - 1].LoopWakeup? || steps[|steps| - 1].ForeignWakeup? then 1 else 0
  }

  /** The last thing thread t did was to push or to quit, with its wakeup still to come. */
  predicate Owes(steps: seq<Step>, t: Thread) {
    steps != [] &&
    match steps[|steps| - 1]
    case ForeignPush(u, _) => u == t || Owes(steps[..|steps| - 1], t)
    case ForeignQuit(u) => u == t || Owes(steps[..|steps| - 1], t)
    case ForeignWakeup(u) => u != t && Owes(steps[..|steps| - 1], t)
    case _ => Owes(steps[..|steps| - 1], t)
  }

  /** A run and its last step. */
  lemma RunSnoc(s: State, steps: seq<Step>)
    requires steps != [] && Legal(s, steps)
    ensures var init, last := steps[..|steps| - 1], steps[|steps| - 1];
            Legal(s, init) && Enabled(Run(s, init), last) && Run(s, steps) == Apply(Run(s, init), last)
  {
    var init, last := steps[..|steps| - 1], steps[|steps| - 1];
    assert steps == init + [last];
    LegalSplit(s, init, [last]);
    assert [last][1..] == [];
    assert Run(Run(s, init), [last]) == Apply(Run(s, init), last);
  }

  /** Over every run: what was queued is what the calls queued, the eventfd counts the wakeups since it was last read, up
      to its maximum, and just the threads between push or quit and wakeup owe one. */
  lemma {:induction false} HistoryExactly(steps: seq<Step>)
    requires Legal(INITIAL, steps)
    ensures var s := Run(INITIAL, steps);
            && s.pushed == Pushes(steps)
            && s.eventfd == (if WakeupsSince(steps) < EVENTFD_MAX then WakeupsSince(steps) else EVENTFD_MAX)
            && forall t :: t in s.owing <==> Owes(steps, t)
    decreases |steps|
  {
    if steps == [] {
    } else {
      RunSnoc(INITIAL, steps);
      hide Legal, Run;
      HistoryExactly(steps[..|steps| - 1]);
    }
  }

  predicate OfLoopThread(step: Step) {
    !step.ForeignPush? && !step.ForeignQuit? && !step.ForeignWakeup?
  }

  /** Neither the loop thread nor another is ever stuck. */
  lemma GoesOn(s: State, t: Thread, f: Functor) returns (own: Step)
    requires Inv(s)
    ensures OfLoopThread(own) && Enabled(s, own)
    ensures if t in s.owing then Enabled(s, ForeignWakeup(t)) else Enabled(s, ForeignPush(t, f)) && Enabled(s, ForeignQuit(t))
  {
    own :=
      if s.selfOwing then LoopWakeup
      else match s.phase
           case Outside => StartLoop
           case Head => TestQuit
           case Polling => PollReturns(false)
           case Handling(wakeupActive) => if wakeupActive then HandleRead else HandlersDone
           case Swapping => Swap
           case Running(functors, next) => if next < |functors| then RunFunctor else FunctorsDone
           case Releasing(_) => Released;
  }

  /** Over every run: what the loop thread queues while functors run is announced, with its wakeup still to come; what it
      queues anywhere else is not. */
  lemma AnnouncedExactly(steps: seq<Step>, f: Functor)
    requires Legal(INITIAL, steps) && Enabled(Run(INITIAL, steps), LoopPush(f))
    ensures var s := Run(INITIAL, steps);
            var t := Apply(s, LoopPush(f));
            && t.pending == s.pending + [f]
            && if s.phase.Running? then t.selfOwing && t.silent == s.silent else !t.selfOwing && t.silent == s.silent + 1
  {
    RunKeepsInv(INITIAL, steps);
    hide OrderOk, AnnouncedOk, Run, Legal;
  }

  // ---- quit ----

  predicate Quits(step: Step) {
    step.LoopQuit? || step.ForeignQuit?
  }

  /** Some call of quit in the run has no later start of loop(). */
  predicate QuitSince(steps: seq<Step>) {
    steps != [] &&
    var last := steps[|steps| - 1];
    Quits(last) || (!last.StartLoop? && QuitSince(steps[..|steps| - 1]))
  }

  /** loop() tests true if and only if quit was called since loop() started, on whatever thread: then the loop is left,
      and otherwise it polls again. A call before loop() starts is forgotten. */
  lemma {:induction false} QuitExactly(steps: seq<Step>)
    requires Legal(INITIAL, steps)
    ensures var s := Run(INITIAL, steps);
            && (s.quit <==> QuitSince(steps))
            && (s.phase == Head ==> Apply(s, TestQuit).phase == if QuitSince(steps) then Outside else Polling)
    decreases |steps|
  {
    if steps == [] {
    } else {
      RunSnoc(INITIAL, steps);
      hide Legal, Run;
      QuitExactly(steps[..|steps| - 1]);
    }
  }

  function Polls(steps: seq<Step>): nat {
    if steps == [] then 0 else (if steps[0].PollReturns? then 1 else 0) + Polls(steps[1..])
  }

  lemma {:induction false} QuittingRun(s: State, steps: seq<Step>)
    requires Legal(s, steps) && s.quit && forall i :: 0 <= i < |steps| ==> !steps[i].StartLoop?
    ensures var t := Run(s, steps);
            && t.quit && Polls(steps) + (if t.phase.Polling? then 1 else 0) <= (if s.phase.Polling? then 1 else 0)
    decreases |steps|
  {
    if steps == [] {
    } else {
      assert forall i :: 0 <= i < |steps[1..]| ==> steps[1..][i] == steps[i + 1];
      QuittingRun(Apply(s, steps[0]), steps[1..]);
    }
  }

  /** After quit, called on the loop thread or on another, until loop() is started again: the loop polls no more, but for
      the poll that it may be in, which is woken; and each test of quit_ leaves the loop. */
  lemma QuitStops(s: State, quit: Step, steps: seq<Step>)
    requires Inv(s) && Quits(quit) && Enabled(s, quit) && Legal(Apply(s, quit), steps)
    requires forall i :: 0 <= i < |steps| ==> !steps[i].StartLoop?
    ensures var t := Run(Apply(s, quit), steps);
            && Polls(steps) <= 1
            && (!s.phase.Polling? ==> Polls(steps) == 0 && !t.phase.Polling?)
            && (t.phase.Polling? ==> Woken(t))
            && (t.phase == Head ==> Apply(t, TestQuit).phase == Outside)
  {
    StepKeepsInv(s, quit);
    RunKeepsInv(Apply(s, quit), steps);
    QuittingRun(Apply(s, quit), steps);
    hide OrderOk, ShapeOk;
  }

  // ---- When exactly a poll with silent functors is woken ----

  /** The steps between two readings of the eventfd in which no functor runs: from outside loop(), or from the
      destruction of the executed functors, to the next poll. */
  predicate Quiet(step: Step) {
    step.StartLoop? || step.TestQuit? || step.Released? || step.LoopPush? || step.LoopQuit?
    || step.ForeignPush? || step.ForeignQuit? || step.ForeignWakeup?
  }

  /** Another thread queued a functor or called quit. */
  predicate Announces(step: Step) {
    step.ForeignPush? || step.ForeignQuit?
  }

  predicate Announced(steps: seq<Step>) {
    exists i :: 0 <= i < |steps| && Announces(steps[i])
  }

  lemma QuietStep(s: State, step: Step)
    requires !s.calling && !s.selfOwing && Enabled(s, step) && Quiet(step)
    ensures var t := Apply(s, step);
            !t.calling && !t.selfOwing && (Woken(t) <==> Woken(s) || Announces(step))
  {
  }

  lemma AnnouncedFirst(steps: seq<Step>)
    requires steps != []
    ensures Announced(steps) <==> Announces(steps[0]) || Announced(steps[1..])
  {
    var rest := steps[1..];
    if Announced(rest) {
      var i :| 0 <= i < |rest| && Announces(rest[i]);
      assert Announces(steps[i + 1]);
    }
    if Announced(steps) && !Announces(steps[0]) {
      var i :| 0 <= i < |steps| && Announces(steps[i]);
      assert Announces(rest[i - 1]);
    }
  }

  /** While no functor runs and the eventfd is not read, the loop is woken if and only if it was, or another thread
      queued a functor or called quit since: whatever the loop thread queues itself changes nothing. */
  lemma {:induction false} WokenExactly(s: State, steps: seq<Step>)
    requires Legal(s, steps) && !s.calling && !s.selfOwing
    requires forall i :: 0 <= i < |steps| ==> Quiet(steps[i])
    ensures Woken(Run(s, steps)) <==> Woken(s) || Announced(steps)
    decreases |steps|
  {
    hide Woken, Announced, Apply, Enabled;
    if steps == [] {
      assert !Announced([]) by { NothingAnnounced(); }
    } else {
      QuietStep(s, steps[0]);
      AnnouncedFirst(steps);
      assert forall i :: 0 <= i < |steps[1..]| ==> steps[1..][i] == steps[i + 1];
      WokenExactly(Apply(s, steps[0]), steps[1..]);
    }
  }

  lemma NothingAnnounced()
    ensures !Announced([])
  {
  }

  /** Before loop() starts: the first poll is woken if and only if another thread queued a functor or called quit.
      Everything queued so far is then pending. */
  lemma FirstPollExactly(before: seq<Step>)
    requires Legal(INITIAL, before + [StartLoop, TestQuit])
    requires forall i :: 0 <= i < |before| ==> Quiet(before[i]) && !before[i].StartLoop?
    ensures var s := Run(INITIAL, before + [StartLoop, TestQuit]);
            s.phase == Polling && s.pending == s.pushed && (Woken(s) <==> Announced(before))
  {
    var last := [StartLoop, TestQuit];
    LegalSplit(INITIAL, before, last);
    StaysOutside(INITIAL, before);
    WokenExactly(INITIAL, before);
    var s := Run(INITIAL, before);
    var t := Apply(s, StartLoop);
    assert last[1..] == [TestQuit] && [TestQuit][1..] == [];
    assert Run(t, [TestQuit]) == Apply(t, TestQuit);
    assert Run(s, last) == Apply(t, TestQuit);
  }

  lemma {:induction false} StaysOutside(s: State, steps: seq<Step>)
    requires Legal(s, steps) && s.phase == Outside && s.pending == s.pushed
    requires forall i :: 0 <= i < |steps| ==> Quiet(steps[i]) && !steps[i].StartLoop?
    ensures var t := Run(s, steps); t.phase == Outside && t.pending == t.pushed
    decreases |steps|
  {
    if steps == [] {
    } else {
      assert forall i :: 0 <= i < |steps[1..]| ==> steps[1..][i] == steps[i + 1];
      StaysOutside(Apply(s, steps[0]), steps[1..]);
    }
  }

  lemma {:induction false} LegalSplit(s: State, steps: seq<Step>, more: seq<Step>)
    requires Legal(s, steps + more)
    ensures Legal(s, steps) && Legal(Run(s, steps), more) && Run(s, steps + more) == Run(Run(s, steps), more)
    decreases |steps|
  {
    if steps == [] {
      assert steps + more == more;
    } else {
      assert (steps + more)[1..] == steps[1..] + more;
      LegalSplit(Apply(s, steps[0]), steps[1..], more);
    }
  }

  lemma RunCons(s: State, step: Step, steps: seq<Step>)
    requires Enabled(s, step) && Legal(Apply(s, step), steps)
    ensures Legal(s, [step] + steps) && Run(s, [step] + steps) == Run(Apply(s, step), steps)
  {
    hide Apply, Enabled;
    assert ([step] + steps)[1..] == steps;
  }

  /** A functor the loop thread queues before loop() gets no wakeup: the first poll blocks with it pending. */
  lemma QueuedBeforeLoopIsNotWoken(f: Functor)
    ensures var steps := [LoopPush(f), StartLoop, TestQuit];
            && Legal(INITIAL, steps)
            && var s := Run(INITIAL, steps); s.phase.Polling? && s.pending == [f] && !Woken(s)
  {
    var s1 := Apply(INITIAL, LoopPush(f));
    var s2 := Apply(s1, StartLoop);
    RunCons(s2, TestQuit, []);
    RunCons(s1, StartLoop, [TestQuit]);
    RunCons(INITIAL, LoopPush(f), [StartLoop, TestQuit]);
    assert [TestQuit] + [] == [TestQuit] && [StartLoop] + [TestQuit] == [StartLoop, TestQuit];
    assert [LoopPush(f)] + [StartLoop, TestQuit] == [LoopPush(f), StartLoop, TestQuit];
  }

  /** The other way: functor f has run, and its destruction queues g when callingPendingFunctors_ is already reset.
      The next poll blocks with g pending. */
  lemma QueuedByDestructorIsNotWoken(f: Functor, g: Functor)
    ensures var steps := [LoopPush(f), StartLoop, TestQuit, PollReturns(false), HandlersDone, Swap, RunFunctor, FunctorsDone,
                          LoopPush(g), Released, TestQuit];
            && Legal(INITIAL, steps)
            && var s := Run(INITIAL, steps); s.phase.Polling? && s.executed == [f] && s.pending == [g] && !Woken(s)
  {
    var s1 := Apply(Apply(Apply(INITIAL, LoopPush(f)), StartLoop), TestQuit);
    var s2 := Apply(Apply(Apply(s1, PollReturns(false)), HandlersDone), Swap);
    assert s2.phase == Running([f], 0);
    var first := [LoopPush(f), StartLoop, TestQuit];
    var middle := [PollReturns(false), HandlersDone, Swap];
    RunOfThree(INITIAL, LoopPush(f), StartLoop, TestQuit);
    RunOfThree(s1, PollReturns(false), HandlersDone, Swap);
    DestructorTail(s2, f, g);
    var last := [RunFunctor, FunctorsDone, LoopPush(g), Released, TestQuit];
    RunConcat(s1, middle, last);
    RunConcat(INITIAL, first, middle + last);
    assert [LoopPush(f), StartLoop, TestQuit, PollReturns(false), HandlersDone, Swap, RunFunctor, FunctorsDone,
            LoopPush(g), Released, TestQuit] == first + (middle + last);
  }

  lemma RunOfThree(s: State, a: Step, b: Step, c: Step)
    requires Enabled(s, a) && Enabled(Apply(s, a), b) && Enabled(Apply(Apply(s, a), b), c)
    ensures Legal(s, [a, b, c]) && Run(s, [a, b, c]) == Apply(Apply(Apply(s, a), b), c)
  {
    hide Enabled, Apply;
    RunCons(Apply(Apply(s, a), b), c, []);
    RunCons(Apply(s, a), b, [c]);
    RunCons(s, a, [b, c]);
    assert [c] + [] == [c] && [b] + [c] == [b, c] && [a] + [b, c] == [a, b, c];
  }

  lemma DestructorTail(s: State, f: Functor, g: Functor)
    requires s.phase == Running([f], 0) && s.pending == [] && s.executed == [] && !s.quit && !Woken(s)
    ensures var steps := [RunFunctor, FunctorsDone, LoopPush(g), Released, TestQuit];
            && Legal(s, steps)
            && var t := Run(s, steps); t.phase.Polling? && t.executed == [f] && t.pending == [g] && !Woken(t)
  {
    var t := Apply(Apply(s, RunFunctor), FunctorsDone);
    RunOfThree(t, LoopPush(g), Released, TestQuit);
    RunCons(Apply(s, RunFunctor), FunctorsDone, [LoopPush(g), Released, TestQuit]);
    RunCons(s, RunFunctor, [FunctorsDone, LoopPush(g), Released, TestQuit]);
    assert [FunctorsDone] + [LoopPush(g), Released, TestQuit] == [FunctorsDone, LoopPush(g), Released, TestQuit];
    assert [RunFunctor] + [FunctorsDone, LoopPush(g), Released, TestQuit] == [RunFunctor, FunctorsDone, LoopPush(g), Released, TestQuit];
  }
}
