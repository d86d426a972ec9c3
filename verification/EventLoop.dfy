/** net/EventLoop.cpp as the class that updates its fields. Between any two of its atomic actions other threads
    may act (Interfere). The ghost trace shows that whatever the code does is a run of LoopMachine. */
module EventLoop {
  import opened M = LoopMachine

  class EventLoop {
    var quit: bool
    var pendingFunctors: seq<Functor>
    var callingPendingFunctors: bool
    var wakeupFd: nat
    /** The functors that running functor f queues on its own loop. */
    const body: Functor -> seq<Functor>
    /** The functors that what functor f owns queues there when f is destroyed. */
    const release: Functor -> seq<Functor>

    ghost var phase: Phase
    var owing: set<Thread>
    ghost var selfOwing: bool
    ghost var silent: nat
    ghost var taken: nat
    ghost var pushed: seq<Functor>
    ghost var executed: seq<Functor>
    ghost var trace: seq<Step>

    ghost function View(): State
      reads this
    {
      State(phase, quit, pendingFunctors, callingPendingFunctors, wakeupFd, owing, selfOwing, silent, taken, pushed, executed)
    }

    ghost predicate Valid()
      reads this
    {
      Legal(INITIAL, trace) && View() == Run(INITIAL, trace)
    }

    constructor (body: Functor -> seq<Functor>, release: Functor -> seq<Functor>)
      ensures Valid() && trace == []
    {
      this.body, this.release := body, release;
      quit, pendingFunctors, callingPendingFunctors, wakeupFd := false, [], false, 0;
      phase, owing, selfOwing, silent, taken, pushed, executed, trace := Outside, {}, false, 0, 0, [], [], [];
    }

    /** Records one step of the machine. */
    twostate lemma Took(step: Step)
      requires old(Valid()) && Enabled(old(View()), step)
      requires View() == Apply(old(View()), step) && trace == old(trace) + [step]
      ensures Valid() && Inv(View())
    {
      var before := old(View());
      assert [step][1..] == [];
      assert Legal(before, [step]) && Run(before, [step]) == Apply(before, step);
      RunConcat(INITIAL, old(trace), [step]);
      RunKeepsInv(INITIAL, trace);
    }

    /** wakeup called on the loop thread. */
    method Wakeup()
      requires Valid() && selfOwing
      modifies this
      ensures Valid() && View() == Apply(old(View()), LoopWakeup) && trace == old(trace) + [LoopWakeup]
    {
      wakeupFd := Write(wakeupFd);
      selfOwing := false;
      trace := trace + [LoopWakeup];
      Took(LoopWakeup);
    }

    /** wakeup called on another thread. */
    method WakeupForeign(t: Thread)
      requires Valid() && t in owing
      modifies this
      ensures Valid() && View() == Apply(old(View()), ForeignWakeup(t)) && trace == old(trace) + [ForeignWakeup(t)]
    {
      wakeupFd := Write(wakeupFd);
      owing := owing - {t};
      trace := trace + [ForeignWakeup(t)];
      Took(ForeignWakeup(t));
    }

    /** Other threads act: any number of them push, store quit_, or get to their wakeup(). */
    method Interfere()
      requires Valid()
      modifies this
      ensures Valid()
      ensures phase == old(phase) && selfOwing == old(selfOwing) && callingPendingFunctors == old(callingPendingFunctors)
      ensures silent == old(silent) && taken == old(taken) && executed == old(executed)
      ensures old(pushed) <= pushed && old(pendingFunctors) <= pendingFunctors && old(wakeupFd) <= wakeupFd
    {
      hide Valid;
      var n: nat :| true;
      for i := 0 to n
        invariant Valid()
        invariant phase == old(phase) && selfOwing == old(selfOwing) && callingPendingFunctors == old(callingPendingFunctors)
        invariant silent == old(silent) && taken == old(taken) && executed == old(executed)
        invariant old(pushed) <= pushed && old(pendingFunctors) <= pendingFunctors && old(wakeupFd) <= wakeupFd
      {
        InterfereOnce();
      }
    }

    /** One other thread takes its next step. */
    method InterfereOnce()
      requires Valid()
      modifies this
      ensures Valid()
      ensures phase == old(phase) && selfOwing == old(selfOwing) && callingPendingFunctors == old(callingPendingFunctors)
      ensures silent == old(silent) && taken == old(taken) && executed == old(executed)
      ensures old(pushed) <= pushed && old(pendingFunctors) <= pendingFunctors && old(wakeupFd) <= wakeupFd
    {
      hide Valid;
      var t: Thread, f: Functor, pushes: bool := *, *, *;
      if t in owing {
        WakeupForeign(t);
      } else if pushes {
        PushForeign(t, f);
      } else {
        QuitForeign(t);
      }
    }

    /** queueInLoop called on another thread, up to its wakeup(). */
    method PushForeign(t: Thread, cb: Functor)
      requires Valid() && t !in owing
      modifies this
      ensures Valid() && View() == Apply(old(View()), ForeignPush(t, cb)) && trace == old(trace) + [ForeignPush(t, cb)]
    {
      pendingFunctors := pendingFunctors + [cb];
      pushed := pushed + [cb];
      owing := owing + {t};
      trace := trace + [ForeignPush(t, cb)];
      Took(ForeignPush(t, cb));
    }

    /** quit called on another thread, up to its wakeup(). */
    method QuitForeign(t: Thread)
      requires Valid() && t !in owing
      modifies this
      ensures Valid() && View() == Apply(old(View()), ForeignQuit(t)) && trace == old(trace) + [ForeignQuit(t)]
      ensures quit
    {
      quit := true;
      owing := owing + {t};
      trace := trace + [ForeignQuit(t)];
      Took(ForeignQuit(t));
    }

    /** quit called on the loop thread. */
    method QuitLocal()
      requires Valid() && InUserCode(View())
      modifies this`quit, this`trace
      ensures Valid() && View() == Apply(old(View()), LoopQuit) && trace == old(trace) + [LoopQuit]
      ensures quit
    {
      quit := true;
      trace := trace + [LoopQuit];
      Took(LoopQuit);
    }

    /** queueInLoop called on the loop thread, up to its test for wakeup(). */
    method PushLocal(cb: Functor)
      requires Valid() && InUserCode(View())
      modifies this
      ensures Valid() && View() == Apply(old(View()), LoopPush(cb))
    {
      pendingFunctors := pendingFunctors + [cb];
      pushed := pushed + [cb];
      selfOwing := callingPendingFunctors;
      silent := if callingPendingFunctors then silent else silent + 1;
      trace := trace + [LoopPush(cb)];
      Took(LoopPush(cb));
    }

    /** queueInLoop called on the loop thread: from callbacks, functors and their destructors, and outside loop().
        The functor is announced exactly when callingPendingFunctors_ is set. */
    method QueueInLoop(cb: Functor)
      requires Valid() && InUserCode(View())
      modifies this
      ensures Valid() && phase == old(phase) && !selfOwing && callingPendingFunctors == old(callingPendingFunctors)
      ensures taken == old(taken) && executed == old(executed)
      ensures old(pushed) + [cb] <= pushed && old(pendingFunctors) + [cb] <= pendingFunctors
      ensures old(wakeupFd) <= wakeupFd && (callingPendingFunctors ==> 0 < wakeupFd)
      ensures silent == if callingPendingFunctors then old(silent) else old(silent) + 1
    {
      hide Valid;
      PushLocal(cb);
      Interfere();
      if callingPendingFunctors {
        Wakeup();
      }
    }

    /** The wakeup channel's read callback. */
    method HandleRead()
      requires Valid() && phase == Handling(true)
      modifies this
      ensures Valid() && View() == Apply(old(View()), Step.HandleRead) && trace == old(trace) + [Step.HandleRead]
      ensures wakeupFd == 0 && phase == Handling(false)
    {
      wakeupFd := 0;
      phase := Handling(false);
      trace := trace + [Step.HandleRead];
      Took(Step.HandleRead);
    }

    method FinishHandlers()
      requires Valid() && phase == Handling(false)
      modifies this
      ensures Valid() && View() == Apply(old(View()), HandlersDone)
    {
      callingPendingFunctors := true;
      phase := Swapping;
      trace := trace + [HandlersDone];
      Took(HandlersDone);
    }

    /** The locked section of doPendingFunctors. */
    method SwapFunctors() returns (functors: seq<Functor>)
      requires Valid() && phase == Swapping
      modifies this
      ensures Valid() && View() == Apply(old(View()), Swap) && functors == old(pendingFunctors)
    {
      functors := pendingFunctors;
      pendingFunctors := [];
      phase, silent, taken := Running(functors, 0), 0, |pushed|;
      trace := trace + [Swap];
      Took(Swap);
    }

    /** The end of the loop over the functors: callingPendingFunctors_ is reset. */
    method FinishFunctors()
      requires Valid() && phase.Running? && !selfOwing && phase.next == |phase.functors|
      modifies this
      ensures Valid() && View() == Apply(old(View()), FunctorsDone)
    {
      callingPendingFunctors := false;
      phase := Releasing(phase.functors);
      trace := trace + [FunctorsDone];
      Took(FunctorsDone);
    }

    method FinishRelease()
      requires Valid() && phase.Releasing?
      modifies this
      ensures Valid() && View() == Apply(old(View()), Released)
      ensures taken <= |pushed| && executed == pushed[..taken] && pendingFunctors == pushed[taken..]
    {
      phase := Head;
      trace := trace + [Released];
      Took(Released);
    }

    /** Everything queued before this call is executed by it, in order, and nothing else queued earlier is left.
        What the destruction of the executed functors queues stays pending, unannounced. */
    method DoPendingFunctors()
      requires Valid() && phase == Handling(false) && !selfOwing
      modifies this
      ensures Valid() && phase == Head && !selfOwing
      ensures old(pushed) <= pushed && |old(pushed)| <= taken <= |pushed|
      ensures executed == pushed[..taken] && pendingFunctors == pushed[taken..]
    {
      hide Valid;
      FinishHandlers();
      Interfere();
      var functors := SwapFunctors();
      for i := 0 to |functors|
        invariant Valid() && phase == Running(functors, i) && !selfOwing
        invariant old(pushed) <= pushed && |old(pushed)| <= taken
      {
        Interfere();
        RunNext(functors, i);
      }
      FinishFunctors();
      ReleaseFunctors(functors);
      FinishRelease();
    }

    /** Functor i of the batch runs, queueing what its body queues. */
    method RunNext(functors: seq<Functor>, i: nat)
      requires Valid() && phase == Running(functors, i) && i < |functors| && !selfOwing
      modifies this
      ensures Valid() && phase == Running(functors, i + 1) && !selfOwing
      ensures executed == old(executed) + [functors[i]] && taken == old(taken) && silent == old(silent)
      ensures old(pushed) <= pushed && |old(pushed)| + |body(functors[i])| <= |pushed|
    {
      executed := executed + [functors[i]];
      phase := Running(functors, i + 1);
      trace := trace + [RunFunctor];
      Took(RunFunctor);
      var queued := body(functors[i]);
      hide Valid;
      for j := 0 to |queued|
        invariant Valid() && phase == Running(functors, i + 1) && !selfOwing
        invariant executed == old(executed) + [functors[i]] && taken == old(taken) && silent == old(silent)
        invariant old(pushed) <= pushed && |old(pushed)| + j <= |pushed|
      {
        CallingWhileRunning();
        QueueInLoop(queued[j]);
      }
    }

    /** Outside loop() the loop thread owes no wakeup. */
    lemma Outsider()
      requires Valid()
      ensures phase == Outside ==> !selfOwing
    {
      RunKeepsInv(INITIAL, trace);
    }

    lemma CallingWhileRunning()
      requires Valid()
      ensures phase.Running? ==> callingPendingFunctors
      ensures phase.Releasing? ==> !callingPendingFunctors
    {
      RunKeepsInv(INITIAL, trace);
    }

    /** The local vector goes out of scope: each functor is destroyed, and what it owned may queue others. */
    method ReleaseFunctors(functors: seq<Functor>)
      requires Valid() && phase == Releasing(functors) && !selfOwing
      modifies this
      ensures Valid() && phase == Releasing(functors) && !selfOwing
      ensures taken == old(taken) && executed == old(executed) && old(pushed) <= pushed
    {
      hide Valid;
      for i := 0 to |functors|
        invariant Valid() && phase == Releasing(functors) && !selfOwing
        invariant taken == old(taken) && executed == old(executed) && old(pushed) <= pushed
      {
        var queued := release(functors[i]);
        for j := 0 to |queued|
          invariant Valid() && phase == Releasing(functors) && !selfOwing
          invariant taken == old(taken) && executed == old(executed) && old(pushed) <= pushed
        {
          QueueInLoop(queued[j]);
        }
      }
    }

    /** The test at the head of the while loop. */
    method TestQuit() returns (stop: bool)
      requires Valid() && phase == Head
      modifies this
      ensures Valid() && View() == Apply(old(View()), Step.TestQuit) && stop == old(quit)
      ensures stop <==> QuitSince(old(trace))
    {
      QuitExactly(trace);
      stop := quit;
      phase := if quit then Outside else Polling;
      trace := trace + [Step.TestQuit];
      Took(Step.TestQuit);
    }

    method StartLooping()
      requires Valid() && phase == Outside
      modifies this
      ensures Valid() && View() == Apply(old(View()), StartLoop) && !selfOwing && !quit
    {
      Outsider();
      hide Inv;
      quit := false;
      phase := Head;
      trace := trace + [StartLoop];
      Took(StartLoop);
    }

    /** poll returns, possibly with the wakeup channel among the active ones. */
    method Poll(mayBeActive: bool) returns (active: bool)
      requires Valid() && phase == Polling
      modifies this
      ensures active == (mayBeActive && 0 < old(wakeupFd))
      ensures Valid() && View() == Apply(old(View()), PollReturns(active))
    {
      active := mayBeActive && 0 < wakeupFd;
      phase := Handling(active);
      trace := trace + [PollReturns(active)];
      Took(PollReturns(active));
    }

    /** loop(), cut off after as many polls as the script has results for: whether the wakeup channel was
        among the active ones. Where it stops it polls with every functor queued since it started announced. */
    method Loop(polls: seq<bool>)
      requires Valid() && phase == Outside
      modifies this
      ensures Valid() && (phase == Outside || phase == Polling)
      ensures phase == Polling && (silent < |pendingFunctors| || quit) ==> wakeupFd > 0 || owing != {}
    {
      hide Valid;
      StartLooping();
      Interfere();
      var stop := TestQuit();
      var i := 0;
      while !stop && i < |polls|
        invariant Valid() && !selfOwing && (phase == if stop then Outside else Polling)
      {
        Interfere();
        var active := Poll(polls[i]);
        Interfere();
        if active {
          HandleRead();
        }
        DoPendingFunctors();
        Interfere();
        stop := TestQuit();
        i := i + 1;
      }
      Announced();
    }

    lemma Announced()
      requires Valid()
      ensures phase == Polling && (silent < |pendingFunctors| || quit) ==> wakeupFd > 0 || owing != {}
    {
      NoLostWakeup(trace);
    }
  }
}
