/** net/TimerQueue.cpp as the class that updates its fields. Wherever user code runs on the loop thread, it may do
    anything (UserCode), and other threads may act at any time (Interfere). The ghost trace shows that whatever the
    code does is a run of TimerMachine. */
module TimerQueue {
  import opened Wrappers
  import opened M = TimerMachine

  class TimerQueue {
    var heap: Heap
    var timers: seq<Entry>
    var activeTimers: set<ActiveTimer>
    var cancelingTimers: set<ActiveTimer>
    var callingExpiredTimers: bool
    var timerfd: Timerfd
    var clock: int
    var created: nat
    /** The timers whose addTimerInLoop waits in the loop's queue. */
    var uninserted: set<Address>
    // handleRead's locals, kept while user code runs
    var expired: seq<Entry>
    var next: nat
    var now: int
    /** How many entries of `expired` the loop in reset has behind it. */
    var done: nat
    /** What the calls of cancelInLoop under way have still to erase from activeTimers_, outermost call first. */
    var cancels: seq<ActiveTimer>
    /** The timer that reset is deleting. */
    var releasing: Option<Address>

    ghost var state: State
    ghost var trace: seq<Step>

    ghost predicate Valid()
      reads this
    {
      Reached(trace, state) && Linked()
    }

    /** The fields stand for the state of the machine. */
    ghost predicate Linked()
      reads this
    {
      && heap == state.heap && timers == state.timers && activeTimers == ActiveTimers(state)
      && cancelingTimers == state.canceling && callingExpiredTimers == state.calling && timerfd == state.fd
      && clock == state.clock && created == state.created && uninserted == state.uninserted
      && cancels == state.erasing && releasing == state.releasing && now == state.now
      && done <= |expired| && expired[done..] == state.batch && next == done + state.next
    }

    constructor ()
      ensures Valid() && state == EMPTY && trace == []
    {
      heap, timers, activeTimers, cancelingTimers := map[], [], {}, {};
      callingExpiredTimers, timerfd, clock, created, uninserted := false, Disarmed, 1, 0, {};
      expired, next, now, done, cancels, releasing := [], 0, 0, 0, [], None;
      state, trace := EMPTY, [];
      new;
      EmptyInv();
    }

    lemma Safe()
      requires Valid()
      ensures Inv(state)
    {
      hide Inv;
      EmptyInv();
    }

    /** The assertions compare these sizes: they are equal exactly while no cancel is under way. */
    lemma Sizes()
      requires Valid()
      ensures |activeTimers| == |timers| + |cancels|
    {
      Safe();
      SizesDiffer(state);
    }

    /** The loop thread is in user code. */
    ghost predicate InCallback()
      reads this
    {
      state.resetting ==> cancels != [] || releasing.Some?
    }

    /** From the old state to this one, the machine takes the step. */
    twostate predicate Takes(step: Step)
      reads this
    {
      Inv(old(state)) && Enabled(old(state), step) && state == Apply(old(state), step)
    }

    /** Takes one step of the machine. */
    ghost method Take(step: Step)
      requires Reached(trace, state) && Inv(state) && Enabled(state, step)
      modifies this`state, this`trace
      ensures Takes(step) && trace == old(trace) + [step] && Reached(trace, state)
    {
      hide Inv, Apply, Enabled, Reached;
      StepKeepsInv(state, step);
      ReachedStep(trace, state, step);
      state, trace := Apply(state, step), trace + [step];
    }

    /** The clock advances. */
    method PassTime(to: int)
      requires Valid() && clock <= to
      modifies this`clock, this`state, this`trace
      ensures Valid() && Takes(Tick(to)) && trace == old(trace) + [Tick(to)] && Extends()
    {
      hide Inv, Reached;
      Safe();
      clock := to;
      Take(Tick(to));
    }

    /** addTimer allocates the Timer at an address of the allocator's choice and hands it to the loop. */
    method AddTimer(timer: Address, when: int, repeat: bool, delta: nat) returns (id: ActiveTimer)
      requires Valid() && timer !in heap && timer < ADDRESS_MAX && !Dying(cancels, releasing, timer)
      modifies this`heap, this`created, this`uninserted, this`state, this`trace
      ensures Valid() && Takes(NewTimer(timer, when, repeat, delta)) && trace == old(trace) + [NewTimer(timer, when, repeat, delta)]
      ensures Extends() && timer in uninserted
      ensures timer in heap && id == Active(heap, timer) && id.sequence > old(created)
      ensures heap == old(heap)[timer := Timer(when, repeat, delta, id.sequence)]
    {
      hide Inv, Reached, Members, Dying;
      Safe();
      created := created + 1;
      heap := heap[timer := Timer(when, repeat, delta, created)];
      uninserted := uninserted + {timer};
      id := ActiveTimer(timer, created);
      Take(NewTimer(timer, when, repeat, delta));
    }

    method AddTimerInLoop(timer: Address)
      requires Valid() && timer in uninserted && InCallback()
      modifies this`timers, this`activeTimers, this`timerfd, this`uninserted, this`state, this`trace
      ensures Valid() && Takes(Step.AddTimer(timer)) && trace == old(trace) + [Step.AddTimer(timer)] && Extends()
      ensures timers != []
              && if old(timers) == [] || timers[0].when < old(timers)[0].when then ArmedFor(timerfd, timers[0].when, clock)
                 else timerfd == old(timerfd)
      ensures timer in heap && Active(heap, timer) in activeTimers && Entry(heap[timer].expiration, timer) in timers
    {
      hide Inv, Reached, InsertEntry, ActiveTimers, Apply, Enabled, ResetTimerfd, ArmedFor;
      Safe();
      AddTimerIs(state, timer);
      AddTimerArms(state, timer);
      var earliestChanged := Insert(timer);
      uninserted := uninserted - {timer};
      if earliestChanged {
        timerfd := ResetTimerfd(heap[timer].expiration, clock);
      }
      Take(Step.AddTimer(timer));
    }

    method Insert(timer: Address) returns (earliestChanged: bool)
      requires timer in heap
      modifies this`timers, this`activeTimers
      ensures earliestChanged == (old(timers) == [] || heap[timer].expiration < old(timers)[0].when)
      ensures timers == InsertEntry(old(timers), ScheduledEntry(heap, timer))
      ensures activeTimers == old(activeTimers) + {Active(heap, timer)}
      ensures Entry(heap[timer].expiration, timer) in timers
    {
      InsertsEntry(timers, ScheduledEntry(heap, timer));
      var when := heap[timer].expiration;
      earliestChanged := |timers| == 0 || when < timers[0].when;
      timers := InsertEntry(timers, Entry(when, timer));
      activeTimers := activeTimers + {ActiveTimer(timer, heap[timer].sequence)};
    }

    /** cancelInLoop up to the destruction of the callback of the timer it deletes, if it found one. */
    method BeginCancel(timerId: ActiveTimer) returns (found: bool)
      requires Valid() && InCallback() && timerId !in cancels
      modifies this`timers, this`heap, this`cancels, this`cancelingTimers, this`state, this`trace
      ensures Valid() && Takes(Cancel(timerId)) && trace == old(trace) + [Cancel(timerId)] && Extends()
      ensures found == (timerId in old(activeTimers)) && cancels == old(cancels) + if found then [timerId] else []
      ensures old((timerId in activeTimers || InBatch(state, timerId)) && !Lost(state, timerId)) ==> timerId.sequence in state.cancelled
    {
      hide Inv, Reached, ActiveTimers, InBatch, Lost, EraseEntry, Apply, Enabled;
      Safe();
      CancelIs(state, timerId);
      found := timerId in activeTimers;
      if found {
        var timer := timerId.timer;
        timers := EraseEntry(timers, Entry(heap[timer].expiration, timer));
        heap := heap - {timer};
        cancels := cancels + [timerId];
      } else if callingExpiredTimers {
        cancelingTimers := cancelingTimers + {timerId};
      }
      Take(Cancel(timerId));
    }

    lemma StaysOut(timerId: ActiveTimer)
      requires Valid() && timerId !in cancels && timerId.sequence in state.cancelled
      ensures timerId !in activeTimers
    {
      hide Inv;
      Safe();
      CancelledNotScheduled(state, timerId.sequence);
      UnscheduledInactive(state, timerId);
      InMembers(cancels, timerId);
    }

    /** The innermost cancelInLoop after its delete. */
    method FinishCancel()
      requires Valid() && cancels != []
      modifies this`activeTimers, this`cancels, this`state, this`trace
      ensures Valid() && Takes(Erased) && trace == old(trace) + [Erased] && Extends()
      ensures cancels == old(cancels)[..|old(cancels)| - 1]
      ensures activeTimers == old(activeTimers) - {old(cancels)[|old(cancels)| - 1]}
    {
      hide Inv, Reached, Members;
      Safe();
      CancelsApart(state);
      var outer, timerId := cancels[..|cancels| - 1], cancels[|cancels| - 1];
      assert cancels == outer + [timerId];
      MembersSnoc(outer, timerId);
      InMembers(outer, timerId);
      activeTimers := activeTimers - {timerId};
      cancels := outer;
      Take(Erased);
    }

    /** What only grows. */
    twostate predicate Grows()
      reads this
    {
      && old(clock) <= clock && old(trace) <= trace
      && old(state.cancelled) <= state.cancelled && old(state.freed) <= state.freed && old(state.fired) <= state.fired
    }

    /** What user code and other threads leave as it is besides. */
    twostate predicate Extends()
      reads this
    {
      Grows() && state.resetting == old(state.resetting) && state.fired == old(state.fired)
    }

    /** Time passes, and other threads call addTimer. */
    method Interfere()
      requires Valid()
      modifies this`clock, this`heap, this`created, this`uninserted, this`state, this`trace
      ensures Valid() && Extends()
    {
      hide Valid, Takes;
      var n: nat :| true;
      for i := 0 to n
        invariant Valid() && Extends()
      {
        var passes: bool, to: int := *, *;
        var timer: Address, when: int, repeat: bool, delta: nat := *, *, *, *;
        if passes && clock <= to {
          PassTime(to);
        } else if timer !in heap && timer < ADDRESS_MAX && !Dying(cancels, releasing, timer) {
          var _ := AddTimer(timer, when, repeat, delta);
        }
      }
    }

    /** User code on the loop thread: any number of calls of addTimer and cancel, and of queued functors, in any
        order. It does not cancel a timer that a cancel under way is deleting, which would delete it again.
        Destructors nest at most so deep. */
    method UserCode(depth: nat)
      requires Valid() && InCallback()
      modifies this`clock, this`heap, this`created, this`uninserted, this`state, this`trace
      modifies this`timers, this`activeTimers, this`timerfd, this`cancelingTimers, this`cancels
      ensures Valid() && Extends() && cancels == old(cancels)
      decreases depth, 0
    {
      hide Valid, Takes;
      Interfere();
      var n: nat :| true;
      for i := 0 to n
        invariant Valid() && Extends() && cancels == old(cancels)
      {
        var timer: Address, id: ActiveTimer := *, *;
        if timer in uninserted {
          AddTimerInLoop(timer);
        } else if id !in cancels && 0 < depth {
          CancelInLoop(id, depth - 1);
        }
        Interfere();
      }
    }

    /** cancelInLoop, with what the deletion of the timer sets off between its two erasures. Unless the cancel is
        lost, a timer found inserted is recorded as cancelled, and is in activeTimers_ no more. */
    method CancelInLoop(timerId: ActiveTimer, depth: nat)
      requires Valid() && InCallback() && timerId !in cancels
      modifies this`clock, this`heap, this`created, this`uninserted, this`state, this`trace
      modifies this`timers, this`activeTimers, this`timerfd, this`cancelingTimers, this`cancels
      ensures Valid() && Extends() && cancels == old(cancels) && old(trace) + [Cancel(timerId)] <= trace
      ensures old((timerId in activeTimers || InBatch(state, timerId)) && !Lost(state, timerId)) ==>
                timerId.sequence in state.cancelled && timerId !in activeTimers
      decreases depth, 1
    {
      hide Valid, Takes, Lost, InBatch;
      var found := BeginCancel(timerId);
      if found {
        UserCode(depth);
        FinishCancel();
      }
      if timerId.sequence in state.cancelled {
        StaysOut(timerId);
      }
    }

    /** getExpired: takes the expired timers out of both indices. */
    method GetExpired(now: int) returns (taken: seq<Entry>)
      requires Indexed(heap, timers, activeTimers)
      modifies this`timers, this`activeTimers
      ensures Expired(old(timers), now) <= |old(timers)|
      ensures taken == old(timers)[..Expired(old(timers), now)] && timers == old(timers)[Expired(old(timers), now)..]
      ensures AllLive(heap, taken) && activeTimers == old(activeTimers) - ActivesOf(heap, taken)
    {
      ExpiredSplits(timers, now);
      var end := Expired(timers, now);
      TakeKeepsIndexed(heap, timers, activeTimers, end);
      hide Indexed, Expired, ActivesOf, AllLive;
      taken := timers[..end];
      timers := timers[end..];
      EraseAll(taken);
    }

    /** Its loop over the expired timers. */
    method EraseAll(taken: seq<Entry>)
      requires AllLive(heap, taken)
      modifies this`activeTimers
      ensures activeTimers == old(activeTimers) - ActivesOf(heap, taken)
    {
      assert taken[..0] == [] && ActivesOf(heap, []) == {};
      hide ActivesOf;
      for i := 0 to |taken|
        invariant AllLive(heap, taken[..i]) && activeTimers == old(activeTimers) - ActivesOf(heap, taken[..i])
      {
        ActivesSnoc(heap, taken, i);
        activeTimers := activeTimers - {ActiveTimer(taken[i].timer, heap[taken[i].timer].sequence)};
      }
      assert taken[..|taken|] == taken;
    }

    /** handleRead is not active, and no cancel under way. */
    ghost predicate AtRest()
      reads this
    {
      !callingExpiredTimers && !state.resetting && cancels == [] && releasing.None?
    }

    /** handleRead up to its loop over the callbacks. The clock may advance between taking the time and reading the fd. */
    method BeginRead(readAt: int)
      requires Valid() && AtRest() && clock <= readAt
      modifies this
      ensures Valid() && Takes(Step.BeginRead(readAt)) && trace == old(trace) + [Step.BeginRead(readAt)] && Extends()
      ensures Expired(old(timers), old(clock)) <= |old(timers)|
      ensures expired == old(timers)[..Expired(old(timers), old(clock))] && next == done == 0 && now == old(clock)
      ensures callingExpiredTimers && cancels == [] && releasing.None? && cancelingTimers == {}
    {
      hide Inv, Reached, Apply, Enabled, ActiveTimers, ActivesOf, AllLive, ReadTimerfd, Expired, Indexed;
      Safe();
      BeginReadIs(state, readAt);
      now := clock;
      timerfd := ReadTimerfd(timerfd, readAt);
      expired := GetExpired(now);
      next, done := 0, 0;
      callingExpiredTimers := true;
      cancelingTimers := {};
      clock := readAt;
      Take(Step.BeginRead(readAt));
    }

    /** The loop in handleRead starts its next callback. */
    method RunTimer() returns (timer: Timer)
      requires Valid() && callingExpiredTimers && cancels == [] && done == 0 && next < |expired|
      modifies this`next, this`state, this`trace
      ensures Valid() && Takes(Step.RunTimer) && trace == old(trace) + [Step.RunTimer]
      ensures expired[old(next)].timer in heap && timer == heap[expired[old(next)].timer] && timer.expiration <= now
      ensures next == old(next) + 1
      ensures Grows() && state.resetting == old(state.resetting)
      ensures state.fired == old(state.fired) + [Firing(timer.sequence, timer.repeat, expired[old(next)].when, now)]
    {
      hide Inv, Reached;
      Safe();
      BatchIsLive(state, next);
      CallingMeans(state);
      timer := heap[expired[next].timer];
      next := next + 1;
      Take(Step.RunTimer);
    }

    method FinishCallbacks()
      requires Valid() && callingExpiredTimers && cancels == [] && done == 0 && next == |expired|
      modifies this`callingExpiredTimers, this`state, this`trace
      ensures Valid() && Takes(EndCallbacks) && trace == old(trace) + [EndCallbacks]
      ensures Grows() && state.fired == old(state.fired) && InReset()
    {
      hide Inv, Reached;
      Safe();
      CallingMeans(state);
      callingExpiredTimers := false;
      Take(EndCallbacks);
    }

    /** The loop in reset is between two of its iterations. */
    ghost predicate InReset()
      reads this
    {
      state.resetting && cancels == [] && releasing.None?
    }

    /** The next timer in reset's loop is restarted or deleted, up to the destruction of its callback. */
    method StartReset() returns (deletes: bool)
      requires Valid() && InReset() && done < |expired|
      modifies this`heap, this`timers, this`activeTimers, this`done, this`releasing, this`state, this`trace
      ensures Valid() && Takes(ResetNext) && trace == old(trace) + [ResetNext] && Extends() && done == old(done) + 1
      ensures old(expired[done].timer in heap && deletes == !Reschedules(state, expired[done].timer))
      ensures releasing.Some? == deletes
      ensures var a := old(expired[done].timer);
              if deletes then heap == old(heap) - {a} && old(heap[a].sequence) in state.freed
              else heap == old(heap)[a := old(heap[a]).(expiration := now + old(heap[a]).delta)] && Active(heap, a) in activeTimers
    {
      hide Inv, Reached, Apply, Enabled, InsertEntry, ActiveTimers;
      Safe();
      ResetNextIs(state);
      var timer := expired[done].timer;
      assert expired[done..][1..] == expired[done + 1..];
      deletes := !heap[timer].repeat || ActiveTimer(timer, heap[timer].sequence) in cancelingTimers;
      if deletes {
        heap := heap - {timer};
        releasing := Some(timer);
      } else {
        Restart(timer);
      }
      done := done + 1;
      Take(ResetNext);
    }

    /** Timer::restart and the insertion behind it. */
    method Restart(timer: Address)
      requires timer in heap
      modifies this`heap, this`timers, this`activeTimers
      ensures heap == old(heap)[timer := old(heap)[timer].(expiration := now + old(heap)[timer].delta)]
      ensures timers == InsertEntry(old(timers), ScheduledEntry(heap, timer))
      ensures activeTimers == old(activeTimers) + {Active(old(heap), timer)}
    {
      heap := heap[timer := heap[timer].(expiration := now + heap[timer].delta)];
      var _ := Insert(timer);
    }

    method FinishRelease()
      requires Valid() && releasing.Some? && cancels == []
      modifies this`releasing, this`state, this`trace
      ensures Valid() && Takes(Released) && trace == old(trace) + [Released] && Extends() && releasing.None?
    {
      hide Inv, Reached;
      Safe();
      releasing := None;
      Take(Released);
    }

    /** reset after its loop. */
    method Rearm()
      requires Valid() && InReset() && done == |expired|
      modifies this`timerfd, this`expired, this`next, this`done, this`state, this`trace
      ensures Valid() && Takes(Step.Rearm) && trace == old(trace) + [Step.Rearm]
      ensures Grows() && state.fired == old(state.fired) && AtRest()
      ensures if timers != [] && 0 < timers[0].when then ArmedFor(timerfd, timers[0].when, clock) else timerfd == old(timerfd)
    {
      hide Inv, Reached, Apply, Enabled, ResetTimerfd, ArmedFor;
      Safe();
      RearmIs(state);
      RearmArms(state);
      if |timers| > 0 {
        var nextExpire := heap[timers[0].timer].expiration;
        if nextExpire > 0 {
          timerfd := ResetTimerfd(nextExpire, clock);
        }
      }
      expired, next, done := [], 0, 0;
      Take(Step.Rearm);
    }

    /** One iteration of reset's loop, with what the deletion of the timer sets off. */
    method ResetTimer(depth: nat)
      requires Valid() && InReset() && done < |expired|
      modifies this`clock, this`heap, this`created, this`uninserted, this`state, this`trace
      modifies this`timers, this`activeTimers, this`timerfd, this`cancelingTimers, this`cancels
      modifies this`done, this`releasing
      ensures Valid() && Extends() && InReset() && done == old(done) + 1
      ensures old(expired[done].timer in heap)
      ensures var a := old(expired[done].timer);
              old(Reschedules(state, a)) ==>
                a in heap && heap[a] == old(heap[a]).(expiration := now + old(heap[a]).delta) && Active(heap, a) in activeTimers
      ensures if old(Reschedules(state, expired[done].timer)) then Takes(ResetNext)
              else old(heap[expired[done].timer].sequence) in state.freed
    {
      hide Valid, Takes, Reschedules;
      var deletes := StartReset();
      if deletes {
        UserCode(depth);
        FinishRelease();
      }
    }

    /** The loop in reset and the re-arming behind it, for the earliest expiration that is then left. */
    method Reset(depth: nat)
      requires Valid() && InReset()
      modifies this`clock, this`heap, this`created, this`uninserted, this`state, this`trace
      modifies this`timers, this`activeTimers, this`timerfd, this`cancelingTimers, this`cancels
      modifies this`done, this`releasing, this`expired, this`next
      ensures Valid() && AtRest() && Grows() && state.fired == old(state.fired)
      ensures timers != [] && 0 < timers[0].when ==> ArmedFor(timerfd, timers[0].when, clock)
    {
      hide Valid, Takes, Reschedules;
      Bounded();
      while done < |expired|
        invariant Valid() && Extends() && InReset() && done <= |expired|
        decreases |expired| - done
      {
        Interfere();
        ResetTimer(depth);
      }
      Interfere();
      Rearm();
    }

    lemma Bounded()
      requires Valid()
      ensures done <= |expired|
    {
    }

    /** handleRead: the callbacks of the due timers start in order of expiration, once each, whatever they do; then
        reset. Afterwards the kernel timer is armed for the earliest expiration. */
    method HandleRead(readAt: int, depth: nat)
      requires Valid() && AtRest() && clock <= readAt
      modifies this
      ensures Valid() && AtRest() && ArmedInTime(state) && Grows()
      ensures timers != [] && 0 < timers[0].when ==> ArmedFor(timerfd, timers[0].when, clock)
      ensures Expired(old(timers), old(clock)) <= |old(timers)|
      ensures FiredFor(old(state.fired), state.fired, old(timers)[..Expired(old(timers), old(clock))], old(clock))
    {
      hide Valid, Takes, Expired, FiredFor;
      ghost var before := state.fired;
      BeginRead(readAt);
      NoneFired(before, now);
      assert expired[..next] == [];
      while next < |expired|
        invariant Valid() && Grows() && callingExpiredTimers && cancels == [] && releasing.None? && done == 0
        invariant !state.resetting
        invariant expired == old(timers)[..Expired(old(timers), old(clock))] && next <= |expired| && now == old(clock)
        invariant FiredFor(before, state.fired, expired[..next], now)
        decreases |expired| - next
      {
        ghost var earlier := state.fired;
        var timer := RunTimer();
        OneFired(before, earlier, expired, next - 1, now, Firing(timer.sequence, timer.repeat, expired[next - 1].when, now));
        UserCode(depth);
      }
      assert expired[..next] == expired;
      FinishCallbacks();
      Reset(depth);
      ArmedAgain();
    }

    lemma ArmedAgain()
      requires Valid() && AtRest()
      ensures ArmedInTime(state)
    {
      hide Reached, Places, History, DyingOk, ArmedInTime;
      Safe();
    }
  }

  /** The callbacks fired since `before` are those of these entries, in order, at this time. */
  ghost predicate FiredFor(before: seq<Firing>, fired: seq<Firing>, due: seq<Entry>, now: int) {
    && |fired| == |before| + |due| && before <= fired
    && forall i :: 0 <= i < |due| ==> fired[|before| + i].when == due[i].when && fired[|before| + i].at == now
  }

  lemma NoneFired(before: seq<Firing>, now: int)
    ensures FiredFor(before, before, [], now)
  {
  }

  lemma OneFired(before: seq<Firing>, fired: seq<Firing>, due: seq<Entry>, i: nat, now: int, firing: Firing)
    requires i < |due| && FiredFor(before, fired, due[..i], now) && firing.when == due[i].when && firing.at == now
    ensures FiredFor(before, fired + [firing], due[..i + 1], now)
  {
    var all, entries := fired + [firing], due[..i + 1];
    assert before <= all && |all| == |before| + |entries|;
    forall j | 0 <= j < |entries|
      ensures all[|before| + j].when == entries[j].when && all[|before| + j].at == now
    {
      if j < i {
        assert all[|before| + j] == fired[|before| + j] && entries[j] == due[..i][j];
      }
    }
    assert FiredFor(before, all, entries, now);
  }

  /** Some run from the empty queue. */
  ghost predicate Reached(steps: seq<Step>, s: State) {
    EmptyInv();
    Legal(EMPTY, steps) && s == Run(EMPTY, steps)
  }

  lemma ReachedStep(steps: seq<Step>, s: State, step: Step)
    requires Reached(steps, s) && Inv(s) && Enabled(s, step)
    ensures Reached(steps + [step], Apply(s, step))
  {
    hide Inv, Apply, Enabled;
    EmptyInv();
    StepKeepsInv(s, step);
    RunCons(s, step, []);
    assert [step] + [] == [step];
    RunConcat(EMPTY, steps, [step]);
  }

  // ---- What the steps do ----

  lemma CallingMeans(s: State)
    requires Inv(s) && s.calling
    ensures !s.resetting && s.releasing.None?
  {
    hide Places, History, DyingOk, ArmedOk;
  }

  lemma AddTimerIs(s: State, a: Address)
    requires Inv(s) && a in s.uninserted && M.InUserCode(s)
    ensures a in s.heap && Enabled(s, Step.AddTimer(a))
    ensures var t := Apply(s, Step.AddTimer(a));
            && t == s.(timers := InsertEntry(s.timers, ScheduledEntry(s.heap, a)), active := t.active,
                       uninserted := s.uninserted - {a},
                       fd := if EarliestChanged(s, a) then ResetTimerfd(s.heap[a].expiration, s.clock) else s.fd)
            && ActiveTimers(t) == ActiveTimers(s) + {Active(s.heap, a)}
  {
    UninsertedIsLive(s, a);
    hide Inv, InsertEntry, ResetTimerfd, Members;
  }

  lemma CancelIs(s: State, id: ActiveTimer)
    requires Inv(s) && M.InUserCode(s) && id !in s.erasing
    ensures Enabled(s, Cancel(id))
    ensures id in ActiveTimers(s) ==> id.timer in s.heap
    ensures var t := Apply(s, Cancel(id));
            && s.cancelled <= t.cancelled && s.freed <= t.freed && ActiveTimers(t) == ActiveTimers(s)
            && ((id in ActiveTimers(s) || InBatch(s, id)) && !Lost(s, id) ==> id.sequence in t.cancelled)
            && t == if id in ActiveTimers(s) then
                      s.(heap := s.heap - {id.timer}, freed := t.freed, cancelled := t.cancelled, erasing := s.erasing + [id],
                         timers := EraseEntry(s.timers, ScheduledEntry(s.heap, id.timer)), active := t.active)
                    else if s.calling then s.(canceling := s.canceling + {id}, cancelled := t.cancelled)
                    else s.(cancelled := t.cancelled)
  {
    InMembers(s.erasing, id);
    if id in s.active {
      ActiveIsLive(s, id);
    }
    if id in s.active || InBatch(s, id) {
      CancelMarks(s, id);
    }
    MembersSnoc(s.erasing, id);
    hide Inv, EraseEntry, Members, InBatch, Lost, Reschedules;
  }

  lemma BeginReadIs(s: State, readAt: int)
    requires Inv(s) && !Reading(s) && NoDelete(s) && s.clock <= readAt
    ensures Indexed(s.heap, s.timers, s.active) && ActiveTimers(s) == s.active && Enabled(s, Step.BeginRead(readAt))
    ensures var k, t := Expired(s.timers, s.clock), Apply(s, Step.BeginRead(readAt));
            && k <= |s.timers| && AllLive(s.heap, s.timers[..k]) && ActiveTimers(t) == s.active - ActivesOf(s.heap, s.timers[..k])
            && t == s.(fd := ReadTimerfd(s.fd, readAt), timers := s.timers[k..], batch := s.timers[..k], next := 0, now := s.clock,
                       active := t.active, calling := true, canceling := {}, clock := readAt)
  {
    ExpiredSplits(s.timers, s.clock);
    PrefixLive(s.heap, s.timers, s.active, Expired(s.timers, s.clock));
    hide Indexed, History, DyingOk, ArmedOk, Expired, AllLive, ActivesOf, ReadTimerfd;
  }

  lemma ResetNextIs(s: State)
    requires Inv(s) && s.resetting && NoDelete(s) && s.batch != []
    ensures s.batch[0].timer in s.heap && Enabled(s, ResetNext)
    ensures var a, t := s.batch[0].timer, Apply(s, ResetNext);
            && t.batch == s.batch[1..] && t.next == s.next - 1
            && if Reschedules(s, a) then
                 && ActiveTimers(t) == ActiveTimers(s) + {Active(s.heap, a)}
                 && var heap := s.heap[a := s.heap[a].(expiration := s.now + s.heap[a].delta)];
                    t == s.(batch := t.batch, next := t.next, active := t.active, heap := heap,
                            timers := InsertEntry(s.timers, ScheduledEntry(heap, a)))
               else
                 && ActiveTimers(t) == ActiveTimers(s)
                 && t == s.(batch := t.batch, next := t.next, heap := s.heap - {a}, releasing := Some(a),
                         freed := s.freed + [s.heap[a].sequence])
  {
    FirstOfBatch(s);
    hide Places, History, DyingOk, ArmedOk, InsertEntry, Members;
  }

  lemma RearmIs(s: State)
    requires Inv(s) && s.resetting && NoDelete(s) && s.batch == []
    ensures s.timers != [] ==> s.timers[0].timer in s.heap && s.heap[s.timers[0].timer].expiration == s.timers[0].when
    ensures Enabled(s, Step.Rearm) && Apply(s, Step.Rearm) == Rearmed(s).(resetting := false, next := 0)
    ensures !s.calling
  {
    if s.timers != [] {
      FirstIsLive(s);
    }
    hide Places, History, DyingOk, ArmedOk;
  }
}
