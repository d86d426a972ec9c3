/** base/BoundedBlockingQueue.h: any number of threads that put and take under one mutex, with two condition
    variables, as a state machine. A step is what one thread does while it holds the mutex. */
module QueueMachine {
  type Tid = nat

  /** The threads asleep on a condition variable, and those it notified that have not got the mutex back yet. */
  datatype Condition = Condition(waiting: set<Tid>, signalled: set<Tid>)

  datatype Call<T> = Put(item: T) | Take

  datatype State<T> = State(
    capacity: nat,
    queue: seq<T>,
    calls: map<Tid, Call<T>>,     // the threads inside put or take
    notEmpty: Condition,
    notFull: Condition,
    put: seq<T>,                  // history: items of the calls of put that returned, in order
    taken: seq<T>)                // history: results of take, in order

  datatype Step<T> =
    | Enter(tid: Tid, call: Call<T>)
    | Pass(tid: Tid, woken: set<Tid>)   // one turn of the wait loop, or past it to the end; whom its notify wakes
    | Spurious(tid: Tid)                // a wait returns without a notify

  function Initial<T>(capacity: nat): State<T> {
    State(capacity, [], map[], Condition({}, {}), Condition({}, {}), [], [])
  }

  /** pthread_cond_signal wakes at least one of the waiting threads, if there are any. */
  predicate Notifiable(c: Condition, woken: set<Tid>) {
    woken <= c.waiting && (c.waiting != {} ==> woken != {})
  }

  function Notify(c: Condition, woken: set<Tid>): Condition {
    Condition(c.waiting - woken, c.signalled + woken)
  }

  /** A thread that has the mutex back no longer counts as notified. */
  function Resume(c: Condition, t: Tid): Condition {
    Condition(c.waiting, c.signalled - {t})
  }

  function Wait(c: Condition, t: Tid): Condition {
    Condition(c.waiting + {t}, c.signalled - {t})
  }

  function Free<T>(s: State<T>): int {
    s.capacity - |s.queue|
  }

  /** Whether the thread's wait loop ends. */
  predicate Passes<T>(s: State<T>, t: Tid)
    requires t in s.calls
  {
    if s.calls[t].Put? then |s.queue| != s.capacity else s.queue != []
  }

  predicate Enabled<T>(s: State<T>, step: Step<T>) {
    match step
    case Enter(t, call) => t !in s.calls
    case Pass(t, woken) =>
      && t in s.calls && t !in s.notEmpty.waiting && t !in s.notFull.waiting
      && (Passes(s, t) ==> Notifiable(if s.calls[t].Put? then s.notEmpty else s.notFull, woken))
    case Spurious(t) => t in s.notEmpty.waiting || t in s.notFull.waiting
  }

  function DoPut<T>(s: State<T>, t: Tid, item: T, woken: set<Tid>): State<T> {
    if |s.queue| == s.capacity then s.(notFull := Wait(s.notFull, t))
    else s.(queue := s.queue + [item], put := s.put + [item], calls := s.calls - {t},
            notFull := Resume(s.notFull, t), notEmpty := Notify(s.notEmpty, woken))
  }

  function DoTake<T>(s: State<T>, t: Tid, woken: set<Tid>): State<T> {
    if s.queue == [] then s.(notEmpty := Wait(s.notEmpty, t))
    else s.(queue := s.queue[1..], taken := s.taken + [s.queue[0]], calls := s.calls - {t},
            notEmpty := Resume(s.notEmpty, t), notFull := Notify(s.notFull, woken))
  }

  function DoSpurious<T>(s: State<T>, t: Tid): State<T> {
    s.(notEmpty := s.notEmpty.(waiting := s.notEmpty.waiting - {t}), notFull := s.notFull.(waiting := s.notFull.waiting - {t}))
  }

  function Apply<T>(s: State<T>, step: Step<T>): State<T>
    requires Enabled(s, step)
  {
    match step
    case Enter(t, call) => s.(calls := s.calls[t := call])
    case Pass(t, woken) => (match s.calls[t] case Put(item) => DoPut(s, t, item, woken) case Take => DoTake(s, t, woken))
    case Spurious(t) => DoSpurious(s, t)
  }

  // ---- The invariant ----

  /** While a thread sleeps, there are at most as many units (items, or free slots) as notified threads. */
  predicate CondOk(c: Condition, units: int) {
    && c.waiting !! c.signalled
    && (c.waiting != {} ==> units <= |c.signalled|)
  }

  predicate InCall<T>(c: Condition, calls: map<Tid, Call<T>>, put: bool) {
    forall t :: t in c.waiting + c.signalled ==> t in calls && calls[t].Put? == put
  }

  ghost predicate Inv<T>(s: State<T>) {
    && |s.queue| <= s.capacity
    && s.put == s.taken + s.queue
    && CondOk(s.notEmpty, |s.queue|)
    && CondOk(s.notFull, Free(s))
    && InCall(s.notEmpty, s.calls, false)
    && InCall(s.notFull, s.calls, true)
  }

  /** One more unit and a notify: as many more notified threads, or none asleep. */
  lemma NotifyKeeps(c: Condition, units: int, woken: set<Tid>)
    requires CondOk(c, units) && Notifiable(c, woken)
    ensures CondOk(Notify(c, woken), units + 1)
  {
    if c.waiting != {} {
      assert |c.signalled + woken| == |c.signalled| + |woken|;
    }
  }

  /** A thread that has the mutex uses up one unit: at most one notified thread fewer. */
  lemma ResumeKeeps(c: Condition, units: int, t: Tid)
    requires CondOk(c, units)
    ensures CondOk(Resume(c, t), units - 1)
  {
    if t in c.signalled {
      assert |c.signalled - {t}| == |c.signalled| - 1;
    } else {
      assert c.signalled - {t} == c.signalled;
    }
  }

  lemma WaitKeeps(c: Condition, units: int, t: Tid)
    requires CondOk(c, units) && units <= 0
    ensures CondOk(Wait(c, t), units)
  {
  }

  /** The other condition variable's threads, when t returns from its call and wakes some of them. */
  lemma NotifyKeepsCalls<T>(c: Condition, calls: map<Tid, Call<T>>, put: bool, t: Tid, woken: set<Tid>)
    requires InCall(c, calls, put) && t in calls && calls[t].Put? != put && woken <= c.waiting
    ensures InCall(Notify(c, woken), calls - {t}, put)
  {
  }

  lemma ResumeKeepsCalls<T>(c: Condition, calls: map<Tid, Call<T>>, put: bool, t: Tid)
    requires InCall(c, calls, put) && t !in c.waiting
    ensures InCall(Resume(c, t), calls - {t}, put)
  {
  }

  lemma WaitKeepsCalls<T>(c: Condition, calls: map<Tid, Call<T>>, put: bool, t: Tid)
    requires InCall(c, calls, put) && t in calls && calls[t].Put? == put
    ensures InCall(Wait(c, t), calls, put)
  {
  }

  lemma PutKeepsInv<T>(s: State<T>, t: Tid, woken: set<Tid>)
    requires Inv(s) && Enabled(s, Pass(t, woken)) && s.calls[t].Put?
    ensures Inv(Apply(s, Pass(t, woken)))
  {
    hide CondOk, InCall, Resume, Notify, Wait;
    if |s.queue| == s.capacity {
      WaitKeeps(s.notFull, Free(s), t);
      WaitKeepsCalls(s.notFull, s.calls, true, t);
    } else {
      NotifyKeeps(s.notEmpty, |s.queue|, woken);
      ResumeKeeps(s.notFull, Free(s), t);
      NotifyKeepsCalls(s.notEmpty, s.calls, false, t, woken);
      ResumeKeepsCalls(s.notFull, s.calls, true, t);
    }
  }

  lemma TakeKeepsInv<T>(s: State<T>, t: Tid, woken: set<Tid>)
    requires Inv(s) && Enabled(s, Pass(t, woken)) && s.calls[t].Take?
    ensures Inv(Apply(s, Pass(t, woken)))
  {
    hide CondOk, InCall, Resume, Notify, Wait;
    if s.queue == [] {
      WaitKeeps(s.notEmpty, 0, t);
      WaitKeepsCalls(s.notEmpty, s.calls, false, t);
    } else {
      NotifyKeeps(s.notFull, Free(s), woken);
      ResumeKeeps(s.notEmpty, |s.queue|, t);
      NotifyKeepsCalls(s.notFull, s.calls, true, t, woken);
      ResumeKeepsCalls(s.notEmpty, s.calls, false, t);
      assert s.queue == [s.queue[0]] + s.queue[1..];
    }
  }

  lemma StepKeepsInv<T>(s: State<T>, step: Step<T>)
    requires Inv(s) && Enabled(s, step)
    ensures Inv(Apply(s, step))
  {
    match step
    case Enter(t, call) => EnterKeepsInv(s, t, call);
    case Spurious(t) => SpuriousKeepsInv(s, t);
    case Pass(t, woken) =>
      hide Inv, Enabled, Apply;
      assert t in s.calls by { PassInCall(s, t, woken); }
      if s.calls[t].Put? {
        PutKeepsInv(s, t, woken);
      } else {
        TakeKeepsInv(s, t, woken);
      }
  }

  lemma EnterKeepsInv<T>(s: State<T>, t: Tid, call: Call<T>)
    requires Inv(s) && t !in s.calls
    ensures Inv(s.(calls := s.calls[t := call]))
  {
    hide CondOk;
  }

  lemma SpuriousKeepsInv<T>(s: State<T>, t: Tid)
    requires Inv(s)
    ensures Inv(DoSpurious(s, t))
  {
  }

  lemma PassInCall<T>(s: State<T>, t: Tid, woken: set<Tid>)
    requires Enabled(s, Pass(t, woken))
    ensures t in s.calls
  {
  }

  // ---- Runs ----

  predicate Legal<T>(s: State<T>, steps: seq<Step<T>>)
    decreases |steps|
  {
    steps == [] || (Enabled(s, steps[0]) && Legal(Apply(s, steps[0]), steps[1..]))
  }

  function Run<T>(s: State<T>, steps: seq<Step<T>>): State<T>
    requires Legal(s, steps)
    decreases |steps|
  {
    if steps == [] then s else Run(Apply(s, steps[0]), steps[1..])
  }

  lemma {:induction false} RunKeepsInv<T>(s: State<T>, steps: seq<Step<T>>)
    requires Inv(s) && Legal(s, steps)
    ensures Inv(Run(s, steps)) && Run(s, steps).capacity == s.capacity
    decreases |steps|
  {
    if steps == [] {
    } else {
      StepKeepsInv(s, steps[0]);
      hide Inv, Enabled;
      RunKeepsInv(Apply(s, steps[0]), steps[1..]);
    }
  }

  /** Items leave in the order they came, each once, and never are there more than the capacity. */
  lemma FirstInFirstOut<T>(capacity: nat, steps: seq<Step<T>>)
    requires Legal(Initial(capacity), steps)
    ensures var s := Run(Initial(capacity), steps);
      s.put == s.taken + s.queue && |s.queue| <= capacity
  {
    RunKeepsInv(Initial(capacity), steps);
  }

  /** Some thread inside put and some thread inside take are asleep, and no notified thread is yet to run. */
  predicate BothAsleep<T>(s: State<T>) {
    s.notEmpty.waiting != {} && s.notFull.waiting != {} && s.notEmpty.signalled == {} && s.notFull.signalled == {}
  }

  predicate LeadsBothAsleep<T>(capacity: nat, steps: seq<Step<T>>) {
    Legal(Initial(capacity), steps) && BothAsleep(Run(Initial(capacity), steps))
  }

  /** A consumer sleeps only while as many notified consumers are yet to run as there are items; dually for
      producers and free slots. */
  lemma SleepersAreCovered<T>(capacity: nat, steps: seq<Step<T>>)
    requires Legal(Initial(capacity), steps)
    ensures var s := Run(Initial(capacity), steps);
      && (s.notEmpty.waiting != {} ==> |s.queue| <= |s.notEmpty.signalled|)
      && (s.notFull.waiting != {} ==> capacity - |s.queue| <= |s.notFull.signalled|)
  {
    RunKeepsInv(Initial(capacity), steps);
  }

  /** When every thread inside put or take is asleep, each has reason to be: consumers sleep only on an empty
      queue, producers only on a full one. */
  lemma AllAsleepForCause<T>(capacity: nat, steps: seq<Step<T>>)
    requires Legal(Initial(capacity), steps)
    ensures var s := Run(Initial(capacity), steps);
      (forall t :: t in s.calls ==> t in s.notEmpty.waiting || t in s.notFull.waiting) ==>
        && (s.notEmpty.waiting != {} ==> s.queue == [])
        && (s.notFull.waiting != {} ==> |s.queue| == capacity)
  {
    RunKeepsInv(Initial(capacity), steps);
    var s := Run(Initial(capacity), steps);
    hide Run, Legal;
    if forall t :: t in s.calls ==> t in s.notEmpty.waiting || t in s.notFull.waiting {
      NoneSignalled(s.notEmpty, s.notFull, s.calls, false, |s.queue|);
      NoneSignalled(s.notFull, s.notEmpty, s.calls, true, Free(s));
    }
  }

  lemma NoneSignalled<T>(c: Condition, other: Condition, calls: map<Tid, Call<T>>, put: bool, units: int)
    requires CondOk(c, units) && InCall(c, calls, put) && InCall(other, calls, !put)
    requires forall t :: t in calls ==> t in c.waiting || t in other.waiting
    ensures c.signalled == {} && (c.waiting != {} ==> units <= 0)
  {
    forall t: Tid
      ensures t !in c.signalled
    {
      if t in calls && calls[t].Put? == put {
        assert t in c.waiting;
      }
    }
  }

  /** Over all runs with any number of threads, a producer and a consumer are never both asleep with no wakeup in
      flight, if and only if the capacity is at least 1. */
  lemma NeverBothAsleep<T(!new)>(capacity: nat, item: T)
    ensures capacity == 0 <==>
            exists steps: seq<Step<T>> :: LeadsBothAsleep(capacity, steps)
  {
    if capacity >= 1 {
      forall steps: seq<Step<T>> | LeadsBothAsleep(capacity, steps)
        ensures false
      {
        RunKeepsInv(Initial(capacity), steps);
      }
    } else {
      var steps := BothAsleepAtCapacityZero(item);
      assert LeadsBothAsleep(capacity, steps);
    }
  }

  /** With capacity 0, put finds the queue full and take finds it empty: both sleep for ever. */
  lemma BothAsleepAtCapacityZero<T>(item: T) returns (steps: seq<Step<T>>)
    ensures Legal(Initial(0), steps) && BothAsleep(Run(Initial(0), steps))
  {
    steps := [Enter(0, Put(item)), Enter(1, Take), Pass(0, {}), Pass(1, {})];
    var s0: State<T> := Initial(0);
    var s1 := Apply(s0, steps[0]);
    var s2 := Apply(s1, steps[1]);
    var s3 := Apply(s2, steps[2]);
    var s4 := Apply(s3, steps[3]);
    assert 1 in s4.notEmpty.waiting && 0 in s4.notFull.waiting;
    assert Legal(s4, steps[4..]) && Run(s4, steps[4..]) == s4;
    assert steps[3..][1..] == steps[4..] && Legal(s3, steps[3..]) && Run(s3, steps[3..]) == s4;
    assert steps[2..][1..] == steps[3..] && Legal(s2, steps[2..]) && Run(s2, steps[2..]) == s4;
    assert steps[1..][1..] == steps[2..] && Legal(s1, steps[1..]) && Run(s1, steps[1..]) == s4;
  }
}
