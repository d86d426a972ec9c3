/** net/TimerQueue.cpp: timers indexed twice, re-entered by their own callbacks, behind one kernel timer.

    The queue is a state machine, cut wherever user code runs on the loop thread, which may then take any NewTimer,
    AddTimer and Cancel steps: between callbacks (each RunTimer starts one), in functors, and whenever a timer is
    deleted, since that destroys its callback and with it what the callback owned. cancelInLoop deletes between its
    two erasures (Cancel to Erased), reset inside its loop over the batch (ResetNext to Released).

    The steps are those of a build without assertions; Asserts says what a build with them checks. */
module TimerMachine {
  import opened Wrappers

  type Address = nat
  const ADDRESS_MAX: nat := 0xffff_ffff_ffff_ffff

  /** Times are microseconds on one monotone clock; `delta` is the interval in microseconds. */
  datatype Timer = Timer(expiration: int, repeat: bool, delta: nat, sequence: int)
  type Heap = map<Address, Timer>
  datatype Entry = Entry(when: int, timer: Address)
  datatype ActiveTimer = ActiveTimer(timer: Address, sequence: int)
  datatype Timerfd = Disarmed | Armed(deadline: int, setAt: int)
  datatype Timespec = Timespec(sec: int, nsec: int)
  /** One run of a callback: which timer, for which expiration, at what time. */
  datatype Firing = Firing(sequence: int, repeat: bool, when: int, at: int)

  datatype State = State(
    heap: Heap,                       // the Timer objects not yet deleted
    timers: seq<Entry>,               // timers_, in the order of the std::set
    active: set<ActiveTimer>,         // activeTimers_, less those being erased from it
    canceling: set<ActiveTimer>,      // cancelingTimers_
    calling: bool,                    // callingExpiredTimers_
    resetting: bool,                  // in reset
    erasing: seq<ActiveTimer>,        // cancels under way, outermost first: deleted, their callbacks being destroyed
    releasing: Option<Address>,       // the timer that reset deleted, its callback being destroyed
    fd: Timerfd,
    batch: seq<Entry>,                // `expired` while handleRead is active, less what reset has done
    next: nat,                        // how many of the batch have run
    now: int,                         // `now` of the active handleRead
    clock: int,
    created: nat,                     // Timer::s_numCreated_
    requested: map<int, int>,         // history: the expiration each timer was created with
    uninserted: set<Address>,         // allocated by addTimer, addTimerInLoop still to run
    freed: seq<int>,                  // history: sequence numbers in order of deletion
    fired: seq<Firing>,               // history: callbacks in order
    cancelled: set<int>)              // history: timers that a cancel found inserted, unless it was lost

  const EMPTY := State(map[], [], {}, {}, false, false, [], None, Disarmed, [], 0, 0, 1, 0, map[], {}, [], [], {})

  // ---- The ordered set of entries ----

  predicate Before(x: Entry, y: Entry) {
    x.when < y.when || (x.when == y.when && x.timer < y.timer)
  }

  predicate Sorted(s: seq<Entry>) {
    forall i, j :: 0 <= i < j < |s| ==> Before(s[i], s[j])
  }

  function InsertEntry(s: seq<Entry>, e: Entry): seq<Entry> {
    if s == [] || Before(e, s[0]) then [e] + s
    else if s[0] == e then s
    else [s[0]] + InsertEntry(s[1..], e)
  }

  function EraseEntry(s: seq<Entry>, e: Entry): seq<Entry> {
    if s == [] then [] else if s[0] == e then s[1..] else [s[0]] + EraseEntry(s[1..], e)
  }

  /** How many entries precede the sentry (now, ADDRESS_MAX): what lower_bound returns. */
  function Expired(s: seq<Entry>, now: int): nat {
    if s != [] && Before(s[0], Entry(now, ADDRESS_MAX)) then 1 + Expired(s[1..], now) else 0
  }

  lemma {:induction false} InsertEntryKeepsSet(s: seq<Entry>, e: Entry)
    requires Sorted(s) && e !in s
    ensures var t := InsertEntry(s, e);
            && Sorted(t) && |t| == |s| + 1
            && (forall x :: x in t <==> x in s || x == e)
            && t[0] == (if s == [] || Before(e, s[0]) then e else s[0])
  {
    if s == [] || Before(e, s[0]) {
    } else {
      InsertEntryKeepsSet(s[1..], e);
      var t := InsertEntry(s[1..], e);
      forall j | 0 <= j < |t| ensures Before(s[0], t[j]) {
        assert t[j] in t;
      }
      assert s == [s[0]] + s[1..];
    }
  }

  lemma {:induction false} EraseEntryKeepsSet(s: seq<Entry>, e: Entry)
    requires Sorted(s) && e in s
    ensures var t := EraseEntry(s, e);
            && Sorted(t) && |t| == |s| - 1
            && (forall x :: x in t <==> x in s && x != e)
  {
    if s[0] == e {
      assert forall x :: x in s[1..] ==> exists i :: 1 <= i < |s| && s[i] == x;
      assert forall x :: x in s && x != e ==> x in s[1..];
    } else {
      assert s == [s[0]] + s[1..];
      EraseEntryKeepsSet(s[1..], e);
      var t := EraseEntry(s[1..], e);
      forall j | 0 <= j < |t| ensures Before(s[0], t[j]) {
        assert t[j] in t;
      }
    }
  }

  lemma {:induction false} ExpiredSplits(s: seq<Entry>, now: int)
    requires Sorted(s) && forall e :: e in s ==> e.timer < ADDRESS_MAX
    ensures var k := Expired(s, now);
            && k <= |s|
            && (forall i :: 0 <= i < k ==> s[i].when <= now)
            && (forall i :: k <= i < |s| ==> now < s[i].when)
  {
    if s == [] {
    } else if !Before(s[0], Entry(now, ADDRESS_MAX)) {
      assert s[0] in s;
    } else {
      ExpiredSplits(s[1..], now);
      assert forall i :: 1 <= i < |s| ==> s[i] == s[1..][i - 1];
    }
  }

  // ---- Steps ----

  datatype Step =
    | Tick(to: int)
    | NewTimer(timer: Address, when: int, repeat: bool, delta: nat)  // addTimer up to its runInLoop
    | AddTimer(timer: Address)                                       // addTimerInLoop
    | Cancel(id: ActiveTimer)                                        // cancelInLoop up to the destruction of the callback
    | Erased                                                         // the innermost cancelInLoop, after its delete
    | BeginRead(readAt: int)                                         // handleRead up to the first callback
    | RunTimer                                                       // the next callback starts
    | EndCallbacks                                                   // the last callback is over
    | ResetNext                                                      // the next iteration of the loop in reset
    | Released                                                       // the delete in it is over
    | Rearm                                                          // reset after its loop

  function HowMuchTimeFromNow(when: int, now: int): Timespec {
    var microseconds := if when - now < 100 then 100 else when - now;
    Timespec(microseconds / 1000000, microseconds % 1000000 * 1000)
  }

  /** timerfd_settime with a relative timeout: the kernel timer expires that long after the call. */
  function ResetTimerfd(when: int, clock: int): Timerfd {
    var ts := HowMuchTimeFromNow(when, clock);
    Armed(clock + ts.sec * 1000000 + ts.nsec / 1000, clock)
  }

  /** Reading the timerfd consumes an expiration that has happened; otherwise it has no effect. */
  function ReadTimerfd(fd: Timerfd, readAt: int): Timerfd {
    if fd.Armed? && fd.deadline <= readAt then Disarmed else fd
  }

  function Active(heap: Heap, a: Address): ActiveTimer
    requires a in heap
  {
    ActiveTimer(a, heap[a].sequence)
  }

  function ScheduledEntry(heap: Heap, a: Address): Entry
    requires a in heap
  {
    Entry(heap[a].expiration, a)
  }

  predicate EarliestChanged(s: State, a: Address)
    requires a in s.heap
  {
    s.timers == [] || s.heap[a].expiration < s.timers[0].when
  }

  /** TimerQueue::insert */
  function Insert(s: State, a: Address): State
    requires a in s.heap
  {
    s.(timers := InsertEntry(s.timers, ScheduledEntry(s.heap, a)), active := s.active + {Active(s.heap, a)})
  }

  /** delete */
  function Delete(s: State, a: Address): State
    requires a in s.heap
  {
    s.(heap := s.heap - {a}, freed := s.freed + [s.heap[a].sequence])
  }

  function AddTimerInLoop(s: State, a: Address): State
    requires a in s.heap
  {
    var inserted := Insert(s, a).(uninserted := s.uninserted - {a});
    if EarliestChanged(s, a) then inserted.(fd := ResetTimerfd(s.heap[a].expiration, s.clock)) else inserted
  }

  /** cancelInLoop. A cancel from reset that finds its timer neither scheduled nor the flag set does nothing; it is
      not lost if reset is to delete the timer anyway. */
  function CancelInLoop(s: State, id: ActiveTimer): State
    requires Indexed(s.heap, s.timers, s.active)
  {
    if id in s.active then
      Delete(s, id.timer).(timers := EraseEntry(s.timers, ScheduledEntry(s.heap, id.timer)),
                           active := s.active - {id},
                           erasing := s.erasing + [id],
                           cancelled := s.cancelled + {id.sequence})
    else if s.calling then
      s.(canceling := s.canceling + {id},
         cancelled := if InBatch(s, id) then s.cancelled + {id.sequence} else s.cancelled)
    else
      s.(cancelled := if InBatch(s, id) && !Reschedules(s, id.timer) then s.cancelled + {id.sequence} else s.cancelled)
  }

  predicate InBatch(s: State, id: ActiveTimer) {
    id.timer in s.heap && s.heap[id.timer].sequence == id.sequence && id.timer in BatchTimers(s.batch)
  }

  function BatchTimers(batch: seq<Entry>): set<Address> {
    set i | 0 <= i < |batch| :: batch[i].timer
  }

  predicate AllLive(heap: Heap, entries: seq<Entry>) {
    forall i :: 0 <= i < |entries| ==> entries[i].timer in heap
  }

  /** The members of activeTimers_ for these entries. */
  function ActivesOf(heap: Heap, entries: seq<Entry>): set<ActiveTimer>
    requires AllLive(heap, entries)
  {
    set i | 0 <= i < |entries| :: Active(heap, entries[i].timer)
  }

  function StartReading(s: State, readAt: int): State
    requires Indexed(s.heap, s.timers, s.active)
  {
    ExpiredSplits(s.timers, s.clock);
    var k := Expired(s.timers, s.clock);
    PrefixLive(s.heap, s.timers, s.active, k);
    s.(fd := ReadTimerfd(s.fd, readAt), timers := s.timers[k..], batch := s.timers[..k], next := 0, now := s.clock,
       active := s.active - ActivesOf(s.heap, s.timers[..k]),
       calling := true, canceling := {}, clock := readAt)
  }

  function RunNext(s: State): State
    requires s.next < |s.batch| && s.batch[s.next].timer in s.heap
  {
    var e := s.batch[s.next];
    var timer := s.heap[e.timer];
    s.(next := s.next + 1, fired := s.fired + [Firing(timer.sequence, timer.repeat, e.when, s.now)])
  }

  predicate Reschedules(s: State, a: Address)
    requires a in s.heap
  {
    s.heap[a].repeat && Active(s.heap, a) !in s.canceling
  }

  /** Timer::restart */
  function Restart(s: State, a: Address): State
    requires a in s.heap
  {
    s.(heap := s.heap[a := s.heap[a].(expiration := s.now + s.heap[a].delta)])
  }

  /** A batch entry whose timer reset deletes. */
  function WithoutFirst(s: State): State
    requires s.batch != [] && s.next == |s.batch| && s.batch[0].timer in s.heap
  {
    Delete(s, s.batch[0].timer).(batch := s.batch[1..], next := s.next - 1, releasing := Some(s.batch[0].timer))
  }

  /** One iteration of reset's loop, which leaves the first batch entry behind. */
  function ResetFirst(s: State): State
    requires s.batch != [] && s.next == |s.batch| && s.batch[0].timer in s.heap
  {
    var a := s.batch[0].timer;
    if Reschedules(s, a) then Insert(Restart(s, a), a).(batch := s.batch[1..], next := s.next - 1) else WithoutFirst(s)
  }

  function Rearmed(s: State): State {
    if s.timers != [] && s.timers[0].when > 0 then s.(fd := ResetTimerfd(s.timers[0].when, s.clock)) else s
  }

  /** handleRead is under way. */
  predicate Reading(s: State) {
    s.calling || s.resetting
  }

  /** No delete is under way. */
  predicate NoDelete(s: State) {
    s.erasing == [] && s.releasing.None?
  }

  /** The loop thread is in user code: anywhere but in reset itself. */
  predicate InUserCode(s: State) {
    s.resetting ==> !NoDelete(s)
  }

  /** The memory of a Timer is not free again before its destructor is over. */
  predicate Dying(erasing: seq<ActiveTimer>, releasing: Option<Address>, a: Address) {
    releasing == Some(a) || exists i :: 0 <= i < |erasing| && erasing[i].timer == a
  }

  /** Control can come to this step. */
  predicate Callable(s: State, step: Step) {
    match step
    case Tick(to) => s.clock <= to
    case NewTimer(a, when, repeat, delta) => a !in s.heap && a < ADDRESS_MAX && !Dying(s.erasing, s.releasing, a)
    case AddTimer(a) => a in s.uninserted && InUserCode(s)
    case Cancel(id) => InUserCode(s)
    case Erased => s.erasing != []
    case BeginRead(readAt) => !Reading(s) && NoDelete(s) && s.clock <= readAt
    case RunTimer => s.calling && NoDelete(s) && s.next < |s.batch|
    case EndCallbacks => s.calling && NoDelete(s) && s.next == |s.batch|
    case ResetNext => s.resetting && NoDelete(s) && s.batch != []
    case Released => s.releasing.Some? && s.erasing == []
    case Rearm => s.resetting && NoDelete(s) && s.batch == []
  }

  /** And its effect is defined: cancelling an id that a cancel under way is erasing finds it in activeTimers_ and
      deletes its timer a second time. */
  predicate Enabled(s: State, step: Step) {
    Callable(s, step) && (step.Cancel? ==> step.id !in s.erasing)
  }

  /** Taking a step dereferences live timers only: the well-formedness of this function under the invariant. */
  function Apply(s: State, step: Step): State
    requires Inv(s) && Enabled(s, step)
  {
    match step
    case Tick(to) => s.(clock := to)
    case NewTimer(a, when, repeat, delta) =>
      s.(heap := s.heap[a := Timer(when, repeat, delta, s.created + 1)], created := s.created + 1,
         requested := s.requested[s.created + 1 := when], uninserted := s.uninserted + {a})
    case AddTimer(a) => AddTimerInLoop(s, a)
    case Cancel(id) => CancelInLoop(s, id)
    case BeginRead(readAt) => StartReading(s, readAt)
    case RunTimer => BatchIsLive(s, s.next); RunNext(s)
    case Erased => s.(erasing := s.erasing[..|s.erasing| - 1])
    case EndCallbacks => s.(calling := false, resetting := true)
    case ResetNext => BatchIsLive(s, 0); ResetFirst(s)
    case Released => s.(releasing := None)
    case Rearm => Rearmed(s).(resetting := false, next := 0)
  }

  // ---- The invariant ----

  /** timers_ and activeTimers_ index the same live timers, each under its current expiration and sequence. */
  ghost predicate Indexed(heap: Heap, timers: seq<Entry>, active: set<ActiveTimer>) {
    && Sorted(timers)
    && (forall e :: e in timers ==> e.timer in heap && e == ScheduledEntry(heap, e.timer) && Active(heap, e.timer) in active)
    && (forall t :: t in active ==> t.timer in heap && t == Active(heap, t.timer) && ScheduledEntry(heap, t.timer) in timers)
    && (forall a :: a in heap ==> a < ADDRESS_MAX)
  }

  /** Every live timer is in exactly one place: waiting for addTimerInLoop, scheduled, or in the batch. */
  ghost predicate Owned(heap: Heap, active: set<ActiveTimer>, uninserted: set<Address>, inBatch: set<Address>) {
    && (forall a :: a in heap ==> a in uninserted || a in inBatch || Active(heap, a) in active)
    && uninserted <= heap.Keys && inBatch <= heap.Keys
    && uninserted !! inBatch
    && (forall t :: t in active ==> t.timer !in uninserted && t.timer !in inBatch)
  }

  ghost predicate BatchOk(heap: Heap, batch: seq<Entry>, now: int) {
    && (forall i, j :: 0 <= i < j < |batch| ==> batch[i].timer != batch[j].timer)
    && (forall i :: 0 <= i < |batch| ==>
          batch[i].timer in heap && batch[i] == ScheduledEntry(heap, batch[i].timer) && batch[i].when <= now)
  }

  /** Sequence numbers name timers uniquely for ever, and no timer is deleted twice. */
  ghost predicate Sequenced(heap: Heap, created: nat, freed: seq<int>) {
    && (forall a :: a in heap ==> 1 <= heap[a].sequence <= created && heap[a].sequence !in freed)
    && (forall a, b :: a in heap && b in heap && heap[a].sequence == heap[b].sequence ==> a == b)
    && (forall q :: q in freed ==> 1 <= q <= created)
    && (forall i, j :: 0 <= i < j < |freed| ==> freed[i] != freed[j])
  }

  /** Callbacks ran no earlier than their expiration, and one-shot timers at most once. */
  ghost predicate FiredOnce(created: nat, fired: seq<Firing>) {
    && (forall f :: f in fired ==> f.when <= f.at && 1 <= f.sequence <= created)
    && (forall i, j :: 0 <= i < j < |fired| && fired[i].sequence == fired[j].sequence ==>
          fired[i].repeat && fired[j].repeat)
  }

  /** A one-shot timer that ran and is still live has had its turn in the current batch. */
  ghost predicate FiredLive(heap: Heap, ran: set<Address>, fired: seq<Firing>) {
    forall f, a :: f in fired && a in heap && heap[a].sequence == f.sequence ==>
      f.repeat == heap[a].repeat && (!f.repeat ==> a in ran)
  }

  /** One-shot timers keep the expiration they were created with, and ran for that one. */
  ghost predicate RequestedOk(heap: Heap, created: nat, requested: map<int, int>, fired: seq<Firing>) {
    && (forall q :: q in requested ==> q <= created)
    && (forall a :: a in heap && !heap[a].repeat ==>
          heap[a].sequence in requested && heap[a].expiration == requested[heap[a].sequence])
    && (forall f :: f in fired && !f.repeat ==> f.sequence in requested && f.when == requested[f.sequence])
  }

  /** A cancelled timer is deleted, or in the batch and reset is to delete it. */
  ghost predicate CancelledOk(heap: Heap, created: nat, inBatch: set<Address>, canceling: set<ActiveTimer>, cancelled: set<int>) {
    forall c :: c in cancelled ==>
      c <= created && forall a :: a in heap && heap[a].sequence == c ==>
        a in inBatch && (Active(heap, a) in canceling || !heap[a].repeat)
  }

  /** The kernel timer expires by the earliest expiration, or 100 microseconds after it was last set. */
  ghost predicate ArmedInTime(s: State) {
    s.timers != [] ==>
      && s.fd.Armed?
      && (s.fd.deadline <= s.timers[0].when || s.fd.deadline <= s.fd.setAt + 100)
  }

  /** Outside handleRead the kernel timer is always armed in time. Inside, only a non-positive expiration,
      which reset would not re-arm for, needs it already. */
  ghost predicate ArmedOk(s: State) {
    && 1 <= s.clock
    && (!Reading(s) || (s.timers != [] && s.timers[0].when <= 0) ==> ArmedInTime(s))
  }

  ghost predicate Places(s: State) {
    && Indexed(s.heap, s.timers, s.active)
    && Owned(s.heap, s.active, s.uninserted, BatchTimers(s.batch))
    && BatchOk(s.heap, s.batch, s.now)
  }

  ghost predicate History(s: State) {
    && s.next <= |s.batch|
    && Sequenced(s.heap, s.created, s.freed)
    && FiredOnce(s.created, s.fired)
    && RequestedOk(s.heap, s.created, s.requested, s.fired)
    && FiredLive(s.heap, BatchTimers(s.batch[..s.next]), s.fired)
    && CancelledOk(s.heap, s.created, BatchTimers(s.batch), s.canceling, s.cancelled)
  }

  /** Where control is. */
  predicate PhaseOk(s: State) {
    && !(s.calling && s.resetting)
    && (s.releasing.Some? ==> s.resetting)
    && (s.resetting ==> s.next == |s.batch|)
    && (if Reading(s) then 1 <= s.now <= s.clock else s.batch == [])
  }

  /** What is being destroyed is gone from the heap, each address once. */
  ghost predicate DyingOk(heap: Heap, erasing: seq<ActiveTimer>, releasing: Option<Address>) {
    && (forall i :: 0 <= i < |erasing| ==> erasing[i].timer !in heap)
    && (forall i, j :: 0 <= i < j < |erasing| ==> erasing[i].timer != erasing[j].timer)
    && (releasing.Some? ==> releasing.value !in heap)
  }

  ghost predicate Inv(s: State) {
    && Places(s)
    && History(s)
    && PhaseOk(s)
    && DyingOk(s.heap, s.erasing, s.releasing)
    && ArmedOk(s)
  }

  // ---- Every step keeps it ----

  lemma InsertKeepsIndexed(s: State, a: Address)
    requires Indexed(s.heap, s.timers, s.active) && a in s.heap && Active(s.heap, a) !in s.active
    ensures var s' := Insert(s, a);
            && Indexed(s'.heap, s'.timers, s'.active)
            && s'.timers != []
            && s'.timers[0] == (if s.timers == [] || Before(ScheduledEntry(s.heap, a), s.timers[0]) then ScheduledEntry(s.heap, a) else s.timers[0])
  {
    InsertEntryKeepsSet(s.timers, ScheduledEntry(s.heap, a));
  }

  lemma TickKeepsInv(s: State, to: int)
    requires Inv(s) && s.clock <= to
    ensures Inv(s.(clock := to))
  {
    hide Indexed, Owned, BatchOk, Sequenced, FiredOnce, FiredLive, RequestedOk, CancelledOk, BatchTimers;
  }

  lemma NewTimerKeepsPlaces(s: State, a: Address, timer: Timer)
    requires Places(s) && a !in s.heap && a < ADDRESS_MAX
    ensures Places(s.(heap := s.heap[a := timer], uninserted := s.uninserted + {a}))
  {
    hide BatchTimers;
  }

  lemma NewTimerKeepsHistory(s: State, a: Address, timer: Timer)
    requires History(s) && a !in s.heap && timer.sequence == s.created + 1
    ensures History(s.(heap := s.heap[a := timer], created := s.created + 1,
                       requested := s.requested[timer.sequence := timer.expiration]))
  {
    NewTimerKeepsRequested(s, a, timer);
    hide BatchTimers, RequestedOk;
  }

  lemma NewTimerKeepsRequested(s: State, a: Address, timer: Timer)
    requires History(s) && a !in s.heap && timer.sequence == s.created + 1
    ensures RequestedOk(s.heap[a := timer], s.created + 1, s.requested[timer.sequence := timer.expiration], s.fired)
  {
    hide BatchTimers, FiredOnce, FiredLive, CancelledOk;
  }

  lemma NewTimerKeepsInv(s: State, a: Address, when: int, repeat: bool, delta: nat)
    requires Inv(s) && a !in s.heap && a < ADDRESS_MAX && !Dying(s.erasing, s.releasing, a)
    ensures Inv(Apply(s, NewTimer(a, when, repeat, delta)))
  {
    hide Indexed, Owned, BatchOk, Sequenced, FiredOnce, FiredLive, RequestedOk, CancelledOk, BatchTimers;
    var timer := Timer(when, repeat, delta, s.created + 1);
    NewTimerKeepsPlaces(s, a, timer);
    NewTimerKeepsHistory(s, a, timer);
  }

  lemma AddTimerKeepsPlaces(s: State, a: Address)
    requires Places(s) && a in s.uninserted
    ensures a in s.heap && Active(s.heap, a) !in s.active
    ensures Places(Insert(s, a).(uninserted := s.uninserted - {a}))
  {
    InsertKeepsIndexed(s, a);
    hide BatchTimers, InsertEntry, Sorted;
  }

  lemma AddTimerKeepsArmed(s: State, a: Address)
    requires Indexed(s.heap, s.timers, s.active) && a in s.heap && Active(s.heap, a) !in s.active && ArmedOk(s)
    ensures ArmedOk(AddTimerInLoop(s, a))
  {
    InsertKeepsIndexed(s, a);
    ResetDeadline(s.heap[a].expiration, s.clock);
    hide Indexed, InsertEntry, ResetTimerfd;
  }

  lemma AddTimerKeepsInv(s: State, a: Address)
    requires Inv(s) && a in s.uninserted
    ensures a in s.heap && Inv(AddTimerInLoop(s, a))
  {
    hide Indexed, Owned, BatchOk, History, BatchTimers, DyingOk, ArmedOk, InsertEntry;
    AddTimerKeepsPlaces(s, a);
    AddTimerKeepsArmed(s, a);
    HistoryIgnores(s, AddTimerInLoop(s, a));
  }

  lemma HistoryIgnores(s: State, t: State)
    requires History(s) && t == s.(timers := t.timers, active := t.active, uninserted := t.uninserted, fd := t.fd)
    ensures History(t)
  {
    hide Sequenced, FiredOnce, FiredLive, RequestedOk, CancelledOk, BatchTimers;
  }

  /** Deleting a timer that is no longer indexed. */
  lemma DeleteKeepsSequenced(heap: Heap, created: nat, freed: seq<int>, a: Address)
    requires Sequenced(heap, created, freed) && a in heap
    ensures Sequenced(heap - {a}, created, freed + [heap[a].sequence])
  {
  }

  lemma DeleteKeepsRequested(heap: Heap, created: nat, requested: map<int, int>, fired: seq<Firing>, a: Address)
    ensures RequestedOk(heap, created, requested, fired) ==> RequestedOk(heap - {a}, created, requested, fired)
  {
  }

  lemma DeleteKeepsFired(heap: Heap, ran: set<Address>, fired: seq<Firing>, a: Address)
    requires FiredLive(heap, ran, fired)
    ensures FiredLive(heap - {a}, ran - {a}, fired)
  {
  }

  lemma DeleteKeepsCancelled(heap: Heap, created: nat, freed: seq<int>, inBatch: set<Address>, canceling: set<ActiveTimer>,
                             cancelled: set<int>, a: Address)
    requires Sequenced(heap, created, freed) && a in heap && CancelledOk(heap, created, inBatch, canceling, cancelled)
    ensures CancelledOk(heap - {a}, created, inBatch - {a}, canceling, cancelled)
    ensures CancelledOk(heap - {a}, created, inBatch - {a}, canceling, cancelled + {heap[a].sequence})
  {
  }

  lemma DeleteKeeps(s: State, a: Address, ran: set<Address>, inBatch: set<Address>)
    requires a in s.heap && Sequenced(s.heap, s.created, s.freed)
    requires FiredLive(s.heap, ran, s.fired)
    requires CancelledOk(s.heap, s.created, inBatch, s.canceling, s.cancelled)
    ensures var s' := Delete(s, a);
            && Sequenced(s'.heap, s.created, s'.freed)
            && (RequestedOk(s.heap, s.created, s.requested, s.fired) ==> RequestedOk(s'.heap, s.created, s.requested, s.fired))
            && FiredLive(s'.heap, ran - {a}, s.fired)
            && CancelledOk(s'.heap, s.created, inBatch - {a}, s.canceling, s.cancelled)
            && CancelledOk(s'.heap, s.created, inBatch - {a}, s.canceling, s.cancelled + {s.heap[a].sequence})
  {
    hide Sequenced, RequestedOk, FiredLive, CancelledOk;
    DeleteKeepsSequenced(s.heap, s.created, s.freed, a);
    DeleteKeepsRequested(s.heap, s.created, s.requested, s.fired, a);
    DeleteKeepsFired(s.heap, ran, s.fired, a);
    DeleteKeepsCancelled(s.heap, s.created, s.freed, inBatch, s.canceling, s.cancelled, a);
  }

  lemma CancelActiveKeepsIndexed(s: State, id: ActiveTimer)
    requires Indexed(s.heap, s.timers, s.active) && id in s.active
    ensures var s' := CancelInLoop(s, id);
            && Indexed(s'.heap, s'.timers, s'.active)
            && (s'.timers != [] ==> s.timers != [] && s.timers[0].when <= s'.timers[0].when)
  {
    EraseEntryKeepsSet(s.timers, ScheduledEntry(s.heap, id.timer));
    var s' := CancelInLoop(s, id);
    if s'.timers != [] {
      assert s'.timers[0] in s.timers;
    }
  }

  lemma CancelActiveKeepsPlaces(s: State, id: ActiveTimer)
    requires Places(s) && id in s.active
    ensures Places(CancelInLoop(s, id))
    ensures id.timer in s.heap && id.sequence == s.heap[id.timer].sequence && id.timer !in BatchTimers(s.batch)
  {
    CancelActiveKeepsIndexed(s, id);
    hide EraseEntry, Sorted;
    assert forall i :: 0 <= i < |s.batch| ==> s.batch[i].timer in BatchTimers(s.batch);
  }

  lemma BatchPrefix(batch: seq<Entry>, k: nat)
    requires k <= |batch|
    ensures BatchTimers(batch[..k]) <= BatchTimers(batch)
  {
  }

  lemma CancelKeepsDying(s: State, id: ActiveTimer)
    requires Indexed(s.heap, s.timers, s.active) && DyingOk(s.heap, s.erasing, s.releasing) && id in s.active
    ensures DyingOk(s.heap - {id.timer}, s.erasing + [id], s.releasing)
  {
  }

  lemma CancelActiveKeepsInv(s: State, id: ActiveTimer)
    requires Inv(s) && id in s.active
    ensures Inv(CancelInLoop(s, id))
  {
    CancelKeepsDying(s, id);
    hide DyingOk, Indexed, Owned, BatchOk, Sequenced, FiredOnce, FiredLive, RequestedOk, CancelledOk, BatchTimers;
    CancelActiveKeepsPlaces(s, id);
    CancelActiveKeepsIndexed(s, id);
    var ran, inBatch := BatchTimers(s.batch[..s.next]), BatchTimers(s.batch);
    BatchPrefix(s.batch, s.next);
    assert ran - {id.timer} == ran && inBatch - {id.timer} == inBatch;
    DeleteKeeps(s, id.timer, ran, inBatch);
  }

  lemma MarkKeepsCancelled(s: State, id: ActiveTimer)
    requires History(s)
    ensures CancelledOk(s.heap, s.created, BatchTimers(s.batch), s.canceling + {id},
                        if InBatch(s, id) then s.cancelled + {id.sequence} else s.cancelled)
  {
    hide BatchTimers, FiredOnce, FiredLive;
  }

  lemma RecordKeepsCancelled(s: State, id: ActiveTimer)
    requires History(s) && InBatch(s, id) && !Reschedules(s, id.timer)
    ensures CancelledOk(s.heap, s.created, BatchTimers(s.batch), s.canceling, s.cancelled + {id.sequence})
  {
    hide BatchTimers, FiredOnce, FiredLive;
  }

  lemma CancelKeepsInv(s: State, id: ActiveTimer)
    requires Inv(s)
    ensures Inv(CancelInLoop(s, id))
  {
    hide Indexed, Owned, BatchOk, Sequenced, FiredOnce, FiredLive, RequestedOk, CancelledOk, BatchTimers;
    if id in s.active {
      CancelActiveKeepsInv(s, id);
    } else if s.calling {
      MarkKeepsCancelled(s, id);
    } else if InBatch(s, id) && !Reschedules(s, id.timer) {
      RecordKeepsCancelled(s, id);
    }
  }

  /** Taking the first k timers out of both indices. */
  lemma PrefixLive(heap: Heap, timers: seq<Entry>, active: set<ActiveTimer>, k: nat)
    requires Indexed(heap, timers, active) && k <= |timers|
    ensures AllLive(heap, timers[..k])
  {
    forall i | 0 <= i < k
      ensures timers[..k][i].timer in heap
    {
      assert timers[i] in timers;
    }
  }

  lemma ActivesSnoc(heap: Heap, entries: seq<Entry>, i: nat)
    requires AllLive(heap, entries) && i < |entries|
    ensures AllLive(heap, entries[..i]) && AllLive(heap, entries[..i + 1])
    ensures ActivesOf(heap, entries[..i + 1]) == ActivesOf(heap, entries[..i]) + {Active(heap, entries[i].timer)}
  {
    forall a: ActiveTimer
      ensures a in ActivesOf(heap, entries[..i + 1]) <==> a in ActivesOf(heap, entries[..i]) || a == Active(heap, entries[i].timer)
    {
      if a in ActivesOf(heap, entries[..i + 1]) {
        var j :| 0 <= j < i + 1 && Active(heap, entries[..i + 1][j].timer) == a;
        assert j < i ==> entries[..i][j] == entries[j];
      } else {
        assert entries[..i + 1][i] == entries[i];
        assert forall j :: 0 <= j < i ==> entries[..i + 1][j] == entries[..i][j];
      }
    }
  }

  lemma TakeKeepsIndexed(heap: Heap, timers: seq<Entry>, active: set<ActiveTimer>, k: nat)
    requires Indexed(heap, timers, active) && k <= |timers|
    ensures AllLive(heap, timers[..k]) && Indexed(heap, timers[k..], active - ActivesOf(heap, timers[..k]))
  {
    PrefixLive(heap, timers, active, k);
    var rest := active - ActivesOf(heap, timers[..k]);
    forall e | e in timers[k..]
      ensures e in timers && Active(heap, e.timer) in rest
    {
      var j :| k <= j < |timers| && timers[j] == e;
      assert forall i :: 0 <= i < k ==> timers[i] in timers && Before(timers[i], timers[j]);
    }
    forall t | t in rest
      ensures ScheduledEntry(heap, t.timer) in timers[k..]
    {
      var i :| 0 <= i < |timers| && timers[i] == ScheduledEntry(heap, t.timer);
      assert forall j :: 0 <= j < k ==> timers[..k][j] == timers[j];
      assert timers[k..][i - k] == timers[i];
    }
  }

  lemma TakeKeepsOwned(heap: Heap, timers: seq<Entry>, active: set<ActiveTimer>, uninserted: set<Address>, k: nat)
    requires Indexed(heap, timers, active) && Owned(heap, active, uninserted, {}) && k <= |timers|
    ensures AllLive(heap, timers[..k])
    ensures Owned(heap, active - ActivesOf(heap, timers[..k]), uninserted, BatchTimers(timers[..k]))
  {
    PrefixLive(heap, timers, active, k);
    forall a | a in BatchTimers(timers[..k]) ensures a in heap && Active(heap, a) in active {
      var i :| 0 <= i < k && timers[..k][i].timer == a;
      assert timers[i] in timers;
    }
    forall a, i | 0 <= i < k && Active(heap, timers[i].timer) == a ensures a.timer in BatchTimers(timers[..k]) {
      assert timers[..k][i].timer == a.timer;
    }
    forall i | 0 <= i < k ensures timers[i] in timers {}
  }

  lemma TakeIsBatch(heap: Heap, timers: seq<Entry>, active: set<ActiveTimer>, k: nat, now: int)
    requires Indexed(heap, timers, active) && k <= |timers| && forall i :: 0 <= i < k ==> timers[i].when <= now
    ensures BatchOk(heap, timers[..k], now)
  {
    assert forall i :: 0 <= i < k ==> timers[i] in timers;
  }

  lemma StartKeepsPlaces(s: State, readAt: int)
    requires Places(s) && s.batch == []
    ensures var s' := StartReading(s, readAt);
            Places(s') && (s'.timers != [] ==> s.clock < s'.timers[0].when)
  {
    hide Owned, BatchOk;
    assert BatchTimers(s.batch) == {};
    ExpiredSplits(s.timers, s.clock);
    var k := Expired(s.timers, s.clock);
    TakeKeepsIndexed(s.heap, s.timers, s.active, k);
    TakeKeepsOwned(s.heap, s.timers, s.active, s.uninserted, k);
    TakeIsBatch(s.heap, s.timers, s.active, k, s.clock);
  }

  lemma StartKeepsHistory(s: State, readAt: int)
    requires Places(s) && History(s) && s.batch == []
    ensures History(StartReading(s, readAt))
  {
    hide Indexed, Owned, BatchOk, Sequenced, FiredOnce, FiredLive;
    var s' := StartReading(s, readAt);
    assert s.batch[..s.next] == s'.batch[..s'.next] == [];
    assert BatchTimers(s.batch) == {};
  }

  lemma StartKeepsInv(s: State, readAt: int)
    requires Inv(s) && !Reading(s) && NoDelete(s) && s.clock <= readAt
    ensures Inv(StartReading(s, readAt))
  {
    hide Indexed, Owned, BatchOk, Sequenced, FiredOnce, FiredLive, RequestedOk, CancelledOk, BatchTimers;
    StartKeepsPlaces(s, readAt);
    StartKeepsHistory(s, readAt);
  }

  lemma RunKeepsHistory(s: State)
    requires Places(s) && History(s) && s.next < |s.batch|
    ensures s.batch[s.next].timer in s.heap && History(RunNext(s))
  {
    hide Indexed, Owned, CancelledOk;
    var a := s.batch[s.next].timer;
    var ran, ran' := BatchTimers(s.batch[..s.next]), BatchTimers(s.batch[..s.next + 1]);
    assert a !in ran;
    assert ran' == ran + {a} by {
      assert s.batch[..s.next + 1][s.next].timer == a;
      assert forall i :: 0 <= i < s.next ==> s.batch[..s.next + 1][i] == s.batch[..s.next][i];
    }
    RunKeepsFired(s, ran);
    RunKeepsRequested(s);
    hide RequestedOk;
  }

  lemma RunKeepsRequested(s: State)
    requires s.next < |s.batch| && BatchOk(s.heap, s.batch, s.now)
    requires RequestedOk(s.heap, s.created, s.requested, s.fired)
    ensures RequestedOk(s.heap, s.created, s.requested, RunNext(s).fired)
  {
  }

  lemma RunKeepsFired(s: State, ran: set<Address>)
    requires s.next < |s.batch| && BatchOk(s.heap, s.batch, s.now) && Sequenced(s.heap, s.created, s.freed)
    requires FiredOnce(s.created, s.fired) && FiredLive(s.heap, ran, s.fired) && s.batch[s.next].timer !in ran
    ensures FiredOnce(s.created, RunNext(s).fired)
    ensures FiredLive(s.heap, ran + {s.batch[s.next].timer}, RunNext(s).fired)
  {
  }

  lemma RunKeepsInv(s: State)
    requires Inv(s) && s.calling && s.next < |s.batch|
    ensures s.batch[s.next].timer in s.heap && Inv(RunNext(s))
  {
    hide Indexed, Owned, BatchOk, Sequenced, FiredOnce, FiredLive, RequestedOk, CancelledOk, BatchTimers;
    RunKeepsHistory(s);
  }

  lemma BatchTimersFirst(batch: seq<Entry>)
    requires batch != []
    ensures BatchTimers(batch) == {batch[0].timer} + BatchTimers(batch[1..])
  {
    assert forall i :: 1 <= i < |batch| ==> batch[i] == batch[1..][i - 1];
  }

  lemma BatchRest(s: State)
    requires BatchOk(s.heap, s.batch, s.now) && s.batch != [] && s.next == |s.batch|
    ensures var a, rest := s.batch[0].timer, s.batch[1..];
            && BatchTimers(rest) == BatchTimers(s.batch) - {a} && a in BatchTimers(s.batch) && a in s.heap
            && s.batch[..s.next] == s.batch && rest[..s.next - 1] == rest
            && BatchOk(Restart(s, a).heap, rest, s.now)
            && BatchOk(s.heap - {a}, rest, s.now)
  {
    BatchTimersFirst(s.batch);
    assert forall i :: 1 <= i < |s.batch| ==> s.batch[1..][i - 1] == s.batch[i];
  }

  lemma DeleteFirstKeepsOwned(s: State, a: Address, inBatch: set<Address>)
    requires Indexed(s.heap, s.timers, s.active) && Owned(s.heap, s.active, s.uninserted, inBatch) && a in inBatch
    ensures Indexed(s.heap - {a}, s.timers, s.active) && Owned(s.heap - {a}, s.active, s.uninserted, inBatch - {a})
  {
  }

  lemma DeleteFirstKeepsPlaces(s: State)
    requires Places(s) && s.batch != [] && s.next == |s.batch|
    ensures s.batch[0].timer in s.heap && Places(WithoutFirst(s))
  {
    hide Indexed, Owned, BatchOk, Sequenced, FiredOnce, FiredLive, RequestedOk, CancelledOk, BatchTimers;
    BatchRest(s);
    DeleteFirstKeepsOwned(s, s.batch[0].timer, BatchTimers(s.batch));
  }

  lemma DeleteFirstKeepsHistory(s: State)
    requires Places(s) && History(s) && s.batch != [] && s.next == |s.batch|
    ensures s.batch[0].timer in s.heap && History(WithoutFirst(s))
  {
    hide Indexed, Owned, BatchOk, Sequenced, FiredOnce, FiredLive, RequestedOk, CancelledOk, BatchTimers;
    BatchRest(s);
    DeleteKeeps(s, s.batch[0].timer, BatchTimers(s.batch), BatchTimers(s.batch));
  }

  lemma DeleteFirstKeepsInv(s: State)
    requires Inv(s) && s.resetting && NoDelete(s) && s.batch != []
    requires s.batch[0].timer in s.heap && !Reschedules(s, s.batch[0].timer)
    ensures Inv(ResetFirst(s))
  {
    hide Indexed, Owned, BatchOk, Sequenced, FiredOnce, FiredLive, RequestedOk, CancelledOk, BatchTimers;
    DeleteFirstKeepsPlaces(s);
    DeleteFirstKeepsHistory(s);
  }

  lemma RestartKeepsPlaces(s: State, a: Address, inBatch: set<Address>)
    requires Indexed(s.heap, s.timers, s.active) && Owned(s.heap, s.active, s.uninserted, inBatch) && a in inBatch
    ensures var r := Restart(s, a);
            && Indexed(r.heap, r.timers, r.active) && Active(r.heap, a) !in r.active
            && Owned(r.heap, r.active + {Active(r.heap, a)}, r.uninserted, inBatch - {a})
  {
  }

  lemma RestartKeepsSequenced(heap: Heap, created: nat, freed: seq<int>, a: Address, when: int)
    requires Sequenced(heap, created, freed) && a in heap
    ensures Sequenced(heap[a := heap[a].(expiration := when)], created, freed)
  {
  }

  lemma RestartKeepsRequested(heap: Heap, created: nat, requested: map<int, int>, fired: seq<Firing>, a: Address, when: int)
    requires a in heap && heap[a].repeat
    ensures RequestedOk(heap, created, requested, fired) ==>
              RequestedOk(heap[a := heap[a].(expiration := when)], created, requested, fired)
  {
  }

  lemma RestartKeepsFired(heap: Heap, ran: set<Address>, fired: seq<Firing>, a: Address, when: int)
    requires FiredLive(heap, ran, fired) && a in heap && heap[a].repeat
    ensures FiredLive(heap[a := heap[a].(expiration := when)], ran - {a}, fired)
  {
  }

  lemma RestartKeepsCancelled(heap: Heap, created: nat, inBatch: set<Address>, canceling: set<ActiveTimer>,
                              cancelled: set<int>, a: Address, when: int)
    requires CancelledOk(heap, created, inBatch, canceling, cancelled)
    requires a in heap && heap[a].repeat && Active(heap, a) !in canceling
    ensures CancelledOk(heap[a := heap[a].(expiration := when)], created, inBatch - {a}, canceling, cancelled)
  {
  }

  lemma RestartKeepsHistory(s: State, a: Address, ran: set<Address>, inBatch: set<Address>)
    requires a in s.heap && Reschedules(s, a) && Sequenced(s.heap, s.created, s.freed)
    requires FiredLive(s.heap, ran, s.fired)
    requires CancelledOk(s.heap, s.created, inBatch, s.canceling, s.cancelled)
    ensures var r := Restart(s, a);
            && Sequenced(r.heap, r.created, r.freed)
            && (RequestedOk(s.heap, s.created, s.requested, s.fired) ==> RequestedOk(r.heap, s.created, s.requested, s.fired))
            && FiredLive(r.heap, ran - {a}, r.fired)
            && CancelledOk(r.heap, r.created, inBatch - {a}, r.canceling, r.cancelled)
  {
    hide Sequenced, RequestedOk, FiredLive, CancelledOk;
    var when := s.now + s.heap[a].delta;
    RestartKeepsSequenced(s.heap, s.created, s.freed, a, when);
    RestartKeepsRequested(s.heap, s.created, s.requested, s.fired, a, when);
    RestartKeepsFired(s.heap, ran, s.fired, a, when);
    RestartKeepsCancelled(s.heap, s.created, inBatch, s.canceling, s.cancelled, a, when);
  }

  lemma KeysKeepDying(heap: Heap, heap': Heap, erasing: seq<ActiveTimer>, releasing: Option<Address>)
    requires DyingOk(heap, erasing, releasing) && heap'.Keys <= heap.Keys
    ensures DyingOk(heap', erasing, releasing)
  {
  }

  lemma RescheduleKeepsPlaces(s: State)
    requires Places(s) && s.batch != [] && s.next == |s.batch| && s.batch[0].timer in s.heap && Reschedules(s, s.batch[0].timer)
    ensures Places(ResetFirst(s))
  {
    hide Indexed, Owned, BatchOk, BatchTimers, InsertEntry;
    var a := s.batch[0].timer;
    BatchRest(s);
    RestartKeepsPlaces(s, a, BatchTimers(s.batch));
    InsertKeepsIndexed(Restart(s, a), a);
  }

  lemma RescheduleKeepsHistory(s: State)
    requires Places(s) && History(s) && s.batch != [] && s.next == |s.batch|
    requires s.batch[0].timer in s.heap && Reschedules(s, s.batch[0].timer)
    ensures History(ResetFirst(s))
  {
    hide Indexed, Owned, BatchOk, Sequenced, FiredOnce, FiredLive, RequestedOk, CancelledOk, BatchTimers, InsertEntry;
    BatchRest(s);
    RestartKeepsHistory(s, s.batch[0].timer, BatchTimers(s.batch), BatchTimers(s.batch));
  }

  lemma LateInsertKeepsArmed(s: State, a: Address)
    requires Indexed(s.heap, s.timers, s.active) && a in s.heap && Active(s.heap, a) !in s.active
    requires Reading(s) && 0 < s.heap[a].expiration && ArmedOk(s)
    ensures ArmedOk(Insert(s, a))
  {
    InsertKeepsIndexed(s, a);
    hide Indexed, InsertEntry;
  }

  /** A restarted timer does not expire at a non-positive time, for which reset would not arm. */
  lemma RescheduleKeepsArmed(s: State)
    requires Inv(s) && s.resetting && s.batch != [] && s.batch[0].timer in s.heap && Reschedules(s, s.batch[0].timer)
    ensures ArmedOk(ResetFirst(s))
  {
    hide Indexed, Owned, BatchOk, History, DyingOk, BatchTimers, Insert;
    var a := s.batch[0].timer;
    BatchRest(s);
    RestartKeepsPlaces(s, a, BatchTimers(s.batch));
    LateInsertKeepsArmed(Restart(s, a), a);
    BatchIgnored(Insert(Restart(s, a), a), ResetFirst(s));
  }

  lemma BatchIgnored(s: State, t: State)
    requires ArmedOk(s) && t == s.(batch := t.batch, next := t.next)
    ensures ArmedOk(t)
  {
  }

  lemma RescheduleFirstKeepsInv(s: State)
    requires Inv(s) && s.resetting && NoDelete(s) && s.batch != []
    requires s.batch[0].timer in s.heap && Reschedules(s, s.batch[0].timer)
    ensures Inv(ResetFirst(s))
  {
    RescheduleKeepsArmed(s);
    hide DyingOk, ArmedOk;
    KeysKeepDying(s.heap, Restart(s, s.batch[0].timer).heap, s.erasing, s.releasing);
    RescheduleKeepsPlaces(s);
    RescheduleKeepsHistory(s);
    hide Places, History, InsertEntry;
  }

  lemma ResetFirstKeepsInv(s: State)
    requires Inv(s) && s.resetting && NoDelete(s) && s.batch != []
    ensures s.batch[0].timer in s.heap && Inv(ResetFirst(s))
  {
    hide Indexed, Owned, BatchOk, Sequenced, FiredOnce, FiredLive, RequestedOk, CancelledOk, BatchTimers;
    hide ResetFirst;
    BatchRest(s);
    if Reschedules(s, s.batch[0].timer) {
      RescheduleFirstKeepsInv(s);
    } else {
      DeleteFirstKeepsInv(s);
    }
  }

  /** howMuchTimeFromNow never asks for less than 100 microseconds, and otherwise for exactly the rest. */
  lemma ResetDeadline(when: int, clock: int)
    ensures var fd := ResetTimerfd(when, clock);
            && fd.setAt == clock
            && fd.deadline == (if when - clock < 100 then clock + 100 else when)
            && var ts := HowMuchTimeFromNow(when, clock); 0 <= ts.sec && 0 <= ts.nsec < 1000000000
  {
  }

  /** The kernel timer expires at this time, but not within 100 microseconds of its arming. */
  predicate ArmedFor(fd: Timerfd, when: int, clock: int) {
    fd == Armed(if when - clock < 100 then clock + 100 else when, clock)
  }

  lemma RearmArms(s: State)
    requires Inv(s) && Enabled(s, Rearm)
    ensures var t := Apply(s, Rearm);
            if t.timers != [] && 0 < t.timers[0].when then ArmedFor(t.fd, t.timers[0].when, t.clock) else t.fd == s.fd
  {
    hide Inv;
    if s.timers != [] {
      ResetDeadline(s.timers[0].when, s.clock);
    }
    hide ResetTimerfd;
  }

  lemma AddTimerArms(s: State, a: Address)
    requires Inv(s) && Enabled(s, AddTimer(a))
    ensures var t := Apply(s, AddTimer(a));
            t.timers != []
            && if s.timers == [] || t.timers[0].when < s.timers[0].when then ArmedFor(t.fd, t.timers[0].when, t.clock)
               else t.fd == s.fd
  {
    AddTimerKeepsPlaces(s, a);
    InsertKeepsIndexed(s, a);
    ResetDeadline(s.heap[a].expiration, s.clock);
    hide Inv, Indexed, InsertEntry, ResetTimerfd;
  }

  /** Where the kernel timer is set and for when: a new earliest timer and the end of handleRead set it for the earliest
      expiration; handleRead consumes it if it has expired; and nothing else touches it. */
  lemma SetExactly(s: State, step: Step)
    requires Inv(s) && Enabled(s, step)
    ensures
      var t := Apply(s, step);
      match step
      case Rearm => if t.timers != [] && 0 < t.timers[0].when then ArmedFor(t.fd, t.timers[0].when, t.clock) else t.fd == s.fd
      case AddTimer(_) =>
        t.timers != []
        && if s.timers == [] || t.timers[0].when < s.timers[0].when then ArmedFor(t.fd, t.timers[0].when, t.clock)
           else t.fd == s.fd
      case BeginRead(readAt) => t.fd == if s.fd.Armed? && s.fd.deadline <= readAt then Disarmed else s.fd
      case _ => t.fd == s.fd
  {
    hide Inv, ArmedFor;
    match step
    case Rearm => RearmArms(s);
    case AddTimer(a) => AddTimerArms(s, a);
    case _ =>
  }

  /** A timer waiting for it is inserted, under its expiration, whatever else is scheduled. */
  lemma InsertExactly(s: State, a: Address)
    requires Inv(s) && Enabled(s, AddTimer(a))
    ensures var t := Apply(s, AddTimer(a));
            && a in t.heap && a !in t.uninserted && t.heap == s.heap
            && t.active == s.active + {Active(t.heap, a)}
            && (forall e :: e in t.timers <==> e in s.timers || e == Entry(t.heap[a].expiration, a))
  {
    AddTimerKeepsPlaces(s, a);
    InsertEntryKeepsSet(s.timers, ScheduledEntry(s.heap, a));
    hide Owned, BatchOk, History, DyingOk, ArmedOk, InsertEntry, Sorted;
  }

  /** What reset does with the next timer of the batch: one that repeats and is not marked is scheduled again, its interval
      after the time the batch was taken; any other is deleted. */
  lemma ResetExactly(s: State)
    requires Inv(s) && Enabled(s, ResetNext)
    ensures s.batch[0].timer in s.heap
    ensures var a, t := s.batch[0].timer, Apply(s, ResetNext);
            var timer := s.heap[a];
            && t.batch == s.batch[1..]
            && if timer.repeat && Active(s.heap, a) !in s.canceling then
                 && t.heap == s.heap[a := timer.(expiration := s.now + timer.delta)] && t.freed == s.freed
                 && Active(t.heap, a) in t.active && Entry(s.now + timer.delta, a) in t.timers
               else
                 t.heap == s.heap - {a} && t.freed == s.freed + [timer.sequence] && t.timers == s.timers && t.active == s.active
  {
    hide Inv, InsertEntry;
    BatchIsLive(s, 0);
    InsertsEntry(s.timers, Entry(s.now + s.heap[s.batch[0].timer].delta, s.batch[0].timer));
  }

  lemma {:induction false} InsertsEntry(s: seq<Entry>, e: Entry)
    ensures e in InsertEntry(s, e)
  {
    if s == [] || Before(e, s[0]) {
    } else {
      InsertsEntry(s[1..], e);
    }
  }

  /** The marks are those of the cancels made in the callbacks of the batch now firing that found no scheduled timer. */
  lemma MarksExactly(s: State, step: Step)
    requires Inv(s) && Enabled(s, step)
    ensures Apply(s, step).canceling ==
            if step.BeginRead? then {}
            else if step.Cancel? && s.calling && step.id !in s.active then s.canceling + {step.id}
            else s.canceling
  {
    hide Inv;
  }

  lemma RearmKeepsInv(s: State)
    requires Inv(s) && Enabled(s, Rearm)
    ensures Inv(Apply(s, Rearm))
  {
    hide Indexed, Owned, BatchOk, Sequenced, FiredOnce, FiredLive, RequestedOk, CancelledOk, BatchTimers, DyingOk;
    if s.timers != [] {
      ResetDeadline(s.timers[0].when, s.clock);
    }
  }

  /** The steps that only move control. */
  lemma ControlKeepsInv(s: State, step: Step)
    requires Inv(s) && Enabled(s, step) && (step.Erased? || step.EndCallbacks? || step.Released?)
    ensures Inv(Apply(s, step))
  {
    hide Indexed, Owned, BatchOk, Sequenced, FiredOnce, FiredLive, RequestedOk, CancelledOk, BatchTimers;
  }

  /** The invariant is kept by every step, whatever callbacks and other threads do. */
  lemma StepKeepsInv(s: State, step: Step)
    requires Inv(s) && Enabled(s, step)
    ensures Inv(Apply(s, step))
  {
    hide Inv;
    match step
    case Tick(to) => TickKeepsInv(s, to);
    case NewTimer(a, when, repeat, delta) => NewTimerKeepsInv(s, a, when, repeat, delta);
    case AddTimer(a) => AddTimerKeepsInv(s, a);
    case Cancel(id) => CancelKeepsInv(s, id);
    case BeginRead(readAt) => StartKeepsInv(s, readAt);
    case RunTimer => RunKeepsInv(s);
    case ResetNext => ResetFirstKeepsInv(s);
    case Rearm => RearmKeepsInv(s);
    case _ => ControlKeepsInv(s, step);
  }

  lemma EmptyInv()
    ensures Inv(EMPTY)
  {
  }

  // ---- Runs ----

  ghost predicate Legal(s: State, steps: seq<Step>)
    requires Inv(s)
    decreases |steps|
  {
    steps == [] || (Enabled(s, steps[0]) && (StepKeepsInv(s, steps[0]); Legal(Apply(s, steps[0]), steps[1..])))
  }

  /** The state after a run; its postcondition is the safety of every run. */
  ghost function Run(s: State, steps: seq<Step>): (s': State)
    requires Inv(s) && Legal(s, steps)
    ensures Inv(s')
    decreases |steps|
  {
    if steps == [] then s else
      StepKeepsInv(s, steps[0]);
      Run(Apply(s, steps[0]), steps[1..])
  }

  // ---- No timer is lost ----

  ghost predicate Live(heap: Heap, sequence: int) {
    exists a :: a in heap && heap[a].sequence == sequence
  }

  /** Every timer ever created is live or was deleted. */
  ghost predicate Accounted(heap: Heap, created: nat, freed: seq<int>) {
    forall q: int :: 1 <= q <= created ==> q in freed || Live(heap, q)
  }

  lemma CreateAccounts(heap: Heap, created: nat, freed: seq<int>, a: Address, timer: Timer)
    requires Accounted(heap, created, freed) && a !in heap && timer.sequence == created + 1
    ensures Accounted(heap[a := timer], created + 1, freed)
  {
    var heap' := heap[a := timer];
    assert heap'[a].sequence == created + 1;
    forall q: int | 1 <= q <= created + 1
      ensures q in freed || Live(heap', q)
    {
      if q <= created && q !in freed {
        var b :| b in heap && heap[b].sequence == q;
        assert b in heap' && heap'[b].sequence == q;
      }
    }
  }

  lemma DeleteAccounts(heap: Heap, created: nat, freed: seq<int>, a: Address)
    requires Accounted(heap, created, freed) && a in heap
    ensures Accounted(heap - {a}, created, freed + [heap[a].sequence])
  {
    forall q: int | 1 <= q <= created
      ensures q in freed + [heap[a].sequence] || Live(heap - {a}, q)
    {
      if q !in freed {
        var b :| b in heap && heap[b].sequence == q;
        if b != a {
          assert b in heap - {a} && (heap - {a})[b].sequence == q;
        }
      }
    }
  }

  lemma RestartAccounts(heap: Heap, created: nat, freed: seq<int>, a: Address, timer: Timer)
    requires Accounted(heap, created, freed) && a in heap && timer.sequence == heap[a].sequence
    ensures Accounted(heap[a := timer], created, freed)
  {
    var heap' := heap[a := timer];
    forall q: int | 1 <= q <= created
      ensures q in freed || Live(heap', q)
    {
      if q !in freed {
        var b :| b in heap && heap[b].sequence == q;
        assert b in heap' && heap'[b].sequence == q;
      }
    }
  }

  lemma StepAccounts(s: State, step: Step)
    requires Inv(s) && Enabled(s, step) && Accounted(s.heap, s.created, s.freed)
    ensures var t := Apply(s, step); Accounted(t.heap, t.created, t.freed)
  {
    hide Accounted, InsertEntry, EraseEntry, Expired, Sorted;
    hide Owned, BatchOk, Sequenced, FiredOnce, FiredLive, RequestedOk, CancelledOk, BatchTimers;
    match step
    case NewTimer(a, when, repeat, delta) => CreateAccounts(s.heap, s.created, s.freed, a, Timer(when, repeat, delta, s.created + 1));
    case Cancel(id) =>
      if id in s.active {
        ActiveIsLive(s, id);
        DeleteAccounts(s.heap, s.created, s.freed, id.timer);
      }
    case ResetNext =>
      BatchIsLive(s, 0);
      var a := s.batch[0].timer;
      DeleteAccounts(s.heap, s.created, s.freed, a);
      RestartAccounts(s.heap, s.created, s.freed, a, s.heap[a].(expiration := s.now + s.heap[a].delta));
    case _ =>
  }

  lemma {:induction false} RunAccounts(s: State, steps: seq<Step>)
    requires Inv(s) && Legal(s, steps) && Accounted(s.heap, s.created, s.freed)
    ensures var t := Run(s, steps); Accounted(t.heap, t.created, t.freed)
    decreases |steps|
  {
    hide Inv, Apply, Enabled, Accounted;
    if steps == [] {
    } else {
      StepKeepsInv(s, steps[0]);
      StepAccounts(s, steps[0]);
      RunAccounts(Apply(s, steps[0]), steps[1..]);
    }
  }

  lemma LiveOrDeleted(s: State)
    requires Inv(s) && Accounted(s.heap, s.created, s.freed)
    ensures forall q: int :: 1 <= q <= s.created ==> (q in s.freed) != Live(s.heap, q)
  {
    hide Indexed, Owned, BatchOk, FiredOnce, FiredLive, RequestedOk, CancelledOk, BatchTimers;
  }

  lemma OnePlace(s: State, a: Address)
    requires Inv(s) && a in s.heap
    ensures multiset([a in s.uninserted, ScheduledEntry(s.heap, a) in s.timers, a in BatchTimers(s.batch)])[true] == 1
    ensures Active(s.heap, a) in s.active <==> ScheduledEntry(s.heap, a) in s.timers
    ensures s.heap[a].sequence !in s.freed
  {
    hide BatchTimers, BatchOk, FiredOnce, FiredLive, RequestedOk, CancelledOk, Sorted, DyingOk;
  }

  lemma OnePlaceEach(s: State)
    requires Inv(s)
    ensures forall a :: a in s.heap ==>
              && multiset([a in s.uninserted, ScheduledEntry(s.heap, a) in s.timers, a in BatchTimers(s.batch)])[true] == 1
              && (Active(s.heap, a) in s.active <==> ScheduledEntry(s.heap, a) in s.timers)
              && s.heap[a].sequence !in s.freed
  {
    hide Inv, BatchTimers;
    forall a | a in s.heap
      ensures multiset([a in s.uninserted, ScheduledEntry(s.heap, a) in s.timers, a in BatchTimers(s.batch)])[true] == 1
      ensures Active(s.heap, a) in s.active <==> ScheduledEntry(s.heap, a) in s.timers
      ensures s.heap[a].sequence !in s.freed
    {
      OnePlace(s, a);
    }
  }

  lemma HistoryIsSafe(s: State)
    requires Inv(s)
    ensures forall i, j :: 0 <= i < j < |s.freed| ==> s.freed[i] != s.freed[j]
    ensures forall f :: f in s.fired ==> f.when <= f.at
    ensures forall i, j :: 0 <= i < j < |s.fired| && s.fired[i].sequence == s.fired[j].sequence ==> s.fired[i].repeat
    ensures forall f :: f in s.fired && !f.repeat ==> f.sequence in s.requested && s.requested[f.sequence] == f.when <= f.at
  {
    hide Indexed, Owned, BatchTimers, BatchOk, FiredLive, CancelledOk;
  }

  /** Timers over all runs: each live one is in exactly one place, its sequence number was never deleted; every
      other one ever created was deleted, once (from a start where that is so, as it is of the empty queue);
      callbacks were never early; and one-shot ones never ran twice. */
  lemma EveryRunIsSafe(start: State, steps: seq<Step>)
    requires Inv(start) && Legal(start, steps)
    ensures
      var s := Run(start, steps);
      && (forall a :: a in s.heap ==>
            && multiset([a in s.uninserted, ScheduledEntry(s.heap, a) in s.timers, a in BatchTimers(s.batch)])[true] == 1
            && (Active(s.heap, a) in s.active <==> ScheduledEntry(s.heap, a) in s.timers)
            && s.heap[a].sequence !in s.freed)
      && (forall i, j :: 0 <= i < j < |s.freed| ==> s.freed[i] != s.freed[j])
      && (Accounted(start.heap, start.created, start.freed) ==>
            forall q: int :: 1 <= q <= s.created ==> (q in s.freed) != Live(s.heap, q))
      && (forall f :: f in s.fired ==> f.when <= f.at)
      && (forall i, j :: 0 <= i < j < |s.fired| && s.fired[i].sequence == s.fired[j].sequence ==> s.fired[i].repeat)
      && (forall f :: f in s.fired && !f.repeat ==> f.sequence in s.requested && s.requested[f.sequence] == f.when <= f.at)
      && (!Reading(s) ==> ArmedInTime(s))
  {
    hide Run, Legal, Indexed, Owned, BatchOk, Sequenced, FiredOnce, FiredLive, RequestedOk, CancelledOk, BatchTimers, Accounted, ArmedInTime;
    OnePlaceEach(Run(start, steps));
    HistoryIsSafe(Run(start, steps));
    if Accounted(start.heap, start.created, start.freed) {
      RunAccounts(start, steps);
      LiveOrDeleted(Run(start, steps));
    }
  }

  /** From the empty queue every timer created is live or deleted, never both. */
  lemma NoTimerIsLost(steps: seq<Step>)
    requires Inv(EMPTY) && Legal(EMPTY, steps)
    ensures var s := Run(EMPTY, steps); forall q: int :: 1 <= q <= s.created ==> (q in s.freed) != Live(s.heap, q)
  {
    hide Inv, Legal, Run;
    RunAccounts(EMPTY, steps);
    LiveOrDeleted(Run(EMPTY, steps));
  }

  /** The assertions on sizes in the source. */
  lemma {:induction false} SameSize(heap: Heap, timers: seq<Entry>, active: set<ActiveTimer>)
    requires Indexed(heap, timers, active)
    ensures |timers| == |active|
    decreases |timers|
  {
    if timers == [] {
      assert active == {};
    } else {
      TakeKeepsIndexed(heap, timers, active, 1);
      var taken := ActivesOf(heap, timers[..1]);
      assert taken == {Active(heap, timers[0].timer)} && timers[0] in timers;
      SameSize(heap, timers[1..], active - taken);
    }
  }

  // ---- Cancellation ----

  function Count(fired: seq<Firing>, sequence: int): nat {
    if fired == [] then 0
    else Count(fired[..|fired| - 1], sequence) + if fired[|fired| - 1].sequence == sequence then 1 else 0
  }

  /** The timer's turn in the batch now firing is still to come. */
  ghost predicate TurnToCome(s: State, sequence: int) {
    exists i :: s.next <= i < |s.batch| && s.batch[i].timer in s.heap && s.heap[s.batch[i].timer].sequence == sequence
  }

  ghost function RunsLeft(s: State, sequence: int): nat {
    Count(s.fired, sequence) + if TurnToCome(s, sequence) then 1 else 0
  }

  ghost predicate IsScheduled(s: State, sequence: int) {
    exists t :: t in s.active && t.sequence == sequence
  }

  /** A cancel that finds its timer inserted is recorded, and a scheduled timer is deleted at once, unless the
      cancel is lost: made while reset's loop runs, on a repeating timer that reset has still to come to and that no
      earlier cancel marked. */
  lemma CancelMarks(s: State, id: ActiveTimer)
    requires Inv(s) && (id in s.active || InBatch(s, id))
    ensures var s' := CancelInLoop(s, id);
            && (Lost(s, id) ==> s' == s)
            && (!Lost(s, id) ==> id.sequence in s'.cancelled)
            && (id in s.active ==> id.sequence in s'.freed && id.timer !in s'.heap)
            && s'.fired == s.fired && RunsLeft(s', id.sequence) <= RunsLeft(s, id.sequence)
  {
    assert InBatch(s, id) ==> Reading(s);
    hide BatchOk, Sequenced, FiredOnce, FiredLive, RequestedOk, CancelledOk, EraseEntry, Sorted;
  }

  lemma CancelledNotScheduled(s: State, c: int)
    requires Inv(s) && c in s.cancelled
    ensures !IsScheduled(s, c) && c <= s.created
  {
    hide BatchTimers, Sequenced, FiredOnce, FiredLive, Sorted;
  }

  lemma RunNextRunsLeft(s: State, c: int)
    requires Inv(s) && s.calling && s.next < |s.batch|
    ensures s.batch[s.next].timer in s.heap && RunsLeft(RunNext(s), c) == RunsLeft(s, c)
  {
    hide BatchTimers, FiredOnce, FiredLive, RequestedOk, CancelledOk, Owned, Indexed;
    var s' := RunNext(s);
    assert s'.fired[..|s.fired|] == s.fired;
    var a := s.batch[s.next].timer;
    if s.heap[a].sequence == c {
      assert TurnToCome(s, c);
      assert forall i :: s.next < i < |s.batch| ==> s.batch[i].timer != a;
      assert !TurnToCome(s', c);
    } else {
      assert TurnToCome(s, c) <==> TurnToCome(s', c);
    }
  }

  lemma BatchWasActive(s: State, readAt: int, c: int)
    requires Inv(s) && !Reading(s) && c in s.cancelled
    ensures !TurnToCome(StartReading(s, readAt), c)
  {
    CancelledNotScheduled(s, c);
    ExpiredSplits(s.timers, s.clock);
    var s' := StartReading(s, readAt);
    forall i | 0 <= i < |s'.batch| ensures s'.batch[i] in s.timers {}
    hide BatchTimers, Owned, BatchOk, Sequenced, FiredOnce, FiredLive, RequestedOk, CancelledOk;
  }

  /** The steps other than those of handleRead itself. */
  lemma CallbackRunsLeft(s: State, step: Step, c: int)
    requires Inv(s) && Enabled(s, step) && c in s.cancelled
    requires step.Tick? || step.NewTimer? || step.AddTimer? || step.Cancel?
             || step.Erased? || step.EndCallbacks? || step.Released? || step.Rearm?
    ensures c in Apply(s, step).cancelled && RunsLeft(Apply(s, step), c) <= RunsLeft(s, c)
  {
    CancelledNotScheduled(s, c);
    hide BatchTimers, Owned, Indexed, BatchOk, Sequenced, FiredOnce, FiredLive, RequestedOk, CancelledOk, InsertEntry, EraseEntry;
  }

  lemma ResetNextRunsLeft(s: State, c: int)
    requires Inv(s) && Enabled(s, ResetNext) && c in s.cancelled
    ensures c in Apply(s, ResetNext).cancelled && RunsLeft(Apply(s, ResetNext), c) <= RunsLeft(s, c)
  {
    hide BatchTimers, Owned, Indexed, BatchOk, Sequenced, FiredOnce, FiredLive, RequestedOk, CancelledOk, InsertEntry;
    BatchIsLive(s, 0);
    var t := Apply(s, ResetNext);
    assert t.next == |t.batch|;
  }

  /** No step schedules a cancelled timer or gives it another run. */
  lemma CancelledStep(s: State, step: Step, c: int)
    requires Inv(s) && Enabled(s, step) && c in s.cancelled
    ensures var s' := Apply(s, step);
            c in s'.cancelled && !IsScheduled(s', c) && RunsLeft(s', c) <= RunsLeft(s, c)
  {
    hide Indexed, Owned, BatchOk, Sequenced, FiredOnce, FiredLive, RequestedOk, CancelledOk, BatchTimers;
    StepKeepsInv(s, step);
    match step {
      case ResetNext => ResetNextRunsLeft(s, c);
      case RunTimer => RunNextRunsLeft(s, c);
      case BeginRead(readAt) => BatchWasActive(s, readAt, c);
      case _ => CallbackRunsLeft(s, step, c);
    }
    CancelledNotScheduled(Apply(s, step), c);
  }

  /** Once cancelled, over every later run, a timer is never scheduled again; it runs at most once more, and
      only if its turn in the batch firing at that moment was still to come. */
  lemma {:induction false} CancelledRun(s: State, steps: seq<Step>, c: int)
    requires Inv(s) && Legal(s, steps) && c in s.cancelled
    ensures var s' := Run(s, steps);
            && c in s'.cancelled && !IsScheduled(s', c)
            && Count(s'.fired, c) <= Count(s.fired, c) + if TurnToCome(s, c) then 1 else 0
    ensures RunsLeft(Run(s, steps), c) <= RunsLeft(s, c)
    decreases |steps|
  {
    hide Inv, Apply, Enabled, IsScheduled, TurnToCome;
    CancelledNotScheduled(s, c);
    if steps == [] {
    } else {
      StepKeepsInv(s, steps[0]);
      CancelledStep(s, steps[0], c);
      CancelledRun(Apply(s, steps[0]), steps[1..], c);
    }
  }

  // ---- Cancels that are lost ----

  /** The cancel meets reset before reset has come to its timer: the flag is off already, so that nothing marks it. */
  predicate Lost(s: State, id: ActiveTimer) {
    s.resetting && InBatch(s, id) && Reschedules(s, id.timer)
  }

  lemma LostOthers(s: State, step: Step, id: ActiveTimer)
    requires Inv(s) && Enabled(s, step) && Lost(s, id) && !step.ResetNext? && !step.Cancel?
    ensures Lost(Apply(s, step), id)
  {
    hide Owned, Indexed, Sequenced, FiredOnce, FiredLive, RequestedOk, CancelledOk, BatchOk, InsertEntry;
    assert s.batch != [];
  }

  lemma LostCancel(s: State, other: ActiveTimer, id: ActiveTimer)
    requires Inv(s) && Lost(s, id)
    ensures Lost(CancelInLoop(s, other), id)
  {
    hide Sequenced, FiredOnce, FiredLive, RequestedOk, CancelledOk, BatchOk, BatchTimers, EraseEntry, Sorted;
    if other in s.active {
      CancelActiveKeepsPlaces(s, other);
    }
  }

  lemma LostResetNext(s: State, id: ActiveTimer)
    requires Inv(s) && Enabled(s, ResetNext) && Lost(s, id)
    ensures var t := Apply(s, ResetNext); if s.batch[0].timer == id.timer then id in t.active else Lost(t, id)
  {
    hide Owned, Indexed, Sequenced, FiredOnce, FiredLive, RequestedOk, CancelledOk, BatchOk, BatchTimers, InsertEntry;
    BatchIsLive(s, 0);
    BatchRest(s);
  }

  /** Until its turn comes the timer stays so, whatever else happens, and at its turn it is scheduled again. */
  lemma LostStep(s: State, step: Step, id: ActiveTimer)
    requires Inv(s) && Enabled(s, step) && Lost(s, id)
    ensures var t := Apply(s, step); Lost(t, id) || (step.ResetNext? && s.batch[0].timer == id.timer && id in t.active)
  {
    hide Inv, Lost, CancelInLoop, ResetFirst;
    match step
    case Cancel(other) => LostCancel(s, other, id);
    case ResetNext => LostResetNext(s, id);
    case _ => LostOthers(s, step, id);
  }

  /** Over every run from a lost cancel: reset has not come to the timer yet, or has scheduled it again. */
  lemma {:induction false} LostRun(s: State, steps: seq<Step>, id: ActiveTimer) returns (k: nat)
    requires Inv(s) && Legal(s, steps) && Lost(s, id)
    ensures k <= |steps| && Legal(s, steps[..k])
    ensures if k == |steps| then Lost(Run(s, steps), id) || id in Run(s, steps).active else id in Run(s, steps[..k]).active
    decreases |steps|
  {
    hide Inv, Apply, Enabled, Lost;
    if steps == [] {
      k := 0;
    } else {
      StepKeepsInv(s, steps[0]);
      LostStep(s, steps[0], id);
      var t := Apply(s, steps[0]);
      if Lost(t, id) {
        k := LostRun(t, steps[1..], id);
        k := k + 1;
        assert steps[..k][1..] == steps[1..][..k - 1];
      } else {
        k := 1;
        assert steps[..1] == [steps[0]] && steps[..1][1..] == [];
        assert steps[1..] == [] ==> steps == steps[..1];
      }
    }
  }

  /** Some run does come to it. */
  lemma {:induction false} TurnComes(s: State, id: ActiveTimer, i: nat) returns (steps: seq<Step>)
    requires Inv(s) && Lost(s, id) && i < |s.batch| && s.batch[i].timer == id.timer
    ensures Legal(s, steps) && id in Run(s, steps).active
    decreases i, |s.erasing|, s.releasing.Some?
  {
    assert s.resetting;
    MayTurn(s);
    hide Inv, Apply, Enabled, Lost;
    var step := if s.erasing != [] then Erased else if s.releasing.Some? then Released else ResetNext;
    StepKeepsInv(s, step);
    LostStep(s, step, id);
    var t := Apply(s, step);
    TurnNearer(s, step, id, i);
    if id in t.active {
      steps := [step];
      assert steps[1..] == [];
    } else {
      var j := if step.ResetNext? then i - 1 else i;
      var rest := TurnComes(t, id, j);
      steps := [step] + rest;
      assert steps[1..] == rest;
    }
  }

  /** In reset, control can go on. */
  lemma MayTurn(s: State)
    requires Inv(s) && s.resetting && s.batch != []
    ensures Enabled(s, if s.erasing != [] then Erased else if s.releasing.Some? then Released else ResetNext)
  {
  }

  lemma TurnNearer(s: State, step: Step, id: ActiveTimer, i: nat)
    requires Inv(s) && Enabled(s, step) && Lost(s, id) && i < |s.batch| && s.batch[i].timer == id.timer
    requires step == if s.erasing != [] then Erased else if s.releasing.Some? then Released else ResetNext
    ensures var t := Apply(s, step);
            if step.ResetNext? then
              if i == 0 then id in t.active else i - 1 < |t.batch| && t.batch[i - 1].timer == id.timer
            else
              t.batch == s.batch && (if step.Erased? then |t.erasing| < |s.erasing| else t.erasing == s.erasing && t.releasing.None?)
  {
    hide Owned, Indexed, Sequenced, FiredOnce, FiredLive, RequestedOk, CancelledOk, InsertEntry, EraseEntry;
  }

  /** A cancel of an inserted timer fails to keep it from being scheduled again if and only if it is lost. */
  lemma CancelLostExactly(s: State, id: ActiveTimer)
    requires Inv(s) && Enabled(s, Cancel(id)) && (id in s.active || InBatch(s, id))
    ensures var t := Apply(s, Cancel(id));
            Inv(t) && (Lost(s, id) <==> exists steps :: Reschedule(t, steps, id))
  {
    StepKeepsInv(s, Cancel(id));
    CancelMarks(s, id);
    var t := Apply(s, Cancel(id));
    hide Inv, Apply, Enabled, Lost, CancelInLoop;
    if Lost(s, id) {
      var i := BatchIndex(s, id);
      var steps := TurnComes(s, id, i);
      assert Reschedule(t, steps, id);
    } else {
      forall steps
        ensures !Reschedule(t, steps, id)
      {
        CancelledStaysOut(t, steps, id);
      }
    }
  }

  lemma CancelledStaysOut(s: State, steps: seq<Step>, id: ActiveTimer)
    requires Inv(s) && id.sequence in s.cancelled
    ensures !Reschedule(s, steps, id)
  {
    if Legal(s, steps) {
      CancelledRun(s, steps, id.sequence);
      UnscheduledInactive(Run(s, steps), id);
    }
  }

  lemma UnscheduledInactive(s: State, id: ActiveTimer)
    ensures !IsScheduled(s, id.sequence) ==> id !in s.active
  {
  }

  ghost predicate Reschedule(s: State, steps: seq<Step>, id: ActiveTimer)
    requires Inv(s)
  {
    Legal(s, steps) && id in Run(s, steps).active
  }

  lemma BatchIndex(s: State, id: ActiveTimer) returns (i: nat)
    requires Lost(s, id)
    ensures i < |s.batch| && s.batch[i].timer == id.timer
  {
    i :| 0 <= i < |s.batch| && s.batch[i].timer == id.timer;
  }

  // ---- The assertions ----

  /** activeTimers_ as the source has it: a timer being erased is still in it. */
  function ActiveTimers(s: State): set<ActiveTimer> {
    s.active + Members(s.erasing)
  }

  /** timers_.size() == activeTimers_.size() */
  predicate SizesEqual(s: State) {
    |s.timers| == |ActiveTimers(s)|
  }

  /** The assertions on sizes that a step meets: at the head of cancelInLoop, insert and getExpired, and at the end
      of cancelInLoop. */
  ghost predicate Asserts(s: State, step: Step)
    requires Inv(s) && Enabled(s, step)
  {
    match step
    case Cancel(_) => SizesEqual(s)
    case AddTimer(_) => SizesEqual(s)
    case BeginRead(_) => SizesEqual(s)
    case ResetNext => SizesEqual(s)
    case Erased => SizesEqual(Apply(s, step))
    case _ => true
  }

  function Members(erasing: seq<ActiveTimer>): set<ActiveTimer> {
    set i | 0 <= i < |erasing| :: erasing[i]
  }

  lemma MembersSnoc(init: seq<ActiveTimer>, last: ActiveTimer)
    ensures Members(init + [last]) == Members(init) + {last}
  {
    forall id: ActiveTimer
      ensures id in Members(init + [last]) <==> id in Members(init) || id == last
    {
      InMembers(init + [last], id);
      InMembers(init, id);
    }
  }

  lemma InMembers(erasing: seq<ActiveTimer>, id: ActiveTimer)
    ensures id in Members(erasing) <==> id in erasing
  {
  }

  lemma {:induction false} ErasingSize(active: set<ActiveTimer>, erasing: seq<ActiveTimer>)
    requires forall i :: 0 <= i < |erasing| ==> erasing[i] !in active
    requires forall i, j :: 0 <= i < j < |erasing| ==> erasing[i] != erasing[j]
    ensures |active + Members(erasing)| == |active| + |erasing|
  {
    if erasing == [] {
      assert active + Members(erasing) == active;
    } else {
      hide Members;
      var init, last := erasing[..|erasing| - 1], erasing[|erasing| - 1];
      assert forall i :: 0 <= i < |init| ==> init[i] == erasing[i];
      ErasingSize(active, init);
      assert erasing == init + [last];
      MembersSnoc(init, last);
      InMembers(init, last);
      assert active + Members(erasing) == (active + Members(init)) + {last};
    }
  }

  /** activeTimers_ has one member more than timers_ for each cancel under way. */
  lemma SizesDiffer(s: State)
    requires Inv(s)
    ensures |ActiveTimers(s)| == |s.timers| + |s.erasing|
  {
    hide Owned, BatchOk, Sequenced, FiredOnce, FiredLive, RequestedOk, CancelledOk, BatchTimers;
    SameSize(s.heap, s.timers, s.active);
    ErasingSize(s.active, s.erasing);
  }

  /** No cancel or insertion is made from the destructor of a timer that cancelInLoop is deleting. */
  ghost predicate NoReentry(s: State, steps: seq<Step>)
    requires Inv(s) && Legal(s, steps)
    decreases |steps|
  {
    steps == [] ||
    ((s.erasing != [] ==> !steps[0].Cancel? && !steps[0].AddTimer?)
     && (StepKeepsInv(s, steps[0]); NoReentry(Apply(s, steps[0]), steps[1..])))
  }

  ghost predicate AllAssert(s: State, steps: seq<Step>)
    requires Inv(s) && Legal(s, steps)
    decreases |steps|
  {
    steps == [] || (Asserts(s, steps[0]) && (StepKeepsInv(s, steps[0]); AllAssert(Apply(s, steps[0]), steps[1..])))
  }

  lemma CancelsUnderWay(s: State, step: Step)
    requires Inv(s) && Enabled(s, step)
    ensures |Apply(s, step).erasing| <= if step.Cancel? then |s.erasing| + 1 else |s.erasing|
    ensures step.Erased? ==> |Apply(s, step).erasing| == |s.erasing| - 1
  {
    hide Owned, BatchOk, Sequenced, FiredOnce, FiredLive, RequestedOk, CancelledOk, BatchTimers, InsertEntry, EraseEntry, Sorted;
  }

  lemma AssertsExactly(s: State, step: Step)
    requires Inv(s) && Enabled(s, step) && |s.erasing| <= 1
    ensures Asserts(s, step) <==> (s.erasing != [] ==> !step.Cancel? && !step.AddTimer?)
    ensures Asserts(s, step) ==> |Apply(s, step).erasing| <= 1
  {
    StepKeepsInv(s, step);
    CancelsUnderWay(s, step);
    hide Inv, ActiveTimers, Apply;
    SizesDiffer(s);
    SizesDiffer(Apply(s, step));
  }

  /** The assertions hold throughout a run if and only if no destructor run by cancelInLoop's delete makes a cancel
      or adds a timer. */
  lemma {:induction false} AssertionsExactly(s: State, steps: seq<Step>)
    requires Inv(s) && Legal(s, steps) && |s.erasing| <= 1
    ensures AllAssert(s, steps) <==> NoReentry(s, steps)
    decreases |steps|
  {
    hide Inv, Apply, Enabled, Asserts;
    if steps == [] {
    } else {
      StepKeepsInv(s, steps[0]);
      AssertsExactly(s, steps[0]);
      if Asserts(s, steps[0]) {
        AssertionsExactly(Apply(s, steps[0]), steps[1..]);
      }
    }
  }

  /** A cancel finds its id in activeTimers_ and the timer deleted already if and only if a cancel of that id is under
      way: made from the timer's own destructor, it deletes the timer a second time. */
  lemma SecondDeleteExactly(s: State, id: ActiveTimer)
    requires Inv(s) && Callable(s, Cancel(id))
    ensures id in ActiveTimers(s) && id.timer !in s.heap <==> !Enabled(s, Cancel(id))
  {
    hide Owned, BatchOk, History, BatchTimers, Members;
    InMembers(s.erasing, id);
  }

  /** A stale id, whose sequence number is not that of the timer now at its address, leaves every live timer
      alone: nothing is deleted or unscheduled, and no later reset treats any live timer differently. */
  lemma StaleCancel(s: State, id: ActiveTimer)
    requires Inv(s) && (id.timer in s.heap ==> s.heap[id.timer].sequence != id.sequence)
    ensures var s' := CancelInLoop(s, id);
            && s' == s.(canceling := s'.canceling)
            && forall a :: a in s.heap ==> (Reschedules(s', a) <==> Reschedules(s, a))
  {
  }

  lemma ActiveIsLive(s: State, id: ActiveTimer)
    requires Inv(s) && id in s.active
    ensures id.timer in s.heap && id == Active(s.heap, id.timer)
  {
  }

  /** A timer waiting for addTimerInLoop is live, and no cancel is erasing it. */
  lemma UninsertedIsLive(s: State, a: Address)
    requires Inv(s) && a in s.uninserted
    ensures a in s.heap && Active(s.heap, a) !in s.active && Active(s.heap, a) !in s.erasing
  {
  }

  /** A timer is not being erased twice. */
  lemma CancelsApart(s: State)
    requires Inv(s) && s.erasing != []
    ensures s.erasing[|s.erasing| - 1] !in s.erasing[..|s.erasing| - 1] && s.erasing[|s.erasing| - 1] !in s.active
  {
  }

  /** A timer of the batch is live, and neither index holds it. */
  lemma FirstOfBatch(s: State)
    requires Inv(s) && s.batch != []
    ensures s.batch[0].timer in s.heap && Active(s.heap, s.batch[0].timer) !in s.erasing
  {
    BatchIsLive(s, 0);
  }

  lemma FirstIsLive(s: State)
    requires Inv(s) && s.timers != []
    ensures s.timers[0].timer in s.heap && s.timers[0] == ScheduledEntry(s.heap, s.timers[0].timer)
  {
  }

  lemma BatchIsLive(s: State, i: nat)
    requires Inv(s) && i < |s.batch|
    ensures s.batch[i].timer in s.heap && s.batch[i] == ScheduledEntry(s.heap, s.batch[i].timer) && s.batch[i].when <= s.now
  {
  }

  /** handleRead fires exactly the timers whose expiration has come, in order of expiration. */
  lemma BatchIsDue(s: State, readAt: int)
    requires Inv(s) && !Reading(s) && NoDelete(s) && s.clock <= readAt
    ensures var s' := StartReading(s, readAt);
            && s.timers == s'.batch + s'.timers
            && (forall i :: 0 <= i < |s'.batch| ==> s'.batch[i].when <= s.clock)
            && (forall i :: 0 <= i < |s'.timers| ==> s.clock < s'.timers[i].when)
            && Sorted(s'.batch)
  {
    DueAndLater(s.timers, s.clock);
    var k := Expired(s.timers, s.clock);
    hide Inv, Indexed, Expired, Before, ActivesOf;
    assert StartReading(s, readAt).timers == s.timers[k..] && StartReading(s, readAt).batch == s.timers[..k];
  }

  lemma DueAndLater(timers: seq<Entry>, now: int)
    requires Sorted(timers) && forall e :: e in timers ==> e.timer < ADDRESS_MAX
    ensures var k := Expired(timers, now);
            && k <= |timers| && timers == timers[..k] + timers[k..] && Sorted(timers[..k])
            && (forall i :: 0 <= i < k ==> timers[..k][i].when <= now)
            && (forall i :: 0 <= i < |timers| - k ==> now < timers[k..][i].when)
  {
    ExpiredSplits(timers, now);
    hide Expired, Sorted;
    PrefixSorted(timers, Expired(timers, now));
    Slices(timers, Expired(timers, now), now);
  }

  lemma Slices(timers: seq<Entry>, k: nat, now: int)
    requires k <= |timers| && (forall i :: 0 <= i < k ==> timers[i].when <= now) && (forall i :: k <= i < |timers| ==> now < timers[i].when)
    ensures timers == timers[..k] + timers[k..]
    ensures forall i :: 0 <= i < k ==> timers[..k][i].when <= now
    ensures forall i :: 0 <= i < |timers| - k ==> now < timers[k..][i].when
  {
  }

  lemma PrefixSorted(timers: seq<Entry>, k: nat)
    requires Sorted(timers) && k <= |timers|
    ensures Sorted(timers[..k])
  {
    hide Before;
  }

  /** A non-repeating timer keeps the expiration it was created with, and no timer changes its identity. */
  lemma TimersKeepIdentity(s: State, step: Step, a: Address)
    requires Inv(s) && Enabled(s, step) && a in s.heap && a in Apply(s, step).heap
    ensures var t, t' := s.heap[a], Apply(s, step).heap[a];
            && t' == t.(expiration := t'.expiration)
            && (t'.expiration != t.expiration ==> t.repeat && step.ResetNext? && t'.expiration == s.now + t.delta)
  {
    hide BatchTimers, Owned, BatchOk, FiredOnce, FiredLive, RequestedOk, CancelledOk;
  }

  // ---- Runs that fail ----

  lemma RunCons(s: State, step: Step, steps: seq<Step>)
    requires Inv(s) && Enabled(s, step) && Inv(Apply(s, step)) && Legal(Apply(s, step), steps)
    ensures Legal(s, [step] + steps) && Run(s, [step] + steps) == Run(Apply(s, step), steps)
  {
    hide Inv, Apply, Enabled;
    assert ([step] + steps)[1..] == steps;
  }

  lemma {:induction false} RunConcat(s: State, steps: seq<Step>, more: seq<Step>)
    requires Inv(s) && Legal(s, steps) && Legal(Run(s, steps), more)
    ensures Legal(s, steps + more) && Run(s, steps + more) == Run(Run(s, steps), more)
    decreases |steps|
  {
    hide Inv, Apply, Enabled;
    if steps == [] {
      assert steps + more == more;
    } else {
      StepKeepsInv(s, steps[0]);
      RunConcat(Apply(s, steps[0]), steps[1..], more);
      assert (steps + more)[1..] == steps[1..] + more;
    }
  }

  /** Two steps in a row. */
  lemma RunTwo(s: State, a: Step, b: Step) returns (t: State)
    requires Inv(s) && Enabled(s, a) && Inv(Apply(s, a)) && Enabled(Apply(s, a), b)
    ensures Inv(Apply(Apply(s, a), b)) && t == Apply(Apply(s, a), b)
    ensures Legal(s, [a, b]) && Run(s, [a, b]) == t
  {
    hide Inv, Apply, Enabled;
    t := Apply(Apply(s, a), b);
    StepKeepsInv(Apply(s, a), b);
    RunCons(Apply(s, a), b, []);
    RunCons(s, a, [b]);
    assert [b] + [] == [b] && [a] + [b] == [a, b];
  }

  /** A timer is created and inserted on the loop thread, outside handleRead. */
  function Adding(a: Address, when: int, repeat: bool, delta: nat): seq<Step> {
    [NewTimer(a, when, repeat, delta), AddTimer(a)]
  }

  const ONE_SHOT := Timer(1, false, 0, 1)
  const HEARTBEAT := Timer(1, true, 10, 2)

  /** A one-shot timer at address 1 is inserted into the empty queue. */
  predicate OneTimer(s: State) {
    && s.heap == map[1 := ONE_SHOT] && s.timers == [Entry(1, 1)] && s.active == {ActiveTimer(1, 1)} && s.uninserted == {}
    && s.created == 1 && s.clock == 1 && !Reading(s) && NoDelete(s)
  }

  lemma FirstTimer() returns (s: State)
    ensures Inv(EMPTY) && Legal(EMPTY, Adding(1, 1, false, 0)) && s == Run(EMPTY, Adding(1, 1, false, 0)) && Inv(s) && OneTimer(s)
  {
    EmptyInv();
    StepKeepsInv(EMPTY, NewTimer(1, 1, false, 0));
    s := RunTwo(EMPTY, NewTimer(1, 1, false, 0), AddTimer(1));
  }

  /** Both timers are due at the same time. */
  predicate TwoTimers(s: State) {
    && s.heap == map[1 := ONE_SHOT, 2 := HEARTBEAT] && s.timers == [Entry(1, 1), Entry(1, 2)]
    && s.clock == 1 && !Reading(s) && NoDelete(s)
  }

  lemma SecondTimer(s: State) returns (t: State)
    requires Inv(s) && OneTimer(s)
    ensures Legal(s, Adding(2, 1, true, 10)) && t == Run(s, Adding(2, 1, true, 10)) && Inv(t) && TwoTimers(t)
  {
    hide Inv;
    StepKeepsInv(s, NewTimer(2, 1, true, 10));
    t := RunTwo(s, NewTimer(2, 1, true, 10), AddTimer(2));
    hide Apply;
    InsertsBehind(Apply(s, NewTimer(2, 1, true, 10)));
  }

  lemma InsertsBehind(s: State)
    requires s.heap == map[1 := ONE_SHOT, 2 := HEARTBEAT] && s.timers == [Entry(1, 1)]
    ensures AddTimerInLoop(s, 2).timers == [Entry(1, 1), Entry(1, 2)]
  {
    assert InsertEntry([], Entry(1, 2)) == [Entry(1, 2)] && [Entry(1, 1)][1..] == [];
  }

  /** Both callbacks have run and reset is about to start. */
  predicate BothDue(s: State) {
    && s.heap == map[1 := ONE_SHOT, 2 := HEARTBEAT] && s.resetting && NoDelete(s) && s.canceling == {}
    && s.batch == [Entry(1, 1), Entry(1, 2)]
  }

  const READING: seq<Step> := [BeginRead(1), RunTimer] + [RunTimer, EndCallbacks]

  lemma ReadBoth(s: State) returns (t: State)
    requires Inv(s) && TwoTimers(s)
    ensures Legal(s, READING) && t == Run(s, READING) && Inv(t) && BothDue(t)
  {
    BothExpired();
    hide Inv, Expired;
    StepKeepsInv(s, BeginRead(1));
    assert s.timers[..2] == s.timers;
    var mid := RunTwo(s, BeginRead(1), RunTimer);
    StepKeepsInv(mid, RunTimer);
    t := RunTwo(mid, RunTimer, EndCallbacks);
    RunConcat(s, [BeginRead(1), RunTimer], [RunTimer, EndCallbacks]);
  }

  lemma BothExpired()
    ensures Expired([Entry(1, 1), Entry(1, 2)], 1) == 2
  {
    var timers := [Entry(1, 1), Entry(1, 2)];
    assert timers[1..] == [Entry(1, 2)] && timers[1..][1..] == [];
    assert Expired(timers[1..], 1) == 1;
  }

  const CANCELLING: seq<Step> := [ResetNext, Cancel(ActiveTimer(2, 2))] + [Released, ResetNext]

  /** The one-shot timer is deleted and its callback is being destroyed; reset has still to come to the heartbeat. */
  predicate OneDeleted(s: State) {
    && s.heap == map[2 := HEARTBEAT] && s.resetting && s.erasing == [] && s.releasing == Some(1) && s.canceling == {}
    && s.batch == [Entry(1, 2)]
  }

  lemma FirstDeleted(s: State)
    requires Inv(s) && BothDue(s)
    ensures Enabled(s, ResetNext) && OneDeleted(Apply(s, ResetNext))
    ensures Lost(Apply(s, ResetNext), ActiveTimer(2, 2)) && Enabled(Apply(s, ResetNext), Cancel(ActiveTimer(2, 2)))
  {
    hide Inv;
    var t := Apply(s, ResetNext);
    assert t.batch[0] == Entry(1, 2);
  }

  lemma CancelDuringReset(s: State) returns (t: State)
    requires Inv(s) && BothDue(s)
    ensures Legal(s, [ResetNext]) && Lost(Run(s, [ResetNext]), ActiveTimer(2, 2))
    ensures Legal(s, [ResetNext, Cancel(ActiveTimer(2, 2))]) && t == Run(s, [ResetNext, Cancel(ActiveTimer(2, 2))])
    ensures Inv(t) && OneDeleted(t) && Lost(t, ActiveTimer(2, 2))
  {
    var id := ActiveTimer(2, 2);
    FirstDeleted(s);
    var r := Apply(s, ResetNext);
    hide Inv, ResetFirst, CancelInLoop, Lost, Enabled, OneDeleted, BothDue;
    StepKeepsInv(s, ResetNext);
    RunCons(s, ResetNext, []);
    assert [ResetNext] + [] == [ResetNext];
    InBatchIs(r, id);
    CancelMarks(r, id);
    t := RunTwo(s, ResetNext, Cancel(id));
  }

  lemma InBatchIs(s: State, id: ActiveTimer)
    ensures Lost(s, id) ==> InBatch(s, id)
  {
  }

  lemma RescheduledAfter(s: State) returns (t: State)
    requires Inv(s) && OneDeleted(s) && Lost(s, ActiveTimer(2, 2))
    ensures Legal(s, [Released, ResetNext]) && t == Run(s, [Released, ResetNext]) && Inv(t) && ActiveTimer(2, 2) in t.active
  {
    var id := ActiveTimer(2, 2);
    StepKeepsInv(s, Released);
    LostStep(s, Released, id);
    var r := Apply(s, Released);
    LostResetNext(r, id);
    hide Inv, ResetFirst;
    t := RunTwo(s, Released, ResetNext);
  }

  lemma CancelFromReset(s: State) returns (t: State)
    requires Inv(s) && BothDue(s)
    ensures Legal(s, CANCELLING) && t == Run(s, CANCELLING) && Inv(t) && ActiveTimer(2, 2) in t.active
    ensures Legal(s, [ResetNext]) && Lost(Run(s, [ResetNext]), ActiveTimer(2, 2))
  {
    hide Inv, Apply, Enabled, Lost, BothDue, OneDeleted;
    var r := CancelDuringReset(s);
    t := RescheduledAfter(r);
    RunConcat(s, [ResetNext, Cancel(ActiveTimer(2, 2))], [Released, ResetNext]);
  }

  const ADDING: seq<Step> := Adding(1, 1, false, 0) + Adding(2, 1, true, 10)

  /** From the empty queue: a one-shot timer and a heartbeat are due together, and what the one-shot timer's callback
      owned cancels the heartbeat when reset deletes it. The cancel is lost, and the heartbeat scheduled again. */
  lemma LostCancelRun()
    ensures Inv(EMPTY) && Legal(EMPTY, ADDING + READING + CANCELLING)
    ensures ActiveTimer(2, 2) in Run(EMPTY, ADDING + READING + CANCELLING).active
    ensures Legal(EMPTY, ADDING + READING) && Legal(Run(EMPTY, ADDING + READING), [ResetNext])
    ensures Lost(Run(Run(EMPTY, ADDING + READING), [ResetNext]), ActiveTimer(2, 2))
  {
    hide Inv, Apply, Enabled, Lost;
    var s1 := FirstTimer();
    var s2 := SecondTimer(s1);
    RunConcat(EMPTY, Adding(1, 1, false, 0), Adding(2, 1, true, 10));
    var s3 := ReadBoth(s2);
    RunConcat(EMPTY, ADDING, READING);
    var s4 := CancelFromReset(s3);
    RunConcat(EMPTY, ADDING + READING, CANCELLING);
  }

  const CANCEL_AND_ADD: seq<Step> := [NewTimer(2, 5, false, 0), Cancel(ActiveTimer(1, 1))]

  lemma CancelOne(s: State) returns (t: State)
    requires Inv(s) && OneTimer(s)
    ensures Legal(s, CANCEL_AND_ADD) && t == Run(s, CANCEL_AND_ADD) && Inv(t)
    ensures t.erasing == [ActiveTimer(1, 1)] && 2 in t.uninserted && !t.resetting
  {
    hide Inv, EraseEntry;
    StepKeepsInv(s, NewTimer(2, 5, false, 0));
    t := RunTwo(s, NewTimer(2, 5, false, 0), Cancel(ActiveTimer(1, 1)));
  }

  /** From the empty queue: a timer is cancelled, and what its callback owned adds another timer when cancelInLoop
      deletes it. The assertion at the head of insert fails. If instead it cancels the same timer, the cancel finds it
      again, deleted. */
  lemma ReentryRun()
    ensures Inv(EMPTY) && Legal(EMPTY, Adding(1, 1, false, 0) + CANCEL_AND_ADD)
    ensures var s := Run(EMPTY, Adding(1, 1, false, 0) + CANCEL_AND_ADD);
            && Enabled(s, AddTimer(2)) && !Asserts(s, AddTimer(2))
            && Callable(s, Cancel(ActiveTimer(1, 1))) && ActiveTimer(1, 1) in ActiveTimers(s) && 1 !in s.heap
  {
    var s1 := FirstTimer();
    var s2 := CancelOne(s1);
    hide Inv, Apply;
    RunConcat(EMPTY, Adding(1, 1, false, 0), CANCEL_AND_ADD);
    AssertsExactly(s2, AddTimer(2));
    SecondDeleteExactly(s2, ActiveTimer(1, 1));
  }
}
