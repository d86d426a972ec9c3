/** base/BoundedBlockingQueue.h as a class: put and take with their wait loops. While a thread waits it gives the
    mutex up, and the other threads do whatever a script says until it has the mutex back. */
module BoundedBlockingQueue {
  import opened Wrappers
  import opened M = QueueMachine

  class BoundedBlockingQueue<T(0)> {
    const maxSize: nat
    var queue: seq<T>
    var calls: map<Tid, Call<T>>
    var notEmpty: Condition
    var notFull: Condition

    ghost var put: seq<T>
    ghost var taken: seq<T>

    ghost function View(): State<T>
      reads this
    {
      State(maxSize, queue, calls, notEmpty, notFull, put, taken)
    }

    constructor (maxSize: nat)
      ensures View() == Initial(maxSize) && Inv(View())
    {
      this.maxSize := maxSize;
      queue, calls, notEmpty, notFull := [], map[], Condition({}, {}), Condition({}, {});
      put, taken := [], [];
    }

    /** From the test of its wait loop to the end of put, or back to sleep. */
    method PutPass(t: Tid, x: T, woken: set<Tid>) returns (done: bool)
      requires Inv(View()) && Enabled(View(), Pass(t, woken)) && calls[t] == Call.Put(x)
      modifies this
      ensures Inv(View()) && View() == DoPut(old(View()), t, x, woken)
      ensures done == old(|queue| != maxSize)
    {
      hide Inv, Notify, Resume, Wait;
      PutKeepsInv(View(), t, woken);
      if |queue| == maxSize {
        notFull := Wait(notFull, t);
        return false;
      }
      queue := queue + [x];
      put := put + [x];
      notEmpty := Notify(notEmpty, woken);
      notFull := Resume(notFull, t);
      calls := calls - {t};
      return true;
    }

    /** From the test of its wait loop to the end of take, or back to sleep. */
    method TakePass(t: Tid, woken: set<Tid>) returns (front: Option<T>)
      requires Inv(View()) && Enabled(View(), Pass(t, woken)) && calls[t] == Call.Take
      modifies this
      ensures Inv(View()) && View() == DoTake(old(View()), t, woken)
      ensures if old(queue) == [] then front == None else front == Some(old(queue)[0])
    {
      hide Inv, Notify, Resume, Wait;
      TakeKeepsInv(View(), t, woken);
      if |queue| == 0 {
        notEmpty := Wait(notEmpty, t);
        return None;
      }
      front := Some(queue[0]);
      taken := taken + [queue[0]];
      queue := queue[1..];
      notFull := Notify(notFull, woken);
      notEmpty := Resume(notEmpty, t);
      calls := calls - {t};
    }

    /** Any one step of any thread. */
    method Perform(step: Step<T>)
      requires Inv(View()) && Enabled(View(), step)
      modifies this
      ensures Inv(View()) && View() == Apply(old(View()), step)
    {
      match step {
        case Enter(t, call) =>
          EnterKeepsInv(View(), t, call);
          calls := calls[t := call];
        case Spurious(t) =>
          SpuriousKeepsInv(View(), t);
          notEmpty := notEmpty.(waiting := notEmpty.waiting - {t});
          notFull := notFull.(waiting := notFull.waiting - {t});
        case Pass(t, woken) =>
          match calls[t] {
            case Put(item) => var _ := PutPass(t, item, woken);
            case Take => var _ := TakePass(t, woken);
          }
      }
    }

    /** Whom a notify wakes: some of the waiting threads, at least one if there are any. */
    method Chosen(c: Condition) returns (woken: set<Tid>)
      ensures Notifiable(c, woken)
    {
      woken := {};
      if c.waiting != {} {
        var one :| one in c.waiting;
        var more: set<Tid> := *;
        woken := {one} + more * c.waiting;
      }
    }

    /** Thread t sleeps while other threads enter put and take and get on with them; then it has the mutex back. */
    method Sleep(t: Tid)
      requires Inv(View()) && t in calls
      modifies this
      ensures Inv(View()) && t in calls && calls[t] == old(calls[t])
      ensures t !in notEmpty.waiting && t !in notFull.waiting
      ensures old(put) <= put && old(taken) <= taken
    {
      hide Inv;
      var n: nat :| true;
      for i := 0 to n
        invariant Inv(View()) && t in calls && calls[t] == old(calls[t])
        invariant old(put) <= put && old(taken) <= taken
      {
        var u: Tid, call: Call<T> := *, *;
        if u !in calls {
          Perform(Enter(u, call));
        } else if u in notEmpty.waiting || u in notFull.waiting {
          Perform(Spurious(u));
        } else if u != t {
          var woken := Chosen(if calls[u].Put? then notEmpty else notFull);
          Perform(Pass(u, woken));
        }
      }
      if t in notEmpty.waiting || t in notFull.waiting {
        Perform(Spurious(t));
      }
    }

    /** put, given up after `patience` turns of its wait loop. When it returns, its item is the last one put. */
    method Put(t: Tid, x: T, patience: nat) returns (done: bool)
      requires Inv(View()) && t !in calls
      modifies this
      ensures Inv(View()) && old(put) <= put && old(taken) <= taken
      ensures if done then t !in calls && |old(put)| < |put| && put[|put| - 1] == x else t in calls && calls[t] == Call.Put(x)
    {
      hide Inv, Notify, Resume, Wait, Notifiable;
      NotWaiting(View(), t);
      Perform(Enter(t, Call.Put(x)));
      var woken := Chosen(notEmpty);
      done := PutPass(t, x, woken);
      var turns := 0;
      while !done && turns < patience
        invariant Inv(View()) && old(put) <= put && old(taken) <= taken
        invariant if done then t !in calls && |old(put)| < |put| && put[|put| - 1] == x else t in calls && calls[t] == Call.Put(x)
      {
        Sleep(t);
        woken := Chosen(notEmpty);
        done := PutPass(t, x, woken);
        turns := turns + 1;
      }
    }

    /** Thread t is out of take with what it took last, or still in it. */
    ghost predicate Took(t: Tid, front: Option<T>, before: seq<T>)
      reads this
    {
      match front
      case Some(item) => t !in calls && |before| < |taken| && taken[|taken| - 1] == item
      case None => t in calls && calls[t] == Call.Take
    }

    /** take, given up after `patience` turns of its wait loop. When it returns, its result is the last one taken. */
    method Take(t: Tid, patience: nat) returns (front: Option<T>)
      requires Inv(View()) && t !in calls
      modifies this
      ensures Inv(View()) && old(put) <= put && old(taken) <= taken
      ensures Took(t, front, old(taken))
    {
      hide Inv, Notify, Resume, Wait, Notifiable;
      NotWaiting(View(), t);
      Perform(Enter(t, Call.Take));
      var woken := Chosen(notFull);
      front := TakePass(t, woken);
      var turns := 0;
      while front.None? && turns < patience
        invariant Inv(View()) && old(put) <= put && old(taken) <= taken
        invariant Took(t, front, old(taken))
      {
        Sleep(t);
        woken := Chosen(notFull);
        front := TakePass(t, woken);
        turns := turns + 1;
      }
    }
  }

  lemma NotWaiting<T>(s: State<T>, t: Tid)
    requires Inv(s) && t !in s.calls
    ensures t !in s.notEmpty.waiting && t !in s.notFull.waiting
  {
  }
}
