/** net/TcpServer.cpp with the life-cycle half of net/TcpConnection.cpp and net/Channel.cpp, as a class that
    updates its fields; ServerMachine says what each method does to the whole. */
module TcpServer {
  import opened ConnectionState
  import opened Wrappers
  import opened M = ServerMachine

  class TcpServer {
    var connections: set<Conn>              // connections_, by connection number
    var nextConnId: nat
    var conns: map<Conn, Connection>        // the TcpConnection objects
    var queued: multiset<Task>              // the functors queued on all loops
    var forced: set<Conn>
    var modes: map<Loop, Mode>

    ghost var established: multiset<Conn>
    ghost var closed: multiset<Conn>
    ghost var destroyed: multiset<Conn>
    ghost var missed: multiset<Conn>

    ghost function View(): State
      reads this
    {
      State(conns, connections, nextConnId, modes, queued, forced, established, closed, destroyed, missed)
    }

    constructor (loops: set<Loop>)
      requires BASE in loops
      ensures Initial(View()) && Inv(View()) && modes.Keys == loops
    {
      connections, nextConnId, conns, queued, forced := {}, 1, map[], multiset{}, {};
      modes := map l | l in loops :: Polling;
      established, closed, destroyed, missed := multiset{}, multiset{}, multiset{}, multiset{};
      new;
      InitialInv(View());
    }

    method QueueInLoop(task: Task)
      modifies this`queued
      ensures View() == Enqueue(old(View()), task)
    {
      queued := queued[task := queued[task] + 1];
    }

    /** newConnection: the new connection is in the map and has connectEstablished behind it, if it got the base
        loop, or queued once. */
    method NewConnection(ioLoop: Loop)
      requires Inv(View()) && Enabled(View(), Accept(ioLoop))
      modifies this`conns, this`connections, this`nextConnId, this`queued, this`established
      ensures Inv(View()) && View() == Apply(old(View()), Accept(ioLoop))
      ensures old(nextConnId) !in old(connections) && old(nextConnId) in connections
      ensures established[old(nextConnId)] + queued[Establish(old(nextConnId))] == 1
    {
      hide Inv, Born, M.ConnectEstablished;
      StepKeepsInv(View(), Accept(ioLoop));
      NewIsAbsent(View());
      var conn := Create(ioLoop);
      if ioLoop == BASE {
        ConnectEstablished(conn);
      } else {
        QueueInLoop(Establish(conn));
      }
      NewIsPresent(old(View()), View(), ioLoop);
    }

    /** The TcpConnection and its entry in the map. */
    method Create(ioLoop: Loop) returns (conn: Conn)
      modifies this`conns, this`connections, this`nextConnId
      ensures View() == Born(old(View()), ioLoop) && conn == old(nextConnId) && conn in conns
    {
      conn := nextConnId;
      nextConnId := nextConnId + 1;
      conns := conns[conn := Connection(ioLoop, Connecting, false)];
      connections := connections + {conn};
    }

    method ConnectEstablished(conn: Conn)
      requires conn in conns
      modifies this`conns, this`established
      ensures View() == M.ConnectEstablished(old(View()), conn)
    {
      conns := conns[conn := conns[conn].(state := Connected, watched := true)];  // setState, enableReading
      established := established[conn := established[conn] + 1];
    }

    /** removeConnection: the base loop removes at once, an I/O loop queues the removal there. */
    method RemoveConnection(conn: Conn, onLoop: Loop)
      modifies this`queued, this`connections, this`missed
      ensures View() == if onLoop == BASE then M.RemoveConnectionInLoop(old(View()), conn) else Enqueue(old(View()), Remove(conn))
    {
      if onLoop == BASE {
        RemoveConnectionInLoop(conn);
      } else {
        QueueInLoop(Remove(conn));
      }
    }

    method RemoveConnectionInLoop(conn: Conn)
      modifies this`queued, this`connections, this`missed
      ensures View() == M.RemoveConnectionInLoop(old(View()), conn)
    {
      missed := if conn in connections then missed else missed[conn := missed[conn] + 1];
      connections := connections - {conn};
      QueueInLoop(Destroy(conn));
    }

    method HandleClose(conn: Conn)
      requires conn in conns
      modifies this`conns, this`closed, this`queued, this`connections, this`missed
      ensures View() == M.HandleClose(old(View()), conn)
    {
      conns := conns[conn := conns[conn].(state := Disconnected, watched := false)];  // setState, disableAll
      closed := closed[conn := closed[conn] + 1];
      RemoveConnection(conn, conns[conn].loop);
    }

    /** connectDestroyed; the channel it removes has no events of interest left. */
    method ConnectDestroyed(conn: Conn)
      requires conn in conns && (conns[conn].state == Connected || !conns[conn].watched)
      modifies this`conns, this`destroyed
      ensures View() == M.ConnectDestroyed(old(View()), conn) && !conns[conn].watched
      ensures conns[conn].state != Connected && (old(conns[conn].state) == Connected ==> conns[conn].state == Disconnected)
    {
      if conns[conn].state == Connected {
        conns := conns[conn := conns[conn].(state := Disconnected, watched := false)];  // setState, disableAll
      }
      destroyed := destroyed[conn := destroyed[conn] + 1];
    }

    method ForceCloseInLoop(conn: Conn)
      requires conn in conns
      modifies this`conns, this`closed, this`queued, this`connections, this`missed
      ensures View() == M.Execute(old(View()), Task.ForceClose(conn))
    {
      if conns[conn].state == Connected || conns[conn].state == Disconnecting {
        HandleClose(conn);
      }
    }

    method Execute(task: Task)
      requires task.conn in conns && (task.Destroy? ==> conns[task.conn].state == Connected || !conns[task.conn].watched)
      modifies this
      ensures View() == M.Execute(old(View()), task)
    {
      hide M.ConnectEstablished, M.RemoveConnectionInLoop, M.ConnectDestroyed, M.HandleClose;
      match task
      case Establish(c) => ConnectEstablished(c);
      case Remove(c) => RemoveConnectionInLoop(c);
      case Destroy(c) => ConnectDestroyed(c);
      case ForceClose(c) => ForceCloseInLoop(c);
    }

    /** A loop runs one of its functors. */
    method RunFunctor(at: Loop, task: Task)
      requires Inv(View()) && Enabled(View(), RunTask(at, task))
      modifies this
      ensures Inv(View()) && View() == Apply(old(View()), RunTask(at, task))
    {
      hide Inv, Enabled, Apply, M.Execute;
      RunTaskIs(View(), at, task);
      queued := queued[task := queued[task] - 1];
      Execute(task);
    }

    /** One `if` of handleEventWithGuard: close, then read, then write. */
    method NextCallback(at: Loop, readZero: bool)
      requires Inv(View()) && Enabled(View(), HandleEvent(at, readZero))
      modifies this
      ensures Inv(View()) && View() == Apply(old(View()), HandleEvent(at, readZero))
      ensures at in modes && modes[at] == old(modes[at]).(current := NextStage(old(modes[at].current.value)))
    {
      hide Inv, M.HandleClose;
      CurrentKnown(View(), at);
      StepKeepsInv(View(), HandleEvent(at, readZero));
      var Dispatch(revents, stage) := modes[at].current.value;
      var next := modes[at].(current := NextStage(modes[at].current.value));
      match stage {
        case AtClose =>
          if revents.hup && !revents.isIn {
            HandleClose(revents.conn);
          }
        case AtRead =>
          if revents.isIn || revents.pri || revents.rdhup {
            if readZero {
              HandleClose(revents.conn);
            }
          }
        case AtWrite =>
      }
      modes := modes[at := next];
    }

    /** handleEventWithGuard: the callbacks of one event, in the source's order. handleClose has then run once in the
        connection's life and it is disconnected, if the event is a hang-up without IN or a read of it meets the end of
        file; otherwise it is open as before. */
    method HandleEventWithGuard(at: Loop, readZero: bool)
      requires Inv(View()) && Enabled(View(), HandleEvent(at, readZero)) && modes[at].current.value.stage == AtClose
      modifies this
      ensures Inv(View()) && View() == Callbacks(old(View()), at, readZero)
      ensures at in modes && modes[at] == old(modes[at]).(current := None)
      ensures var c := old(modes[at].current.value.event.conn);
              closed[c] <= 1 && c in conns && (closed[c] == 1 <==> conns[c].state == Disconnected)
      ensures var e := old(modes[at].current.value.event);
              closed[e.conn] == 1 <==> (e.hup && !e.isIn) || (readZero && (e.isIn || e.pri || e.rdhup))
    {
      hide Inv, Stepped;
      ghost var c := modes[at].current.value.event.conn;
      CurrentKnown(View(), at);
      CallbacksAre(View(), at, readZero);
      EventCloses(View(), at, readZero);
      NextCallback(at, readZero);
      NextCallback(at, readZero);
      NextCallback(at, readZero);
      hide Callbacks;
      ClosedOnce(View(), c);
    }

    /** The loop over activeChannels_ after a poll: every event reported is handled, and closes its connection exactly if it
        is a hang-up without IN or a read of it meets the end of file. */
    method HandleActiveChannels(at: Loop, readZeros: seq<bool>)
      requires Inv(View()) && at in modes && modes[at].Handling? && modes[at].current.None?
      requires |readZeros| == |modes[at].todo|
      modifies this
      ensures Inv(View()) && at in modes && modes[at] == Handling(None, [])
      ensures AllClosedAsTold(closed, old(modes[at].todo), readZeros, |readZeros|)
    {
      hide Inv, AllClosedAsTold, Callbacks;
      var todo := modes[at].todo;
      NoneHandled(closed, todo, readZeros);
      Distinct(View(), at);
      for i := 0 to |todo|
        invariant Inv(View()) && at in modes && modes[at] == Handling(None, todo[i..])
        invariant AllClosedAsTold(closed, todo, readZeros, i)
      {
        assert todo[i..][0] == todo[i] && todo[i..][1..] == todo[i + 1..];
        HandleNext(at, todo, readZeros, i);
      }
    }

    /** One turn of that loop. */
    method HandleNext(at: Loop, ghost todo: seq<Event>, readZeros: seq<bool>, i: nat)
      requires Inv(View()) && at in modes && modes[at].Handling? && modes[at].current.None? && modes[at].todo != []
      requires |readZeros| == |todo| && i < |todo| && modes[at].todo[0] == todo[i]
      requires forall j, k :: 0 <= j < k < |todo| ==> todo[j].conn != todo[k].conn
      requires AllClosedAsTold(closed, todo, readZeros, i)
      modifies this
      ensures Inv(View()) && at in modes && modes[at] == Handling(None, old(modes[at].todo)[1..])
      ensures AllClosedAsTold(closed, todo, readZeros, i + 1)
    {
      hide Inv, AllClosedAsTold, Callbacks;
      TakeEvent(at);
      ghost var before := View();
      CurrentKnown(before, at);
      HandleEventWithGuard(at, readZeros[i]);
      OneMore(before, at, todo, readZeros, i);
    }

    /** currentActiveChannel_ becomes the next of the active channels. */
    method TakeEvent(at: Loop)
      requires Inv(View()) && Enabled(View(), BeginEvent(at))
      modifies this`modes
      ensures Inv(View()) && View() == Apply(old(View()), BeginEvent(at))
      ensures at in modes && modes[at] == Handling(Some(Dispatch(old(modes[at].todo)[0], AtClose)), old(modes[at].todo)[1..])
    {
      hide Inv;
      StepKeepsInv(View(), BeginEvent(at));
      modes := modes[at := Handling(Some(Dispatch(modes[at].todo[0], AtClose)), modes[at].todo[1..])];
    }

    /** Any one step: the methods above, and the steps of the loops and of other threads around them. */
    method Perform(step: Step)
      requires Inv(View()) && Enabled(View(), step) && Assumed(step)
      modifies this
      ensures Inv(View()) && View() == Apply(old(View()), step)
    {
      hide Inv;
      StepKeepsInv(View(), step);
      match step {
        case Accept(l) => NewConnection(l);
        case PollReturns(l, events) => modes := modes[l := Handling(None, events)];
        case BeginEvent(l) => TakeEvent(l);
        case HandleEvent(l, readZero) => NextCallback(l, readZero);
        case HandlersDone(l) => modes := modes[l := Functors];
        case RunTask(l, task) => RunFunctor(l, task);
        case FunctorsDone(l) => modes := modes[l := Polling];
        case Shutdown(c) => SetDisconnecting(c);
        case ForceCloseCall(c) => ForceClose(c);
        case QueueForceClose(c) => QueueInLoop(Task.ForceClose(c));
        case SetWatched(c, on) => SetInterest(c, on);
      }
    }

    predicate IsOpen(c: Conn)
      requires c in conns
      reads this
    {
      conns[c].state == Connected || conns[c].state == Disconnecting
    }

    /** The state change of shutdown and forceClose. */
    method SetDisconnecting(c: Conn)
      requires c in conns
      modifies this`conns
      ensures View() == if IsUp(old(View()), c) then SetConn(old(View()), c, old(conns[c]).(state := Disconnecting)) else old(View())
    {
      if IsOpen(c) {
        conns := conns[c := conns[c].(state := Disconnecting)];
      }
    }

    /** startRead, stopRead, or a change of the interest in writing: whether the poller may report the channel. */
    method SetInterest(c: Conn, on: bool)
      requires c in conns
      modifies this`conns
      ensures View() == SetConn(old(View()), c, old(conns[c]).(watched := on)) && c in conns && conns[c].watched == on
    {
      conns := conns[c := conns[c].(watched := on)];
    }

    /** forceClose up to its queueing: of an open connection it goes on to queue forceCloseInLoop. */
    method ForceClose(c: Conn)
      requires Inv(View()) && c in conns
      modifies this`conns, this`forced
      ensures View() == Apply(old(View()), ForceCloseCall(c))
      ensures c in conns && (old(IsOpen(c)) ==> c in forced && conns[c].state == Disconnecting)
    {
      hide Inv;
      if IsOpen(c) {
        forced := forced + {c};
      }
      SetDisconnecting(c);
    }

    /** Any run of all loops and threads: the class goes where the machine goes, so that what holds of every run
        of the machine holds of the class. */
    method Drive(steps: seq<Step>)
      requires Inv(View()) && Legal(View(), steps)
      modifies this
      ensures Inv(View()) && View() == Run(old(View()), steps)
    {
      hide Inv, Enabled, Apply;
      var i := 0;
      while i < |steps|
        invariant 0 <= i <= |steps| && Inv(View()) && Legal(View(), steps[i..])
        invariant Run(View(), steps[i..]) == Run(old(View()), steps)
      {
        assert steps[i..][0] == steps[i] && steps[i..][1..] == steps[i + 1..];
        Perform(steps[i]);
        i := i + 1;
      }
    }
  }
  /** Whether the callbacks of an event call handleClose. */
  predicate Closing(e: Event, readZero: bool) {
    (e.hup && !e.isIn) || (readZero && (e.isIn || e.pri || e.rdhup))
  }

  /** Of the first n events just those that tell so have closed their connection. */
  ghost predicate AllClosedAsTold(closed: multiset<Conn>, events: seq<Event>, readZeros: seq<bool>, n: nat)
    requires |events| == |readZeros| && n <= |events|
  {
    forall i :: 0 <= i < n ==> closed[events[i].conn] == if Closing(events[i], readZeros[i]) then 1 else 0
  }

  lemma NoneHandled(closed: multiset<Conn>, events: seq<Event>, readZeros: seq<bool>)
    requires |events| == |readZeros|
    ensures AllClosedAsTold(closed, events, readZeros, 0)
  {
  }

  lemma OneMore(s: State, l: Loop, events: seq<Event>, readZeros: seq<bool>, i: nat)
    requires |events| == |readZeros| && i < |events| && AllClosedAsTold(s.closed, events, readZeros, i)
    requires Inv(s) && l in s.modes && s.modes[l].Handling? && s.modes[l].current == Some(Dispatch(events[i], AtClose))
    requires events[i].conn in s.conns
    requires forall j, k :: 0 <= j < k < |events| ==> events[j].conn != events[k].conn
    ensures AllClosedAsTold(Callbacks(s, l, readZeros[i]).closed, events, readZeros, i + 1)
  {
    hide Inv, Callbacks;
    EventCloses(s, l, readZeros[i]);
    Others(s, l, readZeros[i], events[..i]);
    forall j | 0 <= j < i
      ensures Callbacks(s, l, readZeros[i]).closed[events[j].conn] == s.closed[events[j].conn]
    {
      assert events[..i][j] == events[j];
    }
  }

  lemma Distinct(s: State, l: Loop)
    requires Inv(s) && l in s.modes && s.modes[l].Handling?
    ensures forall i, j :: 0 <= i < j < |s.modes[l].todo| ==> s.modes[l].todo[i].conn != s.modes[l].todo[j].conn
  {
    hide ConnsOk;
    assert EventsOk(s.conns, l, s.modes[l]);
  }

  /** The callbacks of one event leave the connections of the others as they are. */
  lemma Others(s: State, l: Loop, readZero: bool, done: seq<Event>)
    requires Inv(s) && l in s.modes && s.modes[l].Handling? && s.modes[l].current.Some?
    requires s.modes[l].current.value.stage == AtClose && s.modes[l].current.value.event.conn in s.conns
    requires forall i :: 0 <= i < |done| ==> done[i].conn != s.modes[l].current.value.event.conn
    ensures forall i :: 0 <= i < |done| ==> Callbacks(s, l, readZero).closed[done[i].conn] == s.closed[done[i].conn]
  {
    hide Inv, Callbacks;
    forall i | 0 <= i < |done|
      ensures Callbacks(s, l, readZero).closed[done[i].conn] == s.closed[done[i].conn]
    {
      CallbacksTouchOne(s, l, readZero, done[i].conn);
    }
  }
}
