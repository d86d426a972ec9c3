/** net/poller/PollPoller.cpp and net/poller/EPollPoller.cpp as classes over the loop's Channel objects. */
module Pollers {
  import opened Channel
  import opened M = PollerMachine

  /** What poll(2) or epoll_wait(2) returns. */
  datatype PollResult<T> = Ready(reports: seq<T>) | Error(errno: int)

  /** Entries with returned events belong to channels, each to a different one. */
  ghost predicate Reported(pollfds: seq<PollFd>, channels: map<nat, Channel>) {
    && (forall i :: 0 <= i < |pollfds| && pollfds[i].revents > 0 ==>
          0 <= pollfds[i].fd && pollfds[i].fd in channels && channels[pollfds[i].fd].fd == pollfds[i].fd)
    && (forall i, j :: 0 <= i < j < |pollfds| && pollfds[i].revents > 0 && pollfds[j].revents > 0 ==>
          pollfds[i].fd != pollfds[j].fd)
  }

  /** The channels of the entries with returned events, in the order of the entries. */
  ghost function ActiveChannels(pollfds: seq<PollFd>, channels: map<nat, Channel>): (active: seq<Channel>)
    requires Reported(pollfds, channels)
    ensures |active| == CountEvents(pollfds)
    ensures forall c :: c in active ==> exists i :: 0 <= i < |pollfds| && pollfds[i].revents > 0 && channels[pollfds[i].fd] == c
  {
    if pollfds == [] then []
    else
      var init, last := pollfds[..|pollfds| - 1], pollfds[|pollfds| - 1];
      var active := ActiveChannels(init, channels);
      if last.revents > 0 then active + [channels[last.fd]] else active
  }

  /** What poll(2) returns for these entries. */
  function CountEvents(pollfds: seq<PollFd>): nat {
    if pollfds == [] then 0
    else CountEvents(pollfds[..|pollfds| - 1]) + if pollfds[|pollfds| - 1].revents > 0 then 1 else 0
  }

  lemma {:induction false} CountOfPrefix(pollfds: seq<PollFd>, i: nat)
    requires i <= |pollfds|
    ensures CountEvents(pollfds[..i]) <= CountEvents(pollfds)
    ensures CountEvents(pollfds[..i]) == CountEvents(pollfds) ==> forall j :: i <= j < |pollfds| ==> pollfds[j].revents == 0
  {
    if i < |pollfds| {
      var init := pollfds[..|pollfds| - 1];
      CountOfPrefix(init, i);
      assert init[..i] == pollfds[..i];
      assert forall j :: i <= j < |init| ==> pollfds[j] == init[j];
    } else {
      assert pollfds[..i] == pollfds;
    }
  }

  lemma {:induction false} ActiveOfPrefix(pollfds: seq<PollFd>, channels: map<nat, Channel>, i: nat)
    requires Reported(pollfds, channels) && i <= |pollfds|
    requires forall j :: i <= j < |pollfds| ==> pollfds[j].revents == 0
    ensures Reported(pollfds[..i], channels) && ActiveChannels(pollfds[..i], channels) == ActiveChannels(pollfds, channels)
  {
    if i < |pollfds| {
      var init := pollfds[..|pollfds| - 1];
      assert forall j :: i <= j < |init| ==> init[j] == pollfds[j];
      ActiveOfPrefix(init, channels, i);
      assert init[..i] == pollfds[..i];
    } else {
      assert pollfds[..i] == pollfds;
    }
  }

  lemma NothingYet(pollfds: seq<PollFd>, channels: map<nat, Channel>)
    ensures Reported(pollfds[..0], channels) && ActiveChannels(pollfds[..0], channels) == [] && CountEvents(pollfds[..0]) == 0
  {
  }

  /** No channel is reported twice. */
  lemma {:induction false} ActiveOnce(pollfds: seq<PollFd>, channels: map<nat, Channel>)
    requires Reported(pollfds, channels)
    ensures forall i, j :: 0 <= i < j < |ActiveChannels(pollfds, channels)| ==>
              ActiveChannels(pollfds, channels)[i] != ActiveChannels(pollfds, channels)[j]
  {
    if pollfds == [] {
    } else {
      var init, last := pollfds[..|pollfds| - 1], pollfds[|pollfds| - 1];
      assert forall k :: 0 <= k < |init| ==> init[k] == pollfds[k];
      ActiveOnce(init, channels);
      var before, active := ActiveChannels(init, channels), ActiveChannels(pollfds, channels);
      forall i, j | 0 <= i < j < |active|
        ensures active[i] != active[j]
      {
        assert active[i] == before[i];
        if j == |before| {
          assert before[i] in before;
          var k :| 0 <= k < |init| && init[k].revents > 0 && channels[init[k].fd] == before[i];
          assert active[i].fd == pollfds[k].fd != last.fd;
        } else {
          assert active[j] == before[j];
        }
      }
    }
  }

  /** One more entry. */
  lemma PrefixStep(pollfds: seq<PollFd>, channels: map<nat, Channel>, i: nat)
    requires Reported(pollfds, channels) && i < |pollfds|
    ensures Reported(pollfds[..i], channels) && Reported(pollfds[..i + 1], channels)
    ensures pollfds[i].revents > 0 ==> pollfds[i].fd in channels && channels[pollfds[i].fd].fd == pollfds[i].fd
    ensures ActiveChannels(pollfds[..i + 1], channels)
         == ActiveChannels(pollfds[..i], channels) + if pollfds[i].revents > 0 then [channels[pollfds[i].fd]] else []
    ensures CountEvents(pollfds[..i + 1]) == CountEvents(pollfds[..i]) + if pollfds[i].revents > 0 then 1 else 0
  {
    var next := pollfds[..i + 1];
    assert next[..i] == pollfds[..i];
    assert forall k :: 0 <= k < |next| ==> next[k] == pollfds[k];
  }

  /** The first n entries' returned events have reached their channels. */
  ghost predicate Delivered(pollfds: seq<PollFd>, channels: map<nat, Channel>, n: nat)
    requires Reported(pollfds, channels) && n <= |pollfds|
    reads channels.Values
  {
    forall i :: 0 <= i < n && pollfds[i].revents > 0 ==> channels[pollfds[i].fd].revents == pollfds[i].revents
  }

  /** The entries with the events that poll(2) returns for them. */
  function Returned(pollfds: seq<PollFd>, reports: seq<Mask>): (r: seq<PollFd>)
    requires |pollfds| == |reports|
    ensures |r| == |pollfds| && forall i :: 0 <= i < |r| ==> r[i] == pollfds[i].(revents := reports[i])
  {
    seq(|pollfds|, i requires 0 <= i < |pollfds| => pollfds[i].(revents := reports[i]))
  }

  /** The invariant of the entries makes what poll(2) reports well formed. */
  lemma InvReported(pollfds: seq<PollFd>, before: seq<PollFd>, channels: map<nat, Channel>, index: map<Channel, int>)
    requires IndexOk(before, channels, index) && |pollfds| == |before|
    requires forall i :: 0 <= i < |pollfds| ==> pollfds[i].fd == before[i].fd && (pollfds[i].revents > 0 ==> 0 <= pollfds[i].fd)
    ensures Reported(pollfds, channels)
  {
    forall i, j | 0 <= i < j < |pollfds| && pollfds[i].revents > 0 && pollfds[j].revents > 0
      ensures pollfds[i].fd != pollfds[j].fd
    {
      assert FdOf(before[i]) in channels && FdOf(before[j]) in channels;
    }
    forall i | 0 <= i < |pollfds| && pollfds[i].revents > 0
      ensures pollfds[i].fd in channels && channels[pollfds[i].fd].fd == pollfds[i].fd
    {
      assert FdOf(before[i]) == pollfds[i].fd && FdOf(before[i]) in channels;
    }
  }

  /** A channel that the poller has not met may be added with index -1 and no events. */
  lemma PollAdoptKeeps(s: PollState, spec: Spec, c: Channel)
    requires PollInv(s, spec) && c !in s.events && c !in s.index
    ensures PollInv(s.(events := s.events[c := NONE_EVENT], index := s.index[c := -1]), spec.(masks := spec.masks[c := NONE_EVENT]))
  {
  }

  lemma EpollAdoptKeeps(s: EpollState, spec: Spec, c: Channel)
    requires EpollInv(s, spec) && c !in s.events && c !in s.index
    ensures EpollInv(s.(events := s.events[c := NONE_EVENT], index := s.index[c := -1]), spec.(masks := spec.masks[c := NONE_EVENT]))
  {
    assert forall fd :: fd in s.channels ==> KernelOk(s, s.channels[fd]);
  }

  class PollPoller {
    var pollfds: seq<PollFd>
    var channels: map<nat, Channel>
    /** The channels that belong to the loop. */
    ghost var known: set<Channel>
    /** What the loop has asked for. */
    ghost var spec: Spec

    ghost function View(): PollState
      reads this`pollfds, this`channels, this`known, known
    {
      PollState(pollfds, channels, map c | c in known :: c.events, map c | c in known :: c.index)
    }

    constructor ()
      ensures Valid() && View() == NO_POLL && spec == NO_SPEC
    {
      pollfds, channels, known, spec := [], map[], {}, NO_SPEC;
    }

    /** A channel is created for the loop. */
    method Adopt(fd: nat) returns (c: Channel)
      requires Valid()
      modifies this`known, this`spec
      ensures Valid() && spec == old(spec).(masks := old(spec).masks[c := NONE_EVENT])
      ensures fresh(c) && c.fd == fd && known == old(known) + {c}
      ensures View() == old(View()).(events := old(View()).events[c := NONE_EVENT], index := Meet(old(View()).index, c))
    {
      hide PollInv, View;
      c := Create(fd);
      PollAdoptKeeps(old(View()), spec, c);
      spec := spec.(masks := spec.masks[c := NONE_EVENT]);
    }

    method Create(fd: nat) returns (c: Channel)
      modifies this`known
      ensures fresh(c) && c.fd == fd && known == old(known) + {c}
      ensures c !in old(View()).events && c !in old(View()).index
      ensures View() == old(View()).(events := old(View()).events[c := NONE_EVENT], index := old(View()).index[c := -1])
    {
      c := new Channel(fd);
      known := known + {c};
    }

    /** The loop's demands have been met so far, and the invariant holds of the objects. */
    ghost predicate Valid()
      reads this, known
    {
      PollInv(View(), spec)
    }

    /** One request of the loop, which meets the demands: the channel's events change first, then the poller is told. */
    method Perform(op: Op)
      requires Valid() && op.channel in known && OpOk(spec, op)
      modifies this, known
      ensures Valid() && known == old(known) && spec == SpecApply(old(spec), op)
      ensures old(PollOk(View(), op)) && View() == old(PollApply(View(), op))
    {
      hide Valid, PollInv, SpecApply, OpOk;
      Allowed(op);
      match op {
        case Update(c, mask) => Request(c, mask);
        case Remove(c) => RemoveChannel(c);
      }
      spec := SpecApply(spec, op);
      Again();
    }

    /** What the machine says of the step. */
    lemma Allowed(op: Op)
      requires Valid() && OpOk(spec, op)
      ensures PollOk(View(), op) && PollInv(PollApply(View(), op), SpecApply(spec, op)) && channels.Values <= known
    {
      hide SpecApply, PollOk, PollApply, OpOk;
      PollStep(View(), spec, op);
    }

    lemma Again()
      requires PollInv(View(), spec)
      ensures Valid()
    {
    }

    /** A member of Channel such as enableReading, with the update behind it. */
    method Request(channel: Channel, mask: Mask)
      requires channel in known && PollOk(View(), Update(channel, mask))
      modifies this`pollfds, this`channels, channel`events, channel`index
      ensures View() == old(PollApply(View(), Update(channel, mask)))
    {
      hide PollUpdateOk, PollUpdate;
      channel.events := mask;
      assert View().events == SetEvents(old(View()).events, channel, mask) && View().index == Meet(old(View()).index, channel);
      UpdateChannel(channel);
    }

    /** Any run of requests that meets the demands: the objects follow the machine, and afterwards the descriptors
        are watched for exactly the requested events. */
    method Drive(ops: seq<Op>)
      requires Valid() && (forall op :: op in ops ==> op.channel in known) && OpsOk(spec, ops)
      modifies this, known
      ensures Valid() && known == old(known) && spec == SpecRun(old(spec), ops)
      ensures old(PollRunOk(View(), ops)) && View() == old(PollRun(View(), ops))
      ensures forall fd, mask :: mask != NONE_EVENT ==> (PollWatches(View(), fd, mask) <==> Requested(spec, fd, mask))
    {
      hide Valid, View, PollOk, PollApply, OpOk, SpecApply;
      AllAllowed(ops);
      var i := 0;
      while i < |ops|
        invariant 0 <= i <= |ops| && Valid() && known == old(known)
        invariant OpsOk(spec, ops[i..]) && SpecRun(spec, ops[i..]) == SpecRun(old(spec), ops)
        invariant PollRunOk(View(), ops[i..]) && PollRun(View(), ops[i..]) == old(PollRun(View(), ops))
      {
        assert ops[i..][0] == ops[i] && ops[i..][1..] == ops[i + 1..];
        Perform(ops[i]);
        i := i + 1;
      }
      Watched();
    }

    lemma AllAllowed(ops: seq<Op>)
      requires Valid() && OpsOk(spec, ops)
      ensures PollRunOk(View(), ops)
    {
      hide View, PollInv;
      PollRunKeepsInv(View(), spec, ops);
    }

    lemma Watched()
      requires Valid()
      ensures forall fd, mask :: mask != NONE_EVENT ==> (PollWatches(View(), fd, mask) <==> Requested(spec, fd, mask))
    {
      hide PollInv, PollWatches, Requested, View;
      forall fd, mask | mask != NONE_EVENT
        ensures PollWatches(View(), fd, mask) <==> Requested(spec, fd, mask)
      {
        PollWatchesRequested(View(), spec, fd, mask);
      }
    }

    method UpdateChannel(channel: Channel)
      requires PollUpdateOk(View(), channel)
      modifies this`pollfds, this`channels, channel`index
      ensures View() == PollUpdate(old(View()), channel)
    {
      ghost var before := View();
      if channel.index < 0 {
        assert channel.fd !in channels;
        var idx := |pollfds|;
        pollfds := pollfds + [PollFd(channel.fd, channel.events, 0)];
        channel.index := idx;
        channels := channels[channel.fd := channel];
      } else {
        assert channel.fd in channels && channels[channel.fd] == channel;
        var fd: int := channel.fd;
        if channel.IsNoneEvent() {
          fd := Hidden(channel.fd);
        }
        pollfds := pollfds[channel.index := PollFd(fd, channel.events, 0)];
      }
      assert View().index == PollUpdate(before, channel).index;
      assert View().events == before.events;
    }

    method RemoveChannel(channel: Channel)
      requires PollRemoveOk(View(), channel) && channels.Values <= known
      modifies this`pollfds, this`channels, known`index
      ensures View() == PollRemove(old(View()), channel)
    {
      ghost var before := View();
      assert channel.fd in channels && channels[channel.fd] == channel && channel.IsNoneEvent();
      var idx := channel.index;
      channels := channels - {channel.fd};
      if idx == |pollfds| - 1 {
        pollfds := pollfds[..|pollfds| - 1];
      } else {
        var end := pollfds[|pollfds| - 1];
        var channelAtEnd := end.fd;
        pollfds := pollfds[idx := end][|pollfds| - 1 := pollfds[idx]];
        if channelAtEnd < 0 {
          channelAtEnd := -channelAtEnd - 1;
        }
        var moved := channels[channelAtEnd];
        moved.index := idx;
        pollfds := pollfds[..|pollfds| - 1];
      }
      assert pollfds == PollRemove(before, channel).pollfds;
      assert View().index == PollRemove(before, channel).index;
      assert View().events == before.events;
    }

    /** fillActiveChannels: scans the entries until it has found as many as poll(2) said. */
    method FillActiveChannels(numEvents: nat) returns (activeChannels: seq<Channel>)
      requires Reported(pollfds, channels) && numEvents == CountEvents(pollfds)
      modifies channels.Values`revents
      ensures activeChannels == ActiveChannels(pollfds, channels) && Delivered(pollfds, channels, |pollfds|)
    {
      hide CountEvents, ActiveChannels, Reported;
      activeChannels := [];
      var left, i := numEvents, 0;
      NothingYet(pollfds, channels);
      while i < |pollfds| && left > 0
        invariant 0 <= i <= |pollfds| && Reported(pollfds[..i], channels)
        invariant activeChannels == ActiveChannels(pollfds[..i], channels)
        invariant left + CountEvents(pollfds[..i]) == CountEvents(pollfds)
        invariant Delivered(pollfds, channels, i)
      {
        PrefixStep(pollfds, channels, i);
        var pfd := pollfds[i];
        if pfd.revents > 0 {
          left := left - 1;
          assert pfd.fd in channels && channels[pfd.fd].fd == pfd.fd;
          Deliver(i);
          activeChannels := activeChannels + [channels[pfd.fd]];
        }
        i := i + 1;
      }
      CountOfPrefix(pollfds, i);
      assert i == |pollfds| ==> pollfds[..i] == pollfds;
      ActiveOfPrefix(pollfds, channels, i);
    }

    /** set_revents */
    method Deliver(i: nat)
      requires Reported(pollfds, channels) && i < |pollfds| && pollfds[i].revents > 0 && Delivered(pollfds, channels, i)
      modifies channels.Values`revents
      ensures Delivered(pollfds, channels, i + 1)
    {
      var channel := channels[pollfds[i].fd];
      assert channel in channels.Values;
      channel.revents := pollfds[i].revents;
    }

    /** poll: the kernel reports on entries it was not told to ignore; the channels of exactly those come back,
        each once, with their events. */
    method Poll(result: PollResult<Mask>) returns (activeChannels: seq<Channel>)
      requires IndexOk(pollfds, channels, View().index)
      requires result.Ready? ==> |result.reports| == |pollfds|
      requires result.Ready? ==> forall i :: 0 <= i < |pollfds| && pollfds[i].fd < 0 ==> result.reports[i] == 0
      modifies this`pollfds, channels.Values`revents
      ensures result.Error? ==> activeChannels == [] && pollfds == old(pollfds)
      ensures result.Ready? ==>
                && pollfds == Returned(old(pollfds), result.reports)
                && Reported(pollfds, channels) && activeChannels == ActiveChannels(pollfds, channels)
                && Delivered(pollfds, channels, |pollfds|)
    {
      hide IndexOk, Reported, ActiveChannels, CountEvents;
      activeChannels := [];
      if result.Ready? {
        InvReported(Returned(pollfds, result.reports), pollfds, channels, View().index);
        pollfds := Returned(pollfds, result.reports);
        activeChannels := FillActiveChannels(CountEvents(pollfds));
      }
    }
  }

  class EPollPoller {
    var channels: map<nat, Channel>
    var eventListSize: nat
    ghost var kernel: map<nat, (Mask, Channel)>
    ghost var known: set<Channel>
    /** What the loop has asked for. */
    ghost var spec: Spec

    ghost function View(): EpollState
      reads this`kernel, this`channels, this`known, known
    {
      EpollState(kernel, channels, map c | c in known :: c.events, map c | c in known :: c.index)
    }

    constructor ()
      ensures Valid() && View() == NO_EPOLL && spec == NO_SPEC && eventListSize == 16
    {
      channels, eventListSize, kernel, known, spec := map[], 16, map[], {}, NO_SPEC;
    }

    /** A channel is created for the loop. */
    method Adopt(fd: nat) returns (c: Channel)
      requires Valid()
      modifies this`known, this`spec
      ensures Valid() && spec == old(spec).(masks := old(spec).masks[c := NONE_EVENT])
      ensures fresh(c) && c.fd == fd && known == old(known) + {c}
      ensures View() == old(View()).(events := old(View()).events[c := NONE_EVENT], index := Meet(old(View()).index, c))
    {
      hide EpollInv, View;
      c := Create(fd);
      EpollAdoptKeeps(old(View()), spec, c);
      spec := spec.(masks := spec.masks[c := NONE_EVENT]);
    }

    method Create(fd: nat) returns (c: Channel)
      modifies this`known
      ensures fresh(c) && c.fd == fd && known == old(known) + {c}
      ensures c !in old(View()).events && c !in old(View()).index
      ensures View() == old(View()).(events := old(View()).events[c := NONE_EVENT], index := old(View()).index[c := -1])
    {
      c := new Channel(fd);
      known := known + {c};
    }

    /** The loop's demands have been met so far, and the invariant holds of the objects. */
    ghost predicate Valid()
      reads this, known
    {
      EpollInv(View(), spec)
    }

    /** One request of the loop, which meets the demands: the channel's events change first, then the poller is told. */
    method Perform(op: Op)
      requires Valid() && op.channel in known && EpollOpOk(spec, op)
      modifies this, known
      ensures Valid() && known == old(known) && spec == SpecApply(old(spec), op)
      ensures old(EpollOk(View(), op)) && View() == old(EpollApply(View(), op))
    {
      hide Valid, EpollInv, SpecApply, EpollOpOk;
      Allowed(op);
      match op {
        case Update(c, mask) => Request(c, mask);
        case Remove(c) => RemoveChannel(c);
      }
      spec := SpecApply(spec, op);
      Again();
    }

    /** What the machine says of the step. */
    lemma Allowed(op: Op)
      requires Valid() && EpollOpOk(spec, op)
      ensures EpollOk(View(), op) && EpollInv(EpollApply(View(), op), SpecApply(spec, op)) && channels.Values <= known
    {
      hide SpecApply, EpollOk, EpollApply, EpollOpOk;
      EpollStep(View(), spec, op);
    }

    lemma Again()
      requires EpollInv(View(), spec)
      ensures Valid()
    {
    }

    /** A member of Channel such as enableReading, with the update behind it. */
    method Request(channel: Channel, mask: Mask)
      requires channel in known && EpollOk(View(), Update(channel, mask))
      modifies this`kernel, this`channels, channel`events, channel`index
      ensures View() == old(EpollApply(View(), Update(channel, mask)))
    {
      hide EpollUpdateOk, EpollUpdate;
      channel.events := mask;
      assert View().events == SetEvents(old(View()).events, channel, mask) && View().index == Meet(old(View()).index, channel);
      UpdateChannel(channel);
    }

    /** Any run of requests that meets the demands: the objects follow the machine, and afterwards the descriptors
        are watched for exactly the requested events. */
    method Drive(ops: seq<Op>)
      requires Valid() && (forall op :: op in ops ==> op.channel in known) && EpollOpsOk(spec, ops)
      modifies this, known
      ensures Valid() && known == old(known) && spec == SpecRun(old(spec), ops)
      ensures old(EpollRunOk(View(), ops)) && View() == old(EpollRun(View(), ops))
      ensures forall fd, mask :: mask != NONE_EVENT ==> (EpollWatches(View(), fd, mask) <==> Requested(spec, fd, mask))
    {
      hide Valid, View, EpollOk, EpollApply, EpollOpOk, SpecApply;
      AllAllowed(ops);
      var i := 0;
      while i < |ops|
        invariant 0 <= i <= |ops| && Valid() && known == old(known)
        invariant EpollOpsOk(spec, ops[i..]) && SpecRun(spec, ops[i..]) == SpecRun(old(spec), ops)
        invariant EpollRunOk(View(), ops[i..]) && EpollRun(View(), ops[i..]) == old(EpollRun(View(), ops))
      {
        assert ops[i..][0] == ops[i] && ops[i..][1..] == ops[i + 1..];
        Perform(ops[i]);
        i := i + 1;
      }
      Watched();
    }

    lemma AllAllowed(ops: seq<Op>)
      requires Valid() && EpollOpsOk(spec, ops)
      ensures EpollRunOk(View(), ops)
    {
      hide View, EpollInv;
      EpollRunKeepsInv(View(), spec, ops);
    }

    lemma Watched()
      requires Valid()
      ensures forall fd, mask :: mask != NONE_EVENT ==> (EpollWatches(View(), fd, mask) <==> Requested(spec, fd, mask))
    {
      hide EpollInv, EpollWatches, Requested, View;
      forall fd, mask | mask != NONE_EVENT
        ensures EpollWatches(View(), fd, mask) <==> Requested(spec, fd, mask)
      {
        EpollWatchesRequested(View(), spec, fd, mask);
      }
    }

    /** update: one epoll_ctl(2), which the kernel accepts. */
    method Control(op: CtlOp, channel: Channel)
      requires CtlOk(kernel, op, channel.fd)
      modifies this`kernel
      ensures kernel == Ctl(old(kernel), op, channel, channel.events)
    {
      kernel := Ctl(kernel, op, channel, channel.events);
    }

    method UpdateChannel(channel: Channel)
      requires EpollUpdateOk(View(), channel)
      modifies this`kernel, this`channels, channel`index
      ensures View() == EpollUpdate(old(View()), channel)
      ensures channel.fd in kernel <==> old(channel.index) != ADDED || channel.events != NONE_EVENT
      ensures channel.fd in kernel ==> kernel[channel.fd] == (channel.events, channel)
    {
      ghost var before := View();
      var index := channel.index;
      if index == NEW || index == DELETED {
        if index == NEW {
          assert channel.fd !in channels;
          channels := channels[channel.fd := channel];
        } else {
          assert channel.fd in channels && channels[channel.fd] == channel;
        }
        channel.index := ADDED;
        Control(Add, channel);
      } else {
        assert channel.fd in channels && channels[channel.fd] == channel && index == ADDED;
        if channel.IsNoneEvent() {
          Control(Del, channel);
          channel.index := DELETED;
        } else {
          Control(Mod, channel);
        }
      }
      assert channels == before.channels[channel.fd := channel];
      assert View().index == EpollUpdate(before, channel).index;
      assert View().events == before.events;
    }

    method RemoveChannel(channel: Channel)
      requires EpollRemoveOk(View(), channel)
      modifies this`kernel, this`channels, channel`index
      ensures View() == EpollRemove(old(View()), channel)
    {
      ghost var before := View();
      assert channel.fd in channels && channels[channel.fd] == channel && channel.IsNoneEvent();
      var index := channel.index;
      channels := channels - {channel.fd};
      if index == ADDED {
        Control(Del, channel);
      }
      channel.index := NEW;
      assert View().index == EpollRemove(before, channel).index;
      assert View().events == before.events;
    }

    /** poll with fillActiveChannels: the kernel reports members of its interest set, no more than fit the list,
        each descriptor once. A full list is doubled for the next call. */
    method Poll(result: PollResult<(Mask, Channel)>) returns (activeChannels: seq<Channel>)
      requires result.Ready? ==> |result.reports| <= eventListSize
      requires result.Ready? ==>
                 forall i :: 0 <= i < |result.reports| ==>
                   result.reports[i].1.fd in kernel && kernel[result.reports[i].1.fd].1 == result.reports[i].1
      requires result.Ready? ==> forall i, j :: 0 <= i < j < |result.reports| ==> result.reports[i].1 != result.reports[j].1
      requires forall fd :: fd in kernel ==> fd in channels && channels[fd] == kernel[fd].1
      modifies this`eventListSize, channels.Values`revents
      ensures result.Error? ==> activeChannels == []
      ensures result.Ready? ==> |activeChannels| == |result.reports|
      ensures forall i :: 0 <= i < |activeChannels| ==>
                activeChannels[i] == result.reports[i].1 && activeChannels[i].revents == result.reports[i].0
      ensures eventListSize == if result.Ready? && |result.reports| == old(eventListSize) then 2 * old(eventListSize) else old(eventListSize)
    {
      activeChannels := [];
      if result.Ready? && |result.reports| > 0 {
        var numEvents := |result.reports|;
        for i := 0 to numEvents
          invariant |activeChannels| == i && eventListSize == old(eventListSize)
          invariant forall j :: 0 <= j < i ==> activeChannels[j] == result.reports[j].1 && activeChannels[j].revents == result.reports[j].0
        {
          var (events, channel) := result.reports[i];
          assert channel.fd in channels && channels[channel.fd] == channel && channel in channels.Values;
          channel.revents := events;
          activeChannels := activeChannels + [channel];
        }
        if numEvents == eventListSize {
          eventListSize := eventListSize * 2;
        }
      }
    }
  }
}
