/** net/poller/PollPoller.cpp and net/poller/EPollPoller.cpp as functions on their data, beside the plain map from
    file descriptors to requested events that both stand for. */
module PollerMachine {
  import opened Channel

  // ---- What is asked of a poller ----

  datatype Op = Update(channel: Channel, mask: Mask) | Remove(channel: Channel)

  datatype Spec = Spec(
    registered: map<nat, Channel>,
    masks: map<Channel, Mask>,      // the events of every channel seen so far
    bare: set<Channel>,             // first registered with no events, and not updated since
    removed: set<Channel>)

  predicate Registered(channels: map<nat, Channel>, c: Channel) {
    c.fd in channels && channels[c.fd] == c
  }

  /** What the pollers demand of the loop: one channel for each descriptor; a channel that is removed asks for
      nothing and has been updated since its first registration, if that asked for nothing; and a removed
      channel does not come back. */
  predicate OpOk(spec: Spec, op: Op) {
    match op
    case Update(c, mask) => Registered(spec.registered, c) || (c.fd !in spec.registered && c !in spec.removed)
    case Remove(c) => Registered(spec.registered, c) && c in spec.masks && spec.masks[c] == NONE_EVENT && c !in spec.bare
  }

  function SpecApply(spec: Spec, op: Op): Spec {
    match op
    case Update(c, mask) =>
      Spec(spec.registered[c.fd := c], spec.masks[c := mask],
           if !Registered(spec.registered, c) && mask == NONE_EVENT then spec.bare + {c} else spec.bare - {c}, spec.removed)
    case Remove(c) => spec.(registered := spec.registered - {c.fd}, removed := spec.removed + {c})
  }

  /** The descriptor has these events requested. */
  predicate Requested(spec: Spec, fd: nat, mask: Mask) {
    fd in spec.registered && spec.registered[fd] in spec.masks && spec.masks[spec.registered[fd]] == mask
  }

  // ---- PollPoller ----

  datatype PollFd = PollFd(fd: int, events: Mask, revents: Mask)

  datatype PollState = PollState(
    pollfds: seq<PollFd>,
    channels: map<nat, Channel>,
    events: map<Channel, Mask>,     // the fields of the channels
    index: map<Channel, int>)

  /** How poll(2) is told to ignore an entry; also for descriptor 0. */
  function Hidden(fd: int): int {
    -fd - 1
  }

  /** The descriptor of an entry, ignored or not. */
  function FdOf(pfd: PollFd): nat {
    if pfd.fd < 0 then -pfd.fd - 1 else pfd.fd
  }

  /** The assertions of PollPoller::updateChannel. */
  predicate PollUpdateOk(s: PollState, c: Channel) {
    && c in s.index && c in s.events
    && if s.index[c] < 0 then c.fd !in s.channels
       else Registered(s.channels, c) && s.index[c] < |s.pollfds| && FdOf(s.pollfds[s.index[c]]) == c.fd
  }

  function PollUpdate(s: PollState, c: Channel): PollState
    requires PollUpdateOk(s, c)
  {
    if s.index[c] < 0 then
      s.(pollfds := s.pollfds + [PollFd(c.fd, s.events[c], 0)], index := s.index[c := |s.pollfds|],
         channels := s.channels[c.fd := c])
    else
      var fd := if s.events[c] == NONE_EVENT then Hidden(c.fd) else c.fd;
      s.(pollfds := s.pollfds[s.index[c] := PollFd(fd, s.events[c], 0)])
  }

  /** The assertions of PollPoller::removeChannel, and that the entry swapped in belongs to a channel. */
  predicate PollRemoveOk(s: PollState, c: Channel) {
    && c in s.index && c in s.events && Registered(s.channels, c) && s.events[c] == NONE_EVENT
    && 0 <= s.index[c] < |s.pollfds|
    && s.pollfds[s.index[c]].fd == Hidden(c.fd) && s.pollfds[s.index[c]].events == s.events[c]
    && (s.index[c] < |s.pollfds| - 1 ==> FdOf(s.pollfds[|s.pollfds| - 1]) in s.channels - {c.fd})
  }

  function PollRemove(s: PollState, c: Channel): PollState
    requires PollRemoveOk(s, c)
  {
    var idx, last := s.index[c], |s.pollfds| - 1;
    var channels := s.channels - {c.fd};
    if idx == last then s.(channels := channels, pollfds := s.pollfds[..last])
    else
      var end := s.pollfds[last];
      s.(channels := channels, pollfds := s.pollfds[idx := end][..last], index := s.index[channels[FdOf(end)] := idx])
  }

  function SetEvents(events: map<Channel, Mask>, c: Channel, mask: Mask): map<Channel, Mask> {
    events[c := mask]
  }

  /** A channel object that the loop has not seen has index -1. */
  function Meet(index: map<Channel, int>, c: Channel): map<Channel, int> {
    if c in index then index else index[c := -1]
  }

  predicate PollOk(s: PollState, op: Op) {
    match op
    case Update(c, mask) => PollUpdateOk(s.(events := SetEvents(s.events, c, mask), index := Meet(s.index, c)), c)
    case Remove(c) => PollRemoveOk(s, c)
  }

  function PollApply(s: PollState, op: Op): PollState
    requires PollOk(s, op)
  {
    match op
    case Update(c, mask) => PollUpdate(s.(events := SetEvents(s.events, c, mask), index := Meet(s.index, c)), c)
    case Remove(c) => PollRemove(s, c)
  }

  /** poll(2) is given the descriptor with these events. */
  predicate PollWatches(s: PollState, fd: nat, mask: Mask) {
    exists i :: 0 <= i < |s.pollfds| && s.pollfds[i].fd == fd && s.pollfds[i].events == mask
  }

  // ---- EPollPoller ----

  const NEW := -1
  const ADDED := 1
  const DELETED := 2

  datatype CtlOp = Add | Mod | Del

  datatype EpollState = EpollState(
    kernel: map<nat, (Mask, Channel)>,    // the interest set of the epoll instance
    channels: map<nat, Channel>,
    events: map<Channel, Mask>,
    index: map<Channel, int>)

  /** epoll_ctl(2) accepts the operation: EEXIST and ENOENT otherwise. */
  predicate CtlOk(kernel: map<nat, (Mask, Channel)>, op: CtlOp, fd: nat) {
    op.Add? <==> fd !in kernel
  }

  function Ctl(kernel: map<nat, (Mask, Channel)>, op: CtlOp, c: Channel, mask: Mask): map<nat, (Mask, Channel)> {
    if op.Del? then kernel - {c.fd} else kernel[c.fd := (mask, c)]
  }

  /** Which operation EPollPoller::updateChannel issues. */
  function UpdateCtl(s: EpollState, c: Channel): CtlOp
    requires c in s.index && c in s.events
  {
    if s.index[c] == NEW || s.index[c] == DELETED then Add else if s.events[c] == NONE_EVENT then Del else Mod
  }

  /** The assertions of EPollPoller::updateChannel, and that the kernel accepts its operation. */
  predicate EpollUpdateOk(s: EpollState, c: Channel) {
    && c in s.index && c in s.events && s.index[c] in {NEW, ADDED, DELETED}
    && (if s.index[c] == NEW then c.fd !in s.channels else Registered(s.channels, c))
    && CtlOk(s.kernel, UpdateCtl(s, c), c.fd)
  }

  function EpollUpdate(s: EpollState, c: Channel): EpollState
    requires EpollUpdateOk(s, c)
  {
    var op := UpdateCtl(s, c);
    s.(channels := s.channels[c.fd := c], kernel := Ctl(s.kernel, op, c, s.events[c]),
       index := s.index[c := if op.Del? then DELETED else ADDED])
  }

  /** The assertions of EPollPoller::removeChannel, and that the kernel accepts its operation. */
  predicate EpollRemoveOk(s: EpollState, c: Channel) {
    && c in s.index && c in s.events && Registered(s.channels, c) && s.events[c] == NONE_EVENT
    && (s.index[c] == ADDED || s.index[c] == DELETED)
    && (s.index[c] == ADDED ==> CtlOk(s.kernel, Del, c.fd))
  }

  function EpollRemove(s: EpollState, c: Channel): EpollState
    requires EpollRemoveOk(s, c)
  {
    s.(channels := s.channels - {c.fd}, index := s.index[c := NEW],
       kernel := if s.index[c] == ADDED then Ctl(s.kernel, Del, c, NONE_EVENT) else s.kernel)
  }

  predicate EpollOk(s: EpollState, op: Op) {
    match op
    case Update(c, mask) => EpollUpdateOk(s.(events := SetEvents(s.events, c, mask), index := Meet(s.index, c)), c)
    case Remove(c) => EpollRemoveOk(s, c)
  }

  function EpollApply(s: EpollState, op: Op): EpollState
    requires EpollOk(s, op)
  {
    match op
    case Update(c, mask) => EpollUpdate(s.(events := SetEvents(s.events, c, mask), index := Meet(s.index, c)), c)
    case Remove(c) => EpollRemove(s, c)
  }

  predicate EpollWatches(s: EpollState, fd: nat, mask: Mask) {
    fd in s.kernel && s.kernel[fd].0 == mask
  }

  // ---- Invariants ----

  /** Back-indices: every registered channel points at its own entry, which holds its events and is ignored
      exactly when it has been left without events; and every entry is some registered channel's. */
  ghost predicate IndexOk(pollfds: seq<PollFd>, channels: map<nat, Channel>, index: map<Channel, int>) {
    && (forall fd :: fd in channels ==>
          && channels[fd].fd == fd && channels[fd] in index
          && 0 <= index[channels[fd]] < |pollfds| && FdOf(pollfds[index[channels[fd]]]) == fd)
    && (forall i :: 0 <= i < |pollfds| ==>
          FdOf(pollfds[i]) in channels && channels[FdOf(pollfds[i])] in index && index[channels[FdOf(pollfds[i])]] == i)
  }

  ghost predicate EntriesOk(pollfds: seq<PollFd>, channels: map<nat, Channel>, events: map<Channel, Mask>, bare: set<Channel>) {
    forall i :: 0 <= i < |pollfds| ==>
      var pfd := pollfds[i];
      FdOf(pfd) in channels &&
      var c := channels[FdOf(pfd)];
      c in events && pfd.events == events[c] && (pfd.fd < 0 <==> events[c] == NONE_EVENT && c !in bare)
  }

  /** Channels outside the map are unknown, new, or removed with the stale index they had. */
  ghost predicate StrangersOk(channels: map<nat, Channel>, index: map<Channel, int>, removed: set<Channel>) {
    && (forall c :: c in removed ==> c in index && 0 <= index[c] && !Registered(channels, c))
    && (forall c :: c in index ==> index[c] >= -1 && (0 <= index[c] ==> c in removed || Registered(channels, c)))
  }

  ghost predicate PollInv(s: PollState, spec: Spec) {
    && s.channels == spec.registered && s.events == spec.masks
    && IndexOk(s.pollfds, s.channels, s.index)
    && EntriesOk(s.pollfds, s.channels, s.events, spec.bare)
    && StrangersOk(s.channels, s.index, spec.removed)
  }

  /** The kernel holds exactly the registered channels marked as added, with their events; the others that are
      registered are marked as deleted and ask for nothing; a channel outside the map is marked as new. */
  ghost predicate EpollInv(s: EpollState, spec: Spec) {
    && s.channels == spec.registered && s.events == spec.masks
    && (forall fd :: fd in s.channels ==> s.channels[fd].fd == fd && KernelOk(s, s.channels[fd]))
    && (forall fd :: fd in s.kernel ==> fd in s.channels)
    && (forall c :: c in s.index && !Registered(s.channels, c) ==> s.index[c] == NEW)
  }

  predicate KernelOk(s: EpollState, c: Channel) {
    && c in s.index && c in s.events
    && (s.index[c] == ADDED || s.index[c] == DELETED)
    && (s.index[c] == ADDED ==> c.fd in s.kernel && s.kernel[c.fd] == (s.events[c], c))
    && (s.index[c] == DELETED ==> c.fd !in s.kernel && s.events[c] == NONE_EVENT)
  }

  // ---- PollPoller keeps its invariant ----

  lemma RegisterKeepsIndex(pollfds: seq<PollFd>, channels: map<nat, Channel>, index: map<Channel, int>, c: Channel, pfd: PollFd)
    requires IndexOk(pollfds, channels, index) && c.fd !in channels && FdOf(pfd) == c.fd
    ensures IndexOk(pollfds + [pfd], channels[c.fd := c], index[c := |pollfds|])
  {
  }

  lemma ReplaceKeepsIndex(pollfds: seq<PollFd>, channels: map<nat, Channel>, index: map<Channel, int>, i: nat, pfd: PollFd)
    requires IndexOk(pollfds, channels, index) && i < |pollfds| && FdOf(pfd) == FdOf(pollfds[i])
    ensures IndexOk(pollfds[i := pfd], channels, index)
  {
  }

  lemma PopKeepsIndex(pollfds: seq<PollFd>, channels: map<nat, Channel>, index: map<Channel, int>, c: Channel)
    requires IndexOk(pollfds, channels, index) && Registered(channels, c) && index[c] == |pollfds| - 1
    ensures IndexOk(pollfds[..|pollfds| - 1], channels - {c.fd}, index)
  {
    var shorter := pollfds[..|pollfds| - 1];
    forall i | 0 <= i < |shorter|
      ensures FdOf(shorter[i]) in channels - {c.fd}
    {
      assert shorter[i] == pollfds[i];
    }
  }

  /** The entry at the end takes the place of the removed one, and its channel's index follows. */
  lemma SwapKeepsIndex(pollfds: seq<PollFd>, channels: map<nat, Channel>, index: map<Channel, int>, c: Channel)
    requires IndexOk(pollfds, channels, index) && Registered(channels, c) && index[c] < |pollfds| - 1
    ensures var end := pollfds[|pollfds| - 1];
            && FdOf(end) in channels - {c.fd}
            && IndexOk(pollfds[index[c] := end][..|pollfds| - 1], channels - {c.fd}, index[channels[FdOf(end)] := index[c]])
  {
    var last := |pollfds| - 1;
    var end := pollfds[last];
    var moved := pollfds[index[c] := end][..last];
    forall i | 0 <= i < last
      ensures moved[i] == if i == index[c] then end else pollfds[i]
    {
    }
    assert FdOf(end) != c.fd;
    forall i | 0 <= i < last
      ensures FdOf(moved[i]) in channels - {c.fd}
    {
      assert FdOf(pollfds[i]) in channels && FdOf(pollfds[last]) in channels;
    }
  }

  lemma RegisterKeepsEntries(pollfds: seq<PollFd>, channels: map<nat, Channel>, index: map<Channel, int>,
                             events: map<Channel, Mask>, bare: set<Channel>, c: Channel, mask: Mask)
    requires EntriesOk(pollfds, channels, events, bare) && IndexOk(pollfds, channels, index) && c.fd !in channels
    ensures EntriesOk(pollfds + [PollFd(c.fd, mask, 0)], channels[c.fd := c], events[c := mask],
                      if mask == NONE_EVENT then bare + {c} else bare - {c})
  {
  }

  lemma ReplaceKeepsEntries(pollfds: seq<PollFd>, channels: map<nat, Channel>, index: map<Channel, int>,
                            events: map<Channel, Mask>, bare: set<Channel>, c: Channel, mask: Mask)
    requires EntriesOk(pollfds, channels, events, bare) && IndexOk(pollfds, channels, index) && Registered(channels, c)
    ensures EntriesOk(pollfds[index[c] := PollFd(if mask == NONE_EVENT then Hidden(c.fd) else c.fd, mask, 0)],
                      channels[c.fd := c], events[c := mask], bare - {c})
  {
  }

  lemma PopKeepsEntries(pollfds: seq<PollFd>, channels: map<nat, Channel>, index: map<Channel, int>,
                        events: map<Channel, Mask>, bare: set<Channel>, c: Channel)
    requires EntriesOk(pollfds, channels, events, bare) && IndexOk(pollfds, channels, index) && Registered(channels, c)
    requires index[c] == |pollfds| - 1
    ensures EntriesOk(pollfds[..|pollfds| - 1], channels - {c.fd}, events, bare)
  {
  }

  lemma SwapKeepsEntries(pollfds: seq<PollFd>, channels: map<nat, Channel>, index: map<Channel, int>,
                         events: map<Channel, Mask>, bare: set<Channel>, c: Channel)
    requires EntriesOk(pollfds, channels, events, bare) && IndexOk(pollfds, channels, index) && Registered(channels, c)
    requires index[c] < |pollfds| - 1
    ensures EntriesOk(pollfds[index[c] := pollfds[|pollfds| - 1]][..|pollfds| - 1], channels - {c.fd}, events, bare)
  {
    var last := |pollfds| - 1;
    var moved := pollfds[index[c] := pollfds[last]][..last];
    forall i | 0 <= i < last
      ensures exists j :: 0 <= j <= last && j != index[c] && moved[i] == pollfds[j]
    {
      var j := if i == index[c] then last else i;
      assert moved[i] == pollfds[j];
    }
  }

  lemma RegisterKeepsStrangers(channels: map<nat, Channel>, index: map<Channel, int>, removed: set<Channel>, c: Channel, i: nat)
    requires StrangersOk(channels, index, removed) && c.fd !in channels && c !in removed
    ensures c in index ==> index[c] == -1
    ensures StrangersOk(channels[c.fd := c], index[c := i], removed)
  {
  }

  /** A removed channel keeps the index it had; another's may change. */
  lemma RemoveKeepsStrangers(channels: map<nat, Channel>, index: map<Channel, int>, removed: set<Channel>, c: Channel)
    requires StrangersOk(channels, index, removed) && Registered(channels, c) && c in index && 0 <= index[c]
    ensures StrangersOk(channels - {c.fd}, index, removed + {c})
  {
  }

  lemma MoveKeepsStrangers(channels: map<nat, Channel>, index: map<Channel, int>, removed: set<Channel>, c: Channel, i: nat)
    requires StrangersOk(channels, index, removed) && Registered(channels, c)
    ensures StrangersOk(channels, index[c := i], removed)
  {
  }

  /** A first registration passes the source's assertions and keeps the invariant. */
  lemma RegisterKeepsPoll(s: PollState, spec: Spec, c: Channel, mask: Mask)
    requires PollInv(s, spec) && c.fd !in s.channels && c !in spec.removed
    ensures PollOk(s, Update(c, mask)) && PollInv(PollApply(s, Update(c, mask)), SpecApply(spec, Update(c, mask)))
  {
    hide IndexOk, EntriesOk, StrangersOk;
    RegisterKeepsIndex(s.pollfds, s.channels, s.index, c, PollFd(c.fd, mask, 0));
    RegisterKeepsEntries(s.pollfds, s.channels, s.index, s.events, spec.bare, c, mask);
    RegisterKeepsStrangers(s.channels, s.index, spec.removed, c, |s.pollfds|);
    assert Meet(s.index, c)[c := |s.pollfds|] == s.index[c := |s.pollfds|];
  }

  /** Where the entry of a registered channel is. */
  lemma EntryOf(pollfds: seq<PollFd>, channels: map<nat, Channel>, index: map<Channel, int>,
                events: map<Channel, Mask>, bare: set<Channel>, c: Channel)
    requires IndexOk(pollfds, channels, index) && EntriesOk(pollfds, channels, events, bare) && Registered(channels, c)
    ensures c in index && 0 <= index[c] < |pollfds| && FdOf(pollfds[index[c]]) == c.fd
    ensures c in events && pollfds[index[c]].events == events[c]
    ensures pollfds[index[c]].fd < 0 <==> events[c] == NONE_EVENT && c !in bare
  {
  }

  lemma ReplaceKeepsPoll(s: PollState, spec: Spec, c: Channel, mask: Mask)
    requires PollInv(s, spec) && Registered(s.channels, c)
    ensures PollOk(s, Update(c, mask)) && PollInv(PollApply(s, Update(c, mask)), SpecApply(spec, Update(c, mask)))
  {
    hide IndexOk, EntriesOk, StrangersOk;
    EntryOf(s.pollfds, s.channels, s.index, s.events, spec.bare, c);
    ReplaceKeepsIndex(s.pollfds, s.channels, s.index, s.index[c], PollFd(if mask == NONE_EVENT then Hidden(c.fd) else c.fd, mask, 0));
    ReplaceKeepsEntries(s.pollfds, s.channels, s.index, s.events, spec.bare, c, mask);
    assert s.channels[c.fd := c] == s.channels;
  }

  lemma RemoveKeepsPoll(s: PollState, spec: Spec, c: Channel)
    requires PollInv(s, spec) && OpOk(spec, Remove(c))
    ensures PollOk(s, Remove(c)) && PollInv(PollApply(s, Remove(c)), SpecApply(spec, Remove(c)))
  {
    hide IndexOk, EntriesOk, StrangersOk;
    EntryOf(s.pollfds, s.channels, s.index, s.events, spec.bare, c);
    RemoveKeepsStrangers(s.channels, s.index, spec.removed, c);
    if s.index[c] == |s.pollfds| - 1 {
      PopKeepsIndex(s.pollfds, s.channels, s.index, c);
      PopKeepsEntries(s.pollfds, s.channels, s.index, s.events, spec.bare, c);
    } else {
      SwapKeepsIndex(s.pollfds, s.channels, s.index, c);
      SwapKeepsEntries(s.pollfds, s.channels, s.index, s.events, spec.bare, c);
      var channels := s.channels - {c.fd};
      var moved := channels[FdOf(s.pollfds[|s.pollfds| - 1])];
      KeyIsFd(s.pollfds, s.channels, s.index, FdOf(s.pollfds[|s.pollfds| - 1]));
      MoveKeepsStrangers(channels, s.index, spec.removed + {c}, moved, s.index[c]);
    }
  }

  lemma KeyIsFd(pollfds: seq<PollFd>, channels: map<nat, Channel>, index: map<Channel, int>, fd: nat)
    requires IndexOk(pollfds, channels, index) && fd in channels
    ensures channels[fd].fd == fd
  {
  }

  /** PollPoller's assertions hold for an operation exactly when the loop meets its demands, and then the entries
      and back-indices stay correct. */
  lemma PollStep(s: PollState, spec: Spec, op: Op)
    requires PollInv(s, spec)
    ensures PollOk(s, op) <==> OpOk(spec, op)
    ensures OpOk(spec, op) ==> PollInv(PollApply(s, op), SpecApply(spec, op))
  {
    hide PollApply, SpecApply;
    match op
    case Update(c, mask) =>
      if Registered(s.channels, c) {
        ReplaceKeepsPoll(s, spec, c, mask);
      } else if c.fd !in s.channels && c !in spec.removed {
        RegisterKeepsPoll(s, spec, c, mask);
      } else {
        assert c in spec.removed ==> 0 <= s.index[c];
        hide IndexOk, EntriesOk;
      }
    case Remove(c) =>
      if OpOk(spec, op) {
        RemoveKeepsPoll(s, spec, c);
      } else if Registered(s.channels, c) {
        hide IndexOk, EntriesOk, StrangersOk;
        EntryOf(s.pollfds, s.channels, s.index, s.events, spec.bare, c);
      }
  }

  // ---- EPollPoller keeps its invariant ----

  /** EPollPoller asks less: a removed channel may come back, and one registered with no events may go. */
  predicate EpollOpOk(spec: Spec, op: Op) {
    match op
    case Update(c, mask) => Registered(spec.registered, c) || c.fd !in spec.registered
    case Remove(c) => Registered(spec.registered, c) && c in spec.masks && spec.masks[c] == NONE_EVENT
  }

  /** Its assertions hold and the kernel accepts its ADD, MOD or DEL exactly then, and the interest set stays
      that of the registered channels. */
  lemma EpollStep(s: EpollState, spec: Spec, op: Op)
    requires EpollInv(s, spec)
    ensures EpollOk(s, op) <==> EpollOpOk(spec, op)
    ensures EpollOpOk(spec, op) ==> EpollInv(EpollApply(s, op), SpecApply(spec, op))
  {
    match op
    case Update(c, mask) =>
      if EpollOpOk(spec, op) {
        assert c.fd !in s.channels ==> c.fd !in s.kernel;
        assert Registered(s.channels, c) ==> KernelOk(s, c);
        assert EpollOk(s, op);
        EpollUpdateKeeps(s, spec, c, mask);
      } else {
        assert c in s.index ==> s.index[c] == NEW;
      }
    case Remove(c) =>
      if EpollOpOk(spec, op) {
        assert KernelOk(s, c);
        assert EpollOk(s, op);
        EpollRemoveKeeps(s, spec, c);
      }
  }

  /** Which descriptors the kernel holds after an update: the channel's, with its events, unless these are none and the
      kernel held it; the others as before. So a channel told twice that it asks for nothing is back in the kernel. */
  lemma EpollUpdateExactly(s: EpollState, spec: Spec, c: Channel, mask: Mask)
    requires EpollInv(s, spec) && EpollOpOk(spec, Update(c, mask))
    ensures EpollOk(s, Update(c, mask))
    ensures var t := EpollApply(s, Update(c, mask));
            && (c.fd in t.kernel <==> mask != NONE_EVENT || c.fd !in s.kernel)
            && (c.fd in t.kernel ==> t.kernel[c.fd] == (mask, c))
            && (forall fd :: fd != c.fd ==> (fd in t.kernel <==> fd in s.kernel) && (fd in t.kernel ==> t.kernel[fd] == s.kernel[fd]))
  {
    EpollStep(s, spec, Update(c, mask));
    if Registered(s.channels, c) {
      assert KernelOk(s, c);
    }
  }

  lemma UpdateMakesKernelOk(s: EpollState, c: Channel, mask: Mask)
    requires EpollOk(s, Update(c, mask))
    ensures KernelOk(EpollApply(s, Update(c, mask)), c)
  {
  }

  lemma UpdateKeepsKernelOk(s: EpollState, c: Channel, mask: Mask, d: Channel)
    requires EpollOk(s, Update(c, mask)) && KernelOk(s, d) && d.fd != c.fd
    ensures KernelOk(EpollApply(s, Update(c, mask)), d)
  {
  }

  lemma EpollUpdateKeeps(s: EpollState, spec: Spec, c: Channel, mask: Mask)
    requires EpollInv(s, spec) && EpollOk(s, Update(c, mask)) && EpollOpOk(spec, Update(c, mask))
    ensures EpollInv(EpollApply(s, Update(c, mask)), SpecApply(spec, Update(c, mask)))
  {
    hide KernelOk;
    var t := EpollApply(s, Update(c, mask));
    UpdateMakesKernelOk(s, c, mask);
    forall fd | fd in t.channels && fd != c.fd
      ensures t.channels[fd].fd == fd && KernelOk(t, t.channels[fd])
    {
      UpdateKeepsKernelOk(s, c, mask, s.channels[fd]);
    }
  }

  lemma EpollRemoveKeeps(s: EpollState, spec: Spec, c: Channel)
    requires EpollInv(s, spec) && EpollOk(s, Remove(c)) && EpollOpOk(spec, Remove(c))
    ensures EpollInv(EpollApply(s, Remove(c)), SpecApply(spec, Remove(c)))
  {
    var t := EpollApply(s, Remove(c));
    forall fd | fd in t.channels
      ensures t.channels[fd].fd == fd && KernelOk(t, t.channels[fd])
    {
      assert KernelOk(s, s.channels[fd]);
    }
  }

  // ---- Both pollers over a whole run ----

  const NO_SPEC := Spec(map[], map[], {}, {})
  const NO_POLL := PollState([], map[], map[], map[])
  const NO_EPOLL := EpollState(map[], map[], map[], map[])

  predicate OpsOk(spec: Spec, ops: seq<Op>)
    decreases |ops|
  {
    ops == [] || (OpOk(spec, ops[0]) && OpsOk(SpecApply(spec, ops[0]), ops[1..]))
  }

  function SpecRun(spec: Spec, ops: seq<Op>): Spec
    decreases |ops|
  {
    if ops == [] then spec else SpecRun(SpecApply(spec, ops[0]), ops[1..])
  }

  /** The assertions of PollPoller hold at every operation of the run. */
  predicate PollRunOk(s: PollState, ops: seq<Op>)
    decreases |ops|
  {
    ops == [] || (PollOk(s, ops[0]) && PollRunOk(PollApply(s, ops[0]), ops[1..]))
  }

  function PollRun(s: PollState, ops: seq<Op>): PollState
    requires PollRunOk(s, ops)
    decreases |ops|
  {
    if ops == [] then s else PollRun(PollApply(s, ops[0]), ops[1..])
  }

  /** The assertions of EPollPoller hold, and the kernel accepts what it issues, at every operation of the run. */
  predicate EpollRunOk(s: EpollState, ops: seq<Op>)
    decreases |ops|
  {
    ops == [] || (EpollOk(s, ops[0]) && EpollRunOk(EpollApply(s, ops[0]), ops[1..]))
  }

  function EpollRun(s: EpollState, ops: seq<Op>): EpollState
    requires EpollRunOk(s, ops)
    decreases |ops|
  {
    if ops == [] then s else EpollRun(EpollApply(s, ops[0]), ops[1..])
  }

  /** A run that meets EPollPoller's demands. */
  predicate EpollOpsOk(spec: Spec, ops: seq<Op>)
    decreases |ops|
  {
    ops == [] || (EpollOpOk(spec, ops[0]) && EpollOpsOk(SpecApply(spec, ops[0]), ops[1..]))
  }

  lemma {:induction false} PollRunKeepsInv(p: PollState, spec: Spec, ops: seq<Op>)
    requires PollInv(p, spec)
    ensures PollRunOk(p, ops) <==> OpsOk(spec, ops)
    ensures OpsOk(spec, ops) ==> PollInv(PollRun(p, ops), SpecRun(spec, ops))
    decreases |ops|
  {
    hide PollInv, PollOk, PollApply, SpecApply;
    if ops == [] {
    } else {
      PollStep(p, spec, ops[0]);
      if OpOk(spec, ops[0]) {
        PollRunKeepsInv(PollApply(p, ops[0]), SpecApply(spec, ops[0]), ops[1..]);
      }
    }
  }

  lemma {:induction false} EpollRunKeepsInv(e: EpollState, spec: Spec, ops: seq<Op>)
    requires EpollInv(e, spec)
    ensures EpollRunOk(e, ops) <==> EpollOpsOk(spec, ops)
    ensures EpollOpsOk(spec, ops) ==> EpollInv(EpollRun(e, ops), SpecRun(spec, ops))
    decreases |ops|
  {
    hide EpollInv, EpollOk, EpollApply, SpecApply, EpollOpOk;
    if ops == [] {
    } else {
      EpollStep(e, spec, ops[0]);
      if EpollOpOk(spec, ops[0]) {
        EpollRunKeepsInv(EpollApply(e, ops[0]), SpecApply(spec, ops[0]), ops[1..]);
      }
    }
  }

  /** What meets PollPoller's demands meets EPollPoller's. */
  lemma {:induction false} PollDemandsMore(spec: Spec, ops: seq<Op>)
    requires OpsOk(spec, ops)
    ensures EpollOpsOk(spec, ops)
    decreases |ops|
  {
    hide SpecApply;
    if ops == [] {
    } else {
      PollDemandsMore(SpecApply(spec, ops[0]), ops[1..]);
    }
  }

  /** Over every run of updates and removals that meets the demands, both pollers' assertions hold, every ADD, MOD
      and DEL is legal for the kernel, and both watch exactly the requested events: for every descriptor and
      every nonempty mask, poll(2) is given it iff epoll holds it iff it is requested. */
  lemma PollersAgree(ops: seq<Op>, fd: nat, mask: Mask)
    requires OpsOk(NO_SPEC, ops) && mask != NONE_EVENT
    ensures PollRunOk(NO_POLL, ops) && EpollRunOk(NO_EPOLL, ops)
    ensures PollWatches(PollRun(NO_POLL, ops), fd, mask) <==> Requested(SpecRun(NO_SPEC, ops), fd, mask)
    ensures EpollWatches(EpollRun(NO_EPOLL, ops), fd, mask) <==> Requested(SpecRun(NO_SPEC, ops), fd, mask)
  {
    NothingRegistered();
    PollRunKeepsInv(NO_POLL, NO_SPEC, ops);
    PollDemandsMore(NO_SPEC, ops);
    EpollRunKeepsInv(NO_EPOLL, NO_SPEC, ops);
    PollWatchesRequested(PollRun(NO_POLL, ops), SpecRun(NO_SPEC, ops), fd, mask);
    EpollWatchesRequested(EpollRun(NO_EPOLL, ops), SpecRun(NO_SPEC, ops), fd, mask);
  }

  /** PollPoller gets through a run exactly when the loop meets its demands throughout. */
  lemma PollRunsExactlyWhenOk(ops: seq<Op>)
    ensures PollRunOk(NO_POLL, ops) <==> OpsOk(NO_SPEC, ops)
  {
    NothingRegistered();
    PollRunKeepsInv(NO_POLL, NO_SPEC, ops);
  }

  /** EPollPoller gets through a run, the kernel accepting all it issues, exactly when the loop meets its weaker
      demands throughout; and it then watches exactly the requested events. */
  lemma EpollRunsExactlyWhenOk(ops: seq<Op>, fd: nat, mask: Mask)
    requires mask != NONE_EVENT
    ensures EpollRunOk(NO_EPOLL, ops) <==> EpollOpsOk(NO_SPEC, ops)
    ensures EpollOpsOk(NO_SPEC, ops) ==>
              (EpollWatches(EpollRun(NO_EPOLL, ops), fd, mask) <==> Requested(SpecRun(NO_SPEC, ops), fd, mask))
  {
    NothingRegistered();
    EpollRunKeepsInv(NO_EPOLL, NO_SPEC, ops);
    if EpollOpsOk(NO_SPEC, ops) {
      EpollWatchesRequested(EpollRun(NO_EPOLL, ops), SpecRun(NO_SPEC, ops), fd, mask);
    }
  }

  lemma NothingRegistered()
    ensures PollInv(NO_POLL, NO_SPEC) && EpollInv(NO_EPOLL, NO_SPEC)
  {
  }

  lemma PollWatchesRequested(s: PollState, spec: Spec, fd: nat, mask: Mask)
    requires PollInv(s, spec) && mask != NONE_EVENT
    ensures PollWatches(s, fd, mask) <==> Requested(spec, fd, mask)
  {
    if Requested(spec, fd, mask) {
      var i := s.index[s.channels[fd]];
      assert s.pollfds[i].fd == fd && s.pollfds[i].events == mask;
    }
  }

  lemma EpollWatchesRequested(s: EpollState, spec: Spec, fd: nat, mask: Mask)
    requires EpollInv(s, spec) && mask != NONE_EVENT
    ensures EpollWatches(s, fd, mask) <==> Requested(spec, fd, mask)
  {
    if fd in s.channels {
      assert KernelOk(s, s.channels[fd]);
    }
  }

  /** A channel that is registered, disabled and removed cannot be registered again with PollPoller, whose stale
      index trips its assertions; EPollPoller takes it back. */
  lemma RemovedChannelComesBack(c: Channel)
    ensures var ops := [Update(c, READ_EVENT), Update(c, NONE_EVENT), Remove(c), Update(c, READ_EVENT)];
            !PollRunOk(NO_POLL, ops) && EpollRunOk(NO_EPOLL, ops)
  {
    var ops := [Update(c, READ_EVENT), Update(c, NONE_EVENT), Remove(c), Update(c, READ_EVENT)];
    PollRunsExactlyWhenOk(ops);
    var s1 := SpecApply(NO_SPEC, ops[0]);
    var s2 := SpecApply(s1, ops[1]);
    var s3 := SpecApply(s2, ops[2]);
    assert !OpOk(s3, ops[3]);
    assert ops[1..][1..] == ops[2..] && ops[2..][1..] == ops[3..];
    assert !OpsOk(s3, ops[3..]) && !OpsOk(s2, ops[2..]) && !OpsOk(s1, ops[1..]);
    assert EpollOpsOk(s3, ops[3..]) && EpollOpsOk(s2, ops[2..]) && EpollOpsOk(s1, ops[1..]);
    EpollRunsExactlyWhenOk(ops, c.fd, READ_EVENT);
  }

  /** A channel registered with no events and then removed trips PollPoller's assertions, not EPollPoller's. */
  lemma BareChannelIsRemoved(c: Channel)
    ensures var ops := [Update(c, NONE_EVENT), Remove(c)]; !PollRunOk(NO_POLL, ops) && EpollRunOk(NO_EPOLL, ops)
  {
    var ops := [Update(c, NONE_EVENT), Remove(c)];
    PollRunsExactlyWhenOk(ops);
    EpollRunsExactlyWhenOk(ops, c.fd, READ_EVENT);
    var s1 := SpecApply(NO_SPEC, ops[0]);
    assert !OpOk(s1, ops[1]) && EpollOpOk(s1, ops[1]);
    assert EpollOpsOk(s1, ops[1..]);
  }
}
