/** net/Channel.h: one file descriptor, the events asked for on it, and the poller's index for it. */
module Channel {
  /** poll(2) event masks: 15 bits, a non-negative short. */
  type Mask = bv15

  const POLLIN: Mask := 1
  const POLLPRI: Mask := 2
  const POLLOUT: Mask := 4

  const NONE_EVENT: Mask := 0
  const READ_EVENT: Mask := POLLIN | POLLPRI
  const WRITE_EVENT: Mask := POLLOUT

  class Channel {
    const fd: nat
    var events: Mask
    var revents: Mask
    var index: int

    constructor (fd: nat)
      ensures this.fd == fd && events == NONE_EVENT && index == -1
    {
      this.fd, events, revents, index := fd, NONE_EVENT, 0, -1;
    }

    predicate IsNoneEvent()
      reads this
    {
      events == NONE_EVENT
    }

    predicate IsReading()
      reads this
    {
      events & READ_EVENT != 0
    }

    predicate IsWriting()
      reads this
    {
      events & WRITE_EVENT != 0
    }

    // Each of these is followed by update(), which is updateChannel of the loop's poller.

    method EnableReading()
      modifies this`events
      ensures IsReading() && IsWriting() == old(IsWriting())
      ensures events & !READ_EVENT == old(events) & !READ_EVENT && events & READ_EVENT == READ_EVENT
      ensures events & POLLIN != 0 && events & POLLPRI != 0 && events & POLLOUT == old(events) & POLLOUT
    {
      events := events | READ_EVENT;
    }

    method DisableReading()
      modifies this`events
      ensures !IsReading() && IsWriting() == old(IsWriting())
      ensures events & POLLIN == 0 && events & POLLPRI == 0 && events & POLLOUT == old(events) & POLLOUT
      ensures events & !READ_EVENT == old(events) & !READ_EVENT
    {
      events := events & !READ_EVENT;
    }

    method EnableWriting()
      modifies this`events
      ensures IsWriting() && IsReading() == old(IsReading())
      ensures events & POLLOUT != 0 && events & POLLIN == old(events) & POLLIN && events & POLLPRI == old(events) & POLLPRI
      ensures events & !WRITE_EVENT == old(events) & !WRITE_EVENT
    {
      events := events | WRITE_EVENT;
    }

    method DisableWriting()
      modifies this`events
      ensures !IsWriting() && IsReading() == old(IsReading())
      ensures events & POLLOUT == 0 && events & POLLIN == old(events) & POLLIN && events & POLLPRI == old(events) & POLLPRI
      ensures events & !WRITE_EVENT == old(events) & !WRITE_EVENT
    {
      events := events & !WRITE_EVENT;
    }

    method DisableAll()
      modifies this`events
      ensures IsNoneEvent() && !IsReading() && !IsWriting()
    {
      events := NONE_EVENT;
    }
  }
}
