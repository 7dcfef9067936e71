/** The `std::sync::mpsc` channel between native handlers and the host loop.
    Every send and receive happens on the host's one thread, so the channel
    is a first-in first-out queue. */
module Mpsc {
  import opened Wrappers

  class Channel<T> {
    /** Messages sent and not yet received, oldest first. */
    var pending: seq<T>

    constructor ()
      ensures pending == []
    {
      pending := [];
    }

    /** `Sender::send`: the message joins the back of the queue. */
    method Send(m: T)
      modifies this
      ensures pending == old(pending) + [m]
    {
      pending := pending + [m];
    }

    /** `Receiver::try_recv`: the oldest message, or nothing when the queue is
        empty; never waits. */
    method TryRecv() returns (m: Option<T>)
      modifies this
      ensures old(pending) == [] ==> m == None && pending == []
      ensures old(pending) != [] ==> m == Some(old(pending)[0]) && pending == old(pending)[1..]
    {
      if pending == [] {
        m := None;
      } else {
        m := Some(pending[0]);
        pending := pending[1..];
      }
    }
  }
}
