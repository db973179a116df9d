/** A `std::sync::mpsc` channel seen from one thread: the messages sent and
    not yet received, in order, and whether the receiving end still
    exists. */
module Channel {
  import opened Wrappers

  class Channel<T> {
    /** Messages sent and not yet received, oldest first. */
    var queue: seq<T>
    /** False once the receiver has been dropped; every send then fails. */
    var receiverAlive: bool

    constructor ()
      ensures queue == [] && receiverAlive
    {
      queue := [];
      receiverAlive := true;
    }

    /** `Sender::send`: appends the message, or fails and leaves the
        queue as it was when nobody can receive it. */
    method Send(msg: T) returns (ok: bool)
      modifies this
      ensures ok == receiverAlive
      ensures receiverAlive == old(receiverAlive)
      ensures queue == if ok then old(queue) + [msg] else old(queue)
    {
      ok := receiverAlive;
      if ok {
        queue := queue + [msg];
      }
    }

    /** `Receiver::try_recv`: takes the oldest message, if there is one. */
    method TryRecv() returns (msg: Option<T>)
      modifies this
      ensures receiverAlive == old(receiverAlive)
      ensures old(queue) == [] ==> msg.None? && queue == []
      ensures old(queue) != [] ==> msg == Some(old(queue)[0]) && queue == old(queue)[1..]
    {
      if queue == [] {
        msg := None;
      } else {
        msg := Some(queue[0]);
        queue := queue[1..];
      }
    }
  }
}
