/** One client's bounded output queue: internal/ptysession/attachment.go. */
module Attachments {
  import opened Collections
  import opened Decimal

  const DEFAULT_QUEUE_BYTES := 4 * 1024 * 1024

  datatype CloseReason = ReasonNone | SessionEnded | Detached | Overflow

  datatype Queue = Queue(q: seq<seq<byte>>, queued: int, limit: nat, closed: bool, reason: CloseReason)

  function NewQueue(limit: int): Queue {
    Queue([], 0, if limit <= 0 then DEFAULT_QUEUE_BYTES else limit, false, ReasonNone)
  }

  function Pushed(a: Queue, p: seq<byte>): Queue {
    if p == [] || a.closed then a
    else if a.queued + |p| > a.limit then Queue([], 0, a.limit, true, Overflow)
    else a.(q := a.q + [p], queued := a.queued + |p|)
  }

  function Closed(a: Queue, reason: CloseReason): Queue {
    if a.closed then a else a.(closed := true, reason := reason)
  }

  /** What is left once the oldest piece has been handed over. */
  function Popped(a: Queue): Queue
    requires a.q != []
  {
    a.(q := a.q[1..], queued := a.queued - |a.q[0]|)
  }

  /** The byte count is right and within the limit; only an open or cleanly closed queue holds
      anything; a closed queue has a reason and an open one does not. */
  predicate QueueOk(a: Queue) {
    && a.queued == |Joined(a.q)| <= a.limit
    && (a.closed <==> a.reason != ReasonNone)
    && (a.reason == Overflow ==> a.q == [])
  }

  lemma PushedKeeps(a: Queue, p: seq<byte>)
    requires QueueOk(a)
    ensures QueueOk(Pushed(a, p)) && Pushed(a, p).limit == a.limit
    ensures Pushed(a, p).reason != Overflow ==>
      Joined(Pushed(a, p).q) == Joined(a.q) + (if a.closed then [] else p)
    ensures (Pushed(a, p).reason == Overflow && a.reason != Overflow)
       <==> (!a.closed && p != [] && |Joined(a.q)| + |p| > a.limit)
  {
    JoinedLast(a.q, p);
  }

  class Attachment {
    const readOnly: bool
    var q: seq<seq<byte>>
    var queued: int
    var limit: nat
    var closed: bool
    var reason: CloseReason

    ghost function View(): Queue
      reads this
    {
      Queue(q, queued, limit, closed, reason)
    }

    constructor (readOnly: bool, n: int)
      ensures View() == NewQueue(n) && this.readOnly == readOnly
    {
      this.readOnly := readOnly;
      q, queued, closed, reason := [], 0, false, ReasonNone;
      limit := if n <= 0 then DEFAULT_QUEUE_BYTES else n;
    }

    method Push(p: seq<byte>)
      modifies this
      ensures View() == Pushed(old(View()), p)
    {
      if |p| == 0 {
        return;
      }
      if closed {
        return;
      }
      if queued + |p| > limit {
        closed := true;
        reason := Overflow;
        q := [];
        queued := 0;
        return;
      }
      q := q + [p];
      queued := queued + |p|;
    }

    /** Returns once there is output or the queue has closed; until then the caller waits. */
    method Next() returns (p: seq<byte>, why: CloseReason, ok: bool)
      requires q != [] || closed
      modifies this
      ensures ok == (old(q) != [])
      ensures ok ==> p == old(q)[0] && why == ReasonNone && View() == Popped(old(View()))
      ensures !ok ==> p == [] && why == old(reason) && View() == old(View())
    {
      if |q| > 0 {
        p := q[0];
        q := q[1..];
        queued := queued - |p|;
        return p, ReasonNone, true;
      }
      return [], reason, false;
    }

    method Close(why: CloseReason)
      modifies this
      ensures View() == Closed(old(View()), why)
    {
      if closed {
        return;
      }
      closed := true;
      reason := why;
    }
  }
}
