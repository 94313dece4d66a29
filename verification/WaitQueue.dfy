/**
 The waiter queue of internal/balancer/queue.go: what each critical section under
 `qmu`, and each operation on a one-place ticket channel, does.

 The functions on `Queue` are the atomic steps of the protocol in SlotProtocol;
 the class `LockedQueue` runs the same sections in place, loop included.
 */
module WaitQueue {
  import opened Common

  /** One `acquireSlot` call; it owns at most one waiter. */
  type Caller = nat

  /** The identity of one upstream's runtime state. */
  type StateId = nat

  /** What `dispatch` found under its first lock. */
  datatype Look = NoWaiter | SkippedCanceled | Head(head: Caller)

  datatype Queue = Queue(queue: seq<Caller>, canceled: set<Caller>, tickets: map<Caller, StateId>)
  {
    function Join(w: Caller): Queue {
      this.(queue := queue + [w])
    }

    /** `cancelWaiter`: the new state, and the ticket it took back, if any. */
    function Cancel(w: Caller): (Queue, Option<StateId>) {
      var marked := this.(canceled := canceled + {w});
      if w in queue then (marked.(queue := Without(queue, w)), None)
      else if w in tickets then (marked.(tickets := tickets - {w}), Some(tickets[w]))
      else (marked, None)
    }

    /** The first critical section of a `dispatch` iteration. */
    function Inspect(): (Queue, Look) {
      if queue == [] then (this, NoWaiter)
      else if queue[0] in canceled then (this.(queue := queue[1..]), SkippedCanceled)
      else (this, Head(queue[0]))
    }

    /** The second critical section of a `dispatch` iteration that picked `u` for `head`. */
    function Deliver(head: Caller, u: StateId): (Queue, bool) {
      if queue != [] && queue[0] == head && head !in canceled then
        var popped := this.(queue := queue[1..]);
        if head in tickets then (popped, false)
        else (popped.(tickets := tickets[head := u]), true)
      else (this, false)
    }

    /** The waiter reads its ticket channel. */
    function Receive(w: Caller): (Queue, StateId)
      requires w in tickets
    {
      (this.(tickets := tickets - {w}), tickets[w])
    }
  }

  const EMPTY: Queue := Queue([], {}, map[])

  class LockedQueue {
    var queue: seq<Caller>
    var canceled: set<Caller>
    var tickets: map<Caller, StateId>

    function View(): Queue
      reads this
    {
      Queue(queue, canceled, tickets)
    }

    constructor ()
      ensures View() == EMPTY
    {
      queue, canceled, tickets := [], {}, map[];
    }

    method Join(w: Caller)
      modifies this`queue
      ensures View() == old(View()).Join(w) && queue == old(queue) + [w]
    {
      queue := queue + [w];
    }

    method Cancel(w: Caller) returns (released: Option<StateId>)
      modifies this
      ensures (View(), released) == old(View()).Cancel(w)
      ensures canceled == old(canceled) + {w}
      ensures w in old(queue) ==>
                && released.None? && tickets == old(tickets)
                && exists k :: 0 <= k < |old(queue)| && old(queue)[k] == w && queue == old(queue)[..k] + old(queue)[k + 1..]
      ensures w !in old(queue) ==>
                && queue == old(queue) && tickets == old(tickets) - {w}
                && released == if w in old(tickets) then Some(old(tickets)[w]) else None
    {
      canceled := canceled + {w};
      var i := 0;
      while i < |queue|
        invariant 0 <= i <= |queue| && w !in queue[..i]
        invariant queue == old(queue) && tickets == old(tickets) && canceled == old(canceled) + {w}
      {
        if queue[i] == w {
          assert FirstIndex(queue, w) == i;
          queue := queue[..i] + queue[i + 1..];
          return None;
        }
        i := i + 1;
      }
      assert queue[..i] == queue;

      if w in tickets {
        released := Some(tickets[w]);
        tickets := tickets - {w};
      } else {
        released := None;
      }
    }

    method Inspect() returns (look: Look)
      modifies this`queue
      ensures (View(), look) == old(View()).Inspect()
      ensures look.NoWaiter? <==> old(queue) == []
      ensures look.Head? ==> queue == old(queue) && queue[0] == look.head && look.head !in canceled
      ensures look.SkippedCanceled? ==> old(queue)[0] in canceled && queue == old(queue)[1..]
    {
      if |queue| == 0 {
        return NoWaiter;
      }
      var head := queue[0];
      if head in canceled {
        queue := queue[1..];
        return SkippedCanceled;
      }
      return Head(head);
    }

    method Deliver(head: Caller, u: StateId) returns (deliver: bool)
      modifies this`queue, this`tickets
      ensures (View(), deliver) == old(View()).Deliver(head, u)
      ensures deliver <==> old(queue) != [] && old(queue)[0] == head && head !in canceled + old(tickets).Keys
      ensures tickets == if deliver then old(tickets)[head := u] else old(tickets)
      ensures queue == if old(queue) != [] && old(queue)[0] == head && head !in canceled then old(queue)[1..] else old(queue)
    {
      deliver := false;
      if |queue| > 0 && queue[0] == head && head !in canceled {
        queue := queue[1..];
        if head !in tickets {
          tickets := tickets[head := u];
          deliver := true;
        }
      }
    }
  }
}
