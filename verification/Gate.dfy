/**
 The admission token gate of internal/admission/gate.go. `slots` is the number of
 tokens in the buffered channel; `inflight` is the separate atomic counter.
 */
module Gate {

  datatype Kind = Reject | Wait | DropOldest | DropLowestPriority

  datatype Gate = Gate(cap: nat, kind: Kind, slots: int, inflight: int)
  {
    /** A send on the token channel that does not block. */
    predicate HasRoom() {
      slots < cap
    }

    function Send(): Gate
      requires HasRoom()
    {
      this.(slots := slots + 1)
    }

    /** The receive in `Release`; with no token in the channel nothing happens. */
    function Receive(): (Gate, bool) {
      if slots > 0 then (this.(slots := slots - 1), true) else (this, false)
    }

    function Add(d: int): Gate {
      this.(inflight := inflight + d)
    }
  }

  function NewGate(cap: nat, kind: Kind): Gate {
    Gate(cap, kind, 0, 0)
  }

  /** The gate in place, when no other thread interferes. */
  class TokenGate {
    const cap: nat
    const kind: Kind
    var slots: int
    var inflight: int

    function View(): Gate
      reads this
    {
      Gate(cap, kind, slots, inflight)
    }

    constructor (cap: nat, kind: Kind)
      ensures View() == NewGate(cap, kind)
      ensures this.cap == cap && this.kind == kind && slots == inflight == 0
    {
      this.cap, this.kind, slots, inflight := cap, kind, 0, 0;
    }

    method TryAcquire() returns (ok: bool)
      modifies this
      ensures ok == old(View()).HasRoom()
      ensures View() == if ok then old(View()).Send().Add(1) else old(View())
      ensures ok <==> old(slots) < cap
      ensures slots == old(slots) + (if ok then 1 else 0) && inflight == old(inflight) + (if ok then 1 else 0)
    {
      if slots < cap {
        slots := slots + 1;
        inflight := inflight + 1;
        return true;
      }
      return false;
    }

    method Release()
      modifies this
      ensures View() == var (g, ok) := old(View()).Receive(); if ok then g.Add(-1) else g
      ensures var held := old(slots) > 0;
              slots == old(slots) - (if held then 1 else 0) && inflight == old(inflight) - (if held then 1 else 0)
    {
      if slots > 0 {
        slots := slots - 1;
        inflight := inflight - 1;
      }
    }
  }
}
