/** The Tk event loop's timer, reduced to what the controller relies on:
    `after` registers a callback under a fresh token, `after_cancel`
    withdraws it, and the loop withdraws a callback when it runs it. */
module Timer {

  class EventLoop {
    /** The callbacks still to run: token to delay in milliseconds. */
    var pending: map<nat, nat>
    /** The token the next `after` hands out; tokens are never reused. */
    var next: nat

    constructor ()
      ensures pending == map[] && next == 0
    {
      pending := map[];
      next := 0;
    }

    /** `root.after(delayMs, callback)`. */
    method After(delayMs: nat) returns (id: nat)
      modifies this
      ensures id == old(next) && next == old(next) + 1
      ensures pending == old(pending)[id := delayMs]
    {
      id := next;
      pending := pending[id := delayMs];
      next := next + 1;
    }

    /** `root.after_cancel(id)`: a token that already ran or was cancelled
        is ignored. */
    method Cancel(id: nat)
      modifies this
      ensures pending == old(pending) - {id} && next == old(next)
    {
      pending := pending - {id};
    }

    /** The loop takes a due callback off its list just before running it. */
    method Dispatch(id: nat)
      requires id in pending
      modifies this
      ensures pending == old(pending) - {id} && next == old(next)
    {
      pending := pending - {id};
    }
  }
}
