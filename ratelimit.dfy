/** The two rate-limiting wrappers. Timers are abstract: a timer's expiry is
    an event the caller reports, not a moment in time. */
module RateLimit {
  import opened Gate

  /** throttle(func, limit): the first call runs `func` and closes the gate;
      calls made while it is closed are dropped; the timer reopens it. */
  class Throttle {
    var inThrottle: bool
    /** Timers set by this wrapper that have not expired yet. */
    var pendingTimers: nat
    /** How many times the wrapped function has run. */
    var runs: nat

    ghost predicate Valid()
      reads this
    {
      pendingTimers == if inThrottle then 1 else 0
    }

    constructor ()
      ensures Valid() && !inThrottle && runs == 0
    {
      inThrottle, pendingTimers, runs := false, 0, 0;
    }

    /** A call of the wrapper; `run` says whether `func` ran. */
    method Call() returns (run: bool)
      requires Valid()
      modifies this
      ensures Valid()
      ensures run == !old(inThrottle)
      ensures inThrottle == GateStep(old(inThrottle), Trigger)
      ensures runs == old(runs) + (if run then 1 else 0)
      ensures !run ==> pendingTimers == old(pendingTimers)
    {
      run := !inThrottle;
      if run {
        runs := runs + 1;
        inThrottle := true;
        pendingTimers := pendingTimers + 1;
      }
    }

    /** The timer set by the call that got through expires. */
    method TimerExpires()
      requires Valid() && pendingTimers > 0
      modifies this
      ensures Valid()
      ensures inThrottle == GateStep(old(inThrottle), Release)
      ensures runs == old(runs)
    {
      pendingTimers := pendingTimers - 1;
      inThrottle := false;
    }
  }

  /** debounce(func, wait): each call replaces the pending timer; `func` runs,
      with the arguments of the latest call, when that timer expires. */
  class Debouncer<A> {
    /** The handle stored in `timeout`; 0 while undefined. */
    var timeout: nat
    /** Pending timers by handle, with the arguments each would pass. */
    var pending: map<nat, A>
    var nextHandle: nat
    /** Arguments of each run of `func`, oldest first. */
    var invocations: seq<A>

    /** At most one timer is pending, and it is the one `timeout` holds. */
    ghost predicate Valid()
      reads this
    {
      0 < nextHandle && timeout < nextHandle && pending.Keys <= {timeout} && 0 !in pending
    }

    constructor ()
      ensures Valid() && pending == map[] && invocations == []
    {
      timeout, pending, nextHandle, invocations := 0, map[], 1, [];
    }

    method Call(args: A)
      requires Valid()
      modifies this
      ensures Valid()
      ensures timeout == old(nextHandle) && nextHandle == old(nextHandle) + 1
      ensures pending == map[timeout := args]
      ensures invocations == old(invocations)
    {
      pending := pending - {timeout};
      timeout := nextHandle;
      nextHandle := nextHandle + 1;
      pending := pending[timeout := args];
    }

    /** The pending timer expires: `later` clears `timeout` and runs `func`. */
    method TimerExpires(handle: nat)
      requires Valid() && handle in pending
      modifies this
      ensures Valid()
      ensures handle == old(timeout) && timeout == old(timeout) && nextHandle == old(nextHandle)
      ensures pending == map[] && invocations == old(invocations) + [old(pending)[handle]]
    {
      var args := pending[handle];
      pending := pending - {timeout};
      invocations := invocations + [args];
    }
  }

  /** The latest call wins: after any calls, expiry runs `func` with the last arguments. */
  method LatestWins<A>(d: Debouncer<A>, first: A, second: A)
    requires d.Valid()
    modifies d
    ensures d.Valid() && d.invocations == old(d.invocations) + [second] && d.pending == map[]
  {
    d.Call(first);
    d.Call(second);
    d.TimerExpires(d.timeout);
  }
}
