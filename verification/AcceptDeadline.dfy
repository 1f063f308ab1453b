/** The waiting loop of the Linux Accept: a deadline, a poll that may be interrupted, and the
    exchange of the listening descriptor for the accepted one. Times are nanoseconds. */
module AcceptDeadline {
  import opened Wrappers

  const MILLISECOND: nat := 1_000_000
  const INT_LIMIT: int := 0x8000_0000

  /** `static_cast<int>` of a 64-bit millisecond count. */
  function ToInt32(ms: int): (r: int)
    ensures -INT_LIMIT <= r < INT_LIMIT
    ensures -INT_LIMIT <= ms < INT_LIMIT ==> r == ms
  {
    var low := ms % (2 * INT_LIMIT);
    if low < INT_LIMIT then low else low - 2 * INT_LIMIT
  }

  /** The number given to poll when `remaining` is left; negative means "wait for ever". */
  function AskFor(remaining: int): int {
    if remaining < MILLISECOND then 0 else ToInt32(remaining / MILLISECOND)
  }

  /** A wait that cannot pass the deadline. */
  predicate Bounded(remaining: int, ask: int) {
    ask == 0 || (0 < ask && ask * MILLISECOND <= remaining)
  }

  /** The wait asked for when the clock shows `elapsed` since the start. */
  predicate BoundedAfter(timeoutMs: int, elapsed: nat) {
    var remaining := timeoutMs * MILLISECOND - elapsed;
    Bounded(remaining, AskFor(remaining))
  }

  /** Every wait the loop can ask for stays within the deadline exactly when the timeout fits
      an `int` of milliseconds; one step beyond, poll is told to wait for ever. */
  lemma BoundedExactly(timeoutMs: int)
    ensures (forall elapsed: nat :: BoundedAfter(timeoutMs, elapsed)) <==> timeoutMs < INT_LIMIT
  {
    if timeoutMs >= INT_LIMIT {
      var elapsed: nat := (timeoutMs - INT_LIMIT) * MILLISECOND;
      assert timeoutMs * MILLISECOND - elapsed == INT_LIMIT * MILLISECOND;
      assert AskFor(INT_LIMIT * MILLISECOND) == -INT_LIMIT;
      assert !BoundedAfter(timeoutMs, elapsed);
    }
  }

  lemma AskBounded(timeoutMs: int, remaining: int)
    requires timeoutMs < INT_LIMIT && remaining <= timeoutMs * MILLISECOND
    ensures Bounded(remaining, AskFor(remaining))
    ensures remaining < AskFor(remaining) * MILLISECOND + MILLISECOND
  {
  }

  /** The waits asked for from the one numbered `from` on: each computed from the time then left
      and, if `within`, none passing the deadline. */
  predicate Planned(asks: seq<(nat, int)>, from: nat, deadline: int, within: bool) {
    forall i | from <= i < |asks| ::
      var remaining := deadline - asks[i].0;
      asks[i].1 == AskFor(remaining) && (within ==> Bounded(remaining, asks[i].1))
  }

  function Max(a: int, b: int): int {
    if a < b then b else a
  }

  datatype PollResult = Ready(readable: bool) | TimedOut | Interrupted | Error

  /** A listening pipe end and the system around it. Peers may queue up and time may pass
      whenever control is outside this process; only `interrupts` many signals arrive. */
  class Listener {
    var descriptor: nat
    var listening: bool
    var backlog: seq<nat>          // descriptors of the peers waiting to be accepted
    var now: nat                   // the steady clock
    var interrupts: nat
    ghost var polling: nat         // time spent inside poll so far
    ghost var deadline: int        // of the Accept in progress or last finished
    ghost var asks: seq<(nat, int)>  // per poll: the clock reading used, the milliseconds asked
    ghost var errors: nat          // polls and accepts that failed other than by a signal
    ghost var peers: seq<nat>      // peers taken so far

    ghost predicate Valid()
      reads this
    {
      descriptor !in backlog
    }

    /** Reading the clock: time has passed, and peers may have arrived. */
    method Clock() returns (reading: nat)
      requires Valid()
      modifies this`now, this`backlog
      ensures Valid() && now >= old(now) && reading == now && old(backlog) <= backlog
    {
      var passed: nat :| true;
      var arrived: nat :| true;
      now := now + passed;
      if arrived != descriptor {
        backlog := backlog + [arrived];
      }
      reading := now;
    }

    /** poll on the descriptor, entered some time after the clock was read. It returns no later
        than asked; a negative timeout sets no limit. Readable means that a peer is waiting. */
    method Poll(ms: int, ghost reading: nat) returns (r: PollResult)
      requires Valid() && reading <= now
      modifies this`now, this`backlog, this`interrupts, this`polling, this`asks, this`errors
      ensures Valid() && old(backlog) <= backlog && interrupts <= old(interrupts)
      ensures 0 <= polling - old(polling) <= now - old(now)
      ensures 0 <= ms ==> polling - old(polling) <= ms * MILLISECOND
      ensures r.Interrupted? ==> interrupts < old(interrupts)
      ensures r == TimedOut ==> 0 <= ms && polling - old(polling) == ms * MILLISECOND
      ensures r == TimedOut ==> now >= reading + ms * MILLISECOND
      ensures errors == old(errors) + if r == Error || r == Ready(false) then 1 else 0
      ensures r == Ready(true) ==> backlog != []
      ensures asks == old(asks) + [(reading, ms)]
    {
      asks := asks + [(reading, ms)];
      var entry := Clock();
      var interrupted: bool := *;
      var timedOut: bool := *;
      var failed: bool := *;
      var passed: nat :| true;
      if 0 <= ms && passed > ms * MILLISECOND {
        passed := ms * MILLISECOND;
      }
      if interrupted && interrupts > 0 {
        interrupts := interrupts - 1;
        r := Interrupted;
      } else if timedOut && 0 <= ms {
        passed := ms * MILLISECOND;
        r := TimedOut;
      } else if failed {
        errors := errors + 1;
        r := Error;
      } else {
        var readable: bool := *;
        readable := readable && backlog != [];
        if !readable {
          errors := errors + 1;
        }
        r := Ready(readable);
      }
      now := entry + passed;
      polling := polling + passed;
    }

    /** accept4: None with `again` for EINTR, None otherwise for any other failure. With nobody
        waiting it would block without limit; it is called only when poll has seen a peer. */
    method Accept4() returns (client: Option<nat>, again: bool)
      requires Valid() && backlog != []
      modifies this`backlog, this`interrupts, this`peers, this`errors
      ensures Valid() && interrupts <= old(interrupts)
      ensures errors == old(errors) + if client.None? && !again then 1 else 0
      ensures again ==> client.None? && interrupts < old(interrupts)
      ensures client.None? ==> backlog == old(backlog) && peers == old(peers)
      ensures client.Some? ==> old(backlog) == [client.value] + backlog && peers == old(peers) + [client.value]
    {
      client, again := None, false;
      var interrupted: bool := *;
      var failed: bool := *;
      if interrupted && interrupts > 0 {
        interrupts := interrupts - 1;
        again := true;
      } else if !failed {
        client := Some(backlog[0]);
        peers := peers + [backlog[0]];
        backlog := backlog[1..];
      } else {
        errors := errors + 1;
      }
    }

    /** Accepting over again as long as signals interrupt it. */
    method TakePeer() returns (client: Option<nat>)
      requires Valid() && backlog != []
      modifies this`backlog, this`interrupts, this`peers, this`errors
      ensures Valid() && errors == old(errors) + if client.None? then 1 else 0
      ensures client.Some? ==> peers == old(peers) + [client.value] && client.value != descriptor
      ensures client.None? ==> peers == old(peers)
    {
      var again;
      client, again := Accept4();
      while again
        invariant Valid()
        invariant again ==> client.None? && backlog != []
        invariant peers == if client.Some? then old(peers) + [client.value] else old(peers)
        invariant client.Some? ==> client.value != descriptor
        invariant errors == old(errors) + if client.None? && !again then 1 else 0
        decreases interrupts, again
      {
        client, again := Accept4();
      }
    }

    method Accept(timeoutMs: int) returns (ok: bool)
      requires Valid() && listening
      modifies this
      ensures deadline >= old(now) + timeoutMs * MILLISECOND
      // Each wait asked for is the one computed from what is left before the deadline, so for
      // timeouts that fit an int none passes it, and all of them together take no longer than
      // the timeout, however many signals arrive.
      ensures old(asks) <= asks && Planned(asks, |old(asks)|, deadline, timeoutMs < INT_LIMIT)
      ensures timeoutMs < INT_LIMIT ==> polling - old(polling) <= Max(0, timeoutMs * MILLISECOND)
      // True exactly when one peer was taken, and then its descriptor replaced the listener.
      ensures ok ==> peers == old(peers) + [descriptor] && descriptor != old(descriptor) && !listening
      ensures !ok ==> peers == old(peers) && descriptor == old(descriptor) && listening
      // It does not give up early either: without an error the deadline is less than a
      // millisecond away or past.
      ensures !ok && timeoutMs < INT_LIMIT ==> errors > old(errors) || now > deadline - MILLISECOND
    {
      var start := Clock();
      deadline := start + timeoutMs * MILLISECOND;
      ghost var limit := timeoutMs * MILLISECOND;
      while true
        invariant Valid() && listening
        invariant descriptor == old(descriptor) && peers == old(peers) && errors == old(errors)
        invariant start <= now && deadline == start + limit
        invariant old(asks) <= asks && Planned(asks, |old(asks)|, deadline, timeoutMs < INT_LIMIT)
        invariant polling - old(polling) <= now - start
        invariant timeoutMs < INT_LIMIT ==> polling - old(polling) <= Max(0, limit)
        decreases interrupts
      {
        var reading := Clock();
        var remaining := start + timeoutMs * MILLISECOND - reading;
        if timeoutMs < INT_LIMIT {
          AskBounded(timeoutMs, remaining);
        }
        var milliseconds := AskFor(remaining);
        var ready := Poll(milliseconds, reading);
        assert Planned(asks, |old(asks)|, deadline, timeoutMs < INT_LIMIT);
        if ready.Interrupted? {
          continue;
        }
        if !ready.Ready? {
          return false;
        }
        if !ready.readable {
          return false;
        }
        break;
      }
      var client := TakePeer();
      if client.None? {
        return false;
      }
      descriptor, listening := client.value, false;
      return true;
    }
  }
}
