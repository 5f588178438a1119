/** The counting semaphore: a bounded queue that may not overwrite, whose size is the count. */
module Semaphore {
  import opened BoundedQueue

  datatype Outcome = Done | TimedOut | WouldBlock | Overflow

  class Semaphore {
    const count: nat
    const sem: BoundedQueue<int>

    ghost predicate Valid()
      reads this, sem
    {
      sem.Valid() && sem.maxSize == count && !sem.overwrite
    }

    ghost function Count(): nat
      reads this, sem, sem.buffer
      requires Valid()
    {
      |sem.Contents()|
    }

    /** A semaphore for up to count holders, initially min(initial, count). The source's default is initial = count. */
    constructor (count: nat, initial: nat)
      requires count > 0
      ensures Valid() && fresh(sem) && fresh(sem.buffer)
      ensures this.count == count && Count() == if initial < count then initial else count
    {
      this.count := count;
      sem := new BoundedQueue<int>(count, false);
      new;
      var n := if initial < count then initial else count;
      for i := 0 to n
        invariant Valid() && fresh(sem) && fresh(sem.buffer) && Count() == i
      {
        var _ := sem.PutNonblocking(0);
      }
    }

    /** lock without a time limit, once the count is positive. */
    method Lock()
      requires Valid() && Count() > 0
      modifies sem
      ensures Valid() && Count() == old(Count()) - 1
    {
      var _ := sem.Get();
    }

    /** lock with a time limit, at the end of the wait; zero says that the limit was zero. */
    method LockTimed(zero: bool) returns (r: Outcome)
      requires Valid()
      modifies sem
      ensures Valid() && (r == Done <==> old(Count()) > 0)
      ensures r == Done ==> Count() == old(Count()) - 1
      ensures r != Done ==> Count() == old(Count()) && r == if zero then WouldBlock else TimedOut
      ensures Next(count, old(Count()), Take(zero)) == (Count(), r)
    {
      var x := sem.GetTimed(zero);
      match x
      case Success(_) => r := Done;
      case Failure(e) => r := if e.QueueEmpty? then WouldBlock else TimedOut;
    }

    method TryLock() returns (taken: bool)
      requires Valid()
      modifies sem
      ensures Valid() && (taken <==> old(Count()) > 0)
      ensures Count() == if taken then old(Count()) - 1 else old(Count())
    {
      var r := LockTimed(true);
      taken := r != WouldBlock;
    }

    /** unlock, also called give: it succeeds as long as the count is below its maximum. */
    method Unlock() returns (r: Outcome)
      requires Valid()
      modifies sem, sem.buffer
      ensures Valid() && (r == Done <==> old(Count()) < count)
      ensures r == Done ==> Count() == old(Count()) + 1
      ensures r != Done ==> Count() == old(Count()) && r == Overflow
      ensures Next(count, old(Count()), Give) == (Count(), r)
    {
      var x := sem.PutNonblocking(0);
      r := if x.Success? then Done else Overflow;
    }

    method GetCount() returns (n: nat)
      requires Valid()
      ensures n == Count()
    {
      n := sem.Size();
    }
  }

  // ---------------------------------------------------------------- over any sequence of calls

  datatype Call = Give | Take(zero: bool)

  function Next(max: nat, n: nat, call: Call): (nat, Outcome) {
    match call
    case Give => if n < max then (n + 1, Done) else (n, Overflow)
    case Take(zero) => if n > 0 then (n - 1, Done) else (n, if zero then WouldBlock else TimedOut)
  }

  function CountAfter(max: nat, n: nat, calls: seq<Call>): nat {
    if calls == [] then n else Next(max, CountAfter(max, n, calls[..|calls| - 1]), calls[|calls| - 1]).0
  }

  /** How many of the calls so far were gives (takes) that succeeded. */
  function Successes(max: nat, n: nat, calls: seq<Call>, gives: bool): nat {
    if calls == [] then 0
    else
      var before := calls[..|calls| - 1];
      var call := calls[|calls| - 1];
      Successes(max, n, before, gives)
      + (if call.Give? == gives && Next(max, CountAfter(max, n, before), call).1 == Done then 1 else 0)
  }

  /** The count is what was there plus what was given minus what was taken, and never leaves 0..max. */
  lemma {:induction false} CountIsConserved(max: nat, n: nat, calls: seq<Call>)
    requires n <= max
    ensures CountAfter(max, n, calls) + Successes(max, n, calls, false) == n + Successes(max, n, calls, true)
    ensures CountAfter(max, n, calls) <= max
  {
    if calls != [] {
      CountIsConserved(max, n, calls[..|calls| - 1]);
    }
  }
}
