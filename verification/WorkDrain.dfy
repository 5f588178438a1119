/** The callers of queue_drain: whose token they take, and what has happened when they return. */
module WorkDrain {
  import opened Lists
  import opened Flags
  import opened WorkModel
  import opened WorkInvariant
  import opened WorkSteps
  import opened WorkSafety
  import opened WorkLiveness

  // ---------------------------------------------------------------- one caller at a time

  /**
   On queue q, nobody drains while a drain caller waits, and nobody starts a stopped queue before that one has
   returned.
   */
  predicate DrainsOneByOne(qq: Queue, a: Action, q: nat) {
    (a.Drain? || a.Start?) && a.q == q ==> qq.drainers == 0
  }

  ghost predicate OneDrainCaller(ss: seq<State>, acts: seq<Action>, q: nat) {
    && RunFromInit(ss, acts)
    && forall i :: 0 <= i < |acts| && q < |ss[i].queues| ==> DrainsOneByOne(ss[i].queues[q], acts[i], q)
  }

  /**
   A drain caller waits exactly while DRAIN is set or its token is there, and no token is left from an earlier drain.
   */
  predicate DrainOk(qq: Queue) {
    && qq.drainers <= 1
    && (qq.drainers == 1 <==> qq.flags.drain || qq.drainq != [])
    && (qq.drainq != [] ==> qq.drainq == [1] && !qq.flags.drain)
  }

  lemma StepKeepsDrainOk(s: State, a: Action, q: nat)
    requires Inv(s) && WellFormed(s) && Enabled(s, a) && q < |s.queues|
    requires DrainOk(s.queues[q]) && DrainsOneByOne(s.queues[q], a, q)
    ensures q < |Next(s, a).s.queues| && DrainOk(Next(s, a).s.queues[q])
  {
    StepQueue(s, a, q);
  }

  lemma {:induction false} RunKeepsDrain(ss: seq<State>, acts: seq<Action>, k: nat, q: nat)
    requires OneDrainCaller(ss, acts, q) && k <= |acts| && q < |ss[k].queues|
    ensures DrainOk(ss[k].queues[q])
  {
    if k > 0 {
      assert StepAt(ss, acts, k - 1);
      RunKeepsInv(ss, acts, k - 1);
      QueuesStay(ss[k - 1], acts[k - 1]);
      RunKeepsDrain(ss, acts, k - 1, q);
      assert DrainsOneByOne(ss[k - 1].queues[q], acts[k - 1], q);
      StepKeepsDrainOk(ss[k - 1], acts[k - 1], q);
    }
  }

  /** A drain caller finds its token, or DRAIN is still set and the worker can move; the answer will be 1. */
  lemma DrainCallerIsServed(ss: seq<State>, acts: seq<Action>, k: nat, q: nat)
    requires OneDrainCaller(ss, acts, q) && k <= |acts| && q < |ss[k].queues| && ss[k].queues[q].drainers > 0
    ensures WellFormed(ss[k])
    ensures Enabled(ss[k], DrainReturn(q))
            || (ss[k].queues[q].flags.drain && Enabled(ss[k], WorkerAction(ss[k].queues[q], q)))
    ensures Enabled(ss[k], DrainReturn(q)) ==> Next(ss[k], DrainReturn(q)).reply == Code(1)
  {
    RunKeepsInv(ss, acts, k);
    RunKeepsDrain(ss, acts, k, q);
    if ss[k].queues[q].flags.drain {
      NoLostWakeup(ss, acts, k, q);
    }
  }

  /** Clients that keep to one drain caller, and stop only when none waits, never overlap the two. */
  lemma WaitBeforeStop(ss: seq<State>, acts: seq<Action>, k: nat, q: nat)
    requires OneDrainCaller(ss, acts, q) && k <= |acts| && StopsPolitely(ss, acts, k, q)
    ensures NoOverlap(ss, acts, k, q)
  {
    forall i | 0 <= i < k && q < |ss[i].queues|
      ensures !Overlaps(ss[i].queues[q], acts[i], q)
    {
      RunKeepsDrain(ss, acts, i, q);
      assert StopsAfterDrain(ss[i].queues[q], acts[i], q);
    }
  }

  // ---------------------------------------------------------------- the drain barrier

  /** Step i is a queue_drain(q) that goes on to wait. */
  ghost predicate WaitingDrain(ss: seq<State>, acts: seq<Action>, i: nat, q: nat) {
    && RunFromInit(ss, acts) && i < |acts| && acts[i].Drain? && acts[i].q == q
    && StepAt(ss, acts, i) && Next(ss[i], acts[i]).reply == Nothing
  }

  /** Step m is the turn that ends a drain of q: nothing is linked and nothing runs. */
  ghost predicate EndsDrain(ss: seq<State>, acts: seq<Action>, m: nat, q: nat) {
    && m < |acts| && m + 1 < |ss| && acts[m] == WorkerTurn(q) && Quiet(ss[m], q) && ss[m].queues[q].flags.drain
    && Quiet(ss[m + 1], q) && !ss[m + 1].queues[q].flags.drain && ss[m + 1].queues[q].drainq == [1]
  }

  /** A token that was not there at step i was left by a turn, since then, that ended a drain. */
  lemma {:induction false} TokenFromDrain(ss: seq<State>, acts: seq<Action>, i: nat, j: nat, q: nat) returns (m: nat)
    requires RunFromInit(ss, acts) && i <= j <= |acts| && q < |ss[i].queues| && q < |ss[j].queues|
    requires ss[i].queues[q].drainq == [] && ss[j].queues[q].drainq != []
    ensures i <= m < j && EndsDrain(ss, acts, m, q)
    decreases j - i
  {
    assert StepAt(ss, acts, j - 1);
    RunKeepsInv(ss, acts, j - 1);
    QueuesStay(ss[j - 1], acts[j - 1]);
    StepQueue(ss[j - 1], acts[j - 1], q);
    if ss[j - 1].queues[q].drainq == [] {
      m := j - 1;
    } else {
      m := TokenFromDrain(ss, acts, i, j - 1, q);
    }
  }

  /**
   The drain barrier: when no token was there at the call, whoever returns from a drain of q later does so after a turn,
   later than the call, that ended a drain at an instant when nothing was linked and nothing ran.
   */
  lemma DrainBarrier(ss: seq<State>, acts: seq<Action>, i: nat, j: nat, q: nat) returns (m: nat)
    requires WaitingDrain(ss, acts, i, q) && i < j < |acts| && acts[j] == DrainReturn(q)
    requires ss[i].queues[q].drainq == []
    ensures i < m < j && EndsDrain(ss, acts, m, q)
  {
    assert StepAt(ss, acts, j);
    m := TokenFromDrain(ss, acts, i, j, q);
  }

  /** A caller can return right after its call, DRAIN still set, if and only if another caller's token was there. */
  lemma DrainReturnsEarlyIff(ss: seq<State>, acts: seq<Action>, i: nat, q: nat)
    requires WaitingDrain(ss, acts, i, q)
    ensures q < |ss[i].queues| && q < |ss[i + 1].queues| && ss[i + 1].queues[q].flags.drain
    ensures Enabled(ss[i + 1], DrainReturn(q)) <==> ss[i].queues[q].drainq != []
  {
  }

  /** With one caller at a time there never is one, so every drain that returns has drained. */
  lemma DrainReturnsDrained(ss: seq<State>, acts: seq<Action>, i: nat, j: nat, q: nat) returns (m: nat)
    requires OneDrainCaller(ss, acts, q) && WaitingDrain(ss, acts, i, q) && i < j < |acts| && acts[j] == DrainReturn(q)
    ensures i < m < j && EndsDrain(ss, acts, m, q)
  {
    assert DrainsOneByOne(ss[i].queues[q], acts[i], q);
    RunKeepsDrain(ss, acts, i, q);
    m := DrainBarrier(ss, acts, i, j, q);
  }

  /** A drain that is to plug is under way, or the queue is sealed. */
  ghost predicate Plugging(s: State, q: nat) {
    (q < |s.queues| && s.queues[q].flags.drain && s.queues[q].flags.plugged) || Sealed(s, q)
  }

  lemma StepKeepsPlugging(s: State, a: Action, q: nat)
    requires Inv(s) && WellFormed(s) && Enabled(s, a) && Plugging(s, q) && !Reopens(a, q)
    ensures Plugging(Next(s, a).s, q)
  {
    StepQueue(s, a, q);
    if Sealed(s, q) {
      StepKeepsSealed(s, a, q);
    }
  }

  lemma {:induction false} RunKeepsPlugging(ss: seq<State>, acts: seq<Action>, i: nat, j: nat, q: nat)
    requires RunFromInit(ss, acts) && i <= j <= |acts| && Plugging(ss[i], q)
    requires forall k :: i <= k < j ==> !Reopens(acts[k], q)
    ensures Plugging(ss[j], q)
    decreases j - i
  {
    if i < j {
      RunKeepsPlugging(ss, acts, i, j - 1, q);
      assert StepAt(ss, acts, j - 1);
      RunKeepsInv(ss, acts, j - 1);
      StepKeepsPlugging(ss[j - 1], acts[j - 1], q);
    }
  }

  /** From a plugging drain on the queue is plugging, until somebody reopens it. */
  lemma PluggingLasts(ss: seq<State>, acts: seq<Action>, i: nat, j: nat, q: nat)
    requires WaitingDrain(ss, acts, i, q) && acts[i].plug && i < j <= |acts|
    requires forall k :: i < k < j ==> !Reopens(acts[k], q)
    ensures Plugging(ss[j], q)
  {
    RunKeepsPlugging(ss, acts, i + 1, j, q);
  }

  /** A plugging drain keeps its promise: when it returns, and nobody has unplugged the queue, the queue is sealed. */
  lemma DrainPlugs(ss: seq<State>, acts: seq<Action>, i: nat, j: nat, q: nat)
    requires OneDrainCaller(ss, acts, q) && WaitingDrain(ss, acts, i, q) && acts[i].plug
    requires i < j < |acts| && acts[j] == DrainReturn(q) && forall k :: i < k < j ==> !Reopens(acts[k], q)
    ensures Sealed(ss[j], q) && Sealed(ss[j + 1], q)
  {
    PluggingLasts(ss, acts, i, j, q);
    assert StepAt(ss, acts, j);
    RunKeepsInv(ss, acts, j);
    RunKeepsDrain(ss, acts, j, q);
    StepKeepsSealed(ss[j], acts[j], q);
  }

  /** The worker's drain turn leaves a token for each waiting caller if and only if there is at most one. */
  lemma DrainTokensSuffice(ss: seq<State>, acts: seq<Action>, k: nat, q: nat)
    requires RunFromInit(ss, acts) && k < |acts| && acts[k] == WorkerTurn(q) && q < |ss[k].queues|
    requires ss[k].queues[q].pending == [] && ss[k].queues[q].flags.drain
    ensures q < |ss[k + 1].queues| && !ss[k + 1].queues[q].flags.drain
    ensures ss[k + 1].queues[q].drainers <= |ss[k + 1].queues[q].drainq| <==> ss[k].queues[q].drainers <= 1
  {
    RunKeepsInv(ss, acts, k);
    assert StepAt(ss, acts, k);
    assert QueueLocal(ss[k].queues[q]);
  }
}
