/** No lost wake-up: who finds a token in notifyq, in every run, and exactly which runs lose the one for STOP. */
module WorkLiveness {
  import opened Lists
  import opened Flags
  import opened WorkModel
  import opened WorkInvariant
  import opened WorkSteps
  import opened WorkSafety

  // ---------------------------------------------------------------- work and drains

  /** A worker that waits while a node is linked or DRAIN is set finds a token in notifyq. */
  predicate TokenForWork(qq: Queue) {
    qq.pc.Waiting? && (qq.pending != [] || qq.flags.drain) ==> qq.notifyq != []
  }

  lemma StepKeepsToken(s: State, a: Action, q: nat)
    requires Inv(s) && WellFormed(s) && Enabled(s, a) && q < |s.queues| && TokenForWork(s.queues[q])
    ensures q < |Next(s, a).s.queues| && TokenForWork(Next(s, a).s.queues[q])
  {
    StepQueue(s, a, q);
  }

  /** That holds of every queue in every run, also when stops and drains overlap. */
  lemma {:induction false} RunKeepsToken(ss: seq<State>, acts: seq<Action>, k: nat, q: nat)
    requires RunFromInit(ss, acts) && k <= |acts| && q < |ss[k].queues|
    ensures TokenForWork(ss[k].queues[q])
  {
    if k > 0 {
      assert StepAt(ss, acts, k - 1);
      RunKeepsInv(ss, acts, k - 1);
      QueuesStay(ss[k - 1], acts[k - 1]);
      RunKeepsToken(ss, acts, k - 1, q);
      StepKeepsToken(ss[k - 1], acts[k - 1], q);
    }
  }

  // ---------------------------------------------------------------- stops

  predicate HasWork(qq: Queue) {
    qq.pending != [] || qq.flags.drain || qq.flags.stop
  }

  /** A worker that waits while there is something to do, a stop included, finds a token in notifyq. */
  predicate Awake(qq: Queue) {
    qq.pc.Waiting? && HasWork(qq) ==> qq.notifyq != []
  }

  /** The branch that drops a wake-up: the token that announced both DRAIN and STOP was spent on DRAIN. */
  predicate LosesWakeup(qq: Queue, a: Action, q: nat) {
    a == WorkerTurn(q) && qq.pending == [] && qq.flags.drain && qq.flags.stop && qq.notifyq == []
  }

  /** A step keeps a worker awake if and only if it is not that branch. */
  lemma WakeupKeptIff(s: State, a: Action, q: nat)
    requires Inv(s) && WellFormed(s) && Enabled(s, a) && q < |s.queues| && Awake(s.queues[q])
    ensures q < |Next(s, a).s.queues|
    ensures Awake(Next(s, a).s.queues[q]) <==> !LosesWakeup(s.queues[q], a, q)
  {
    StepQueue(s, a, q);
  }

  /** The calls that ask queue q to stop while it drains, or to drain while it stops. */
  predicate Overlaps(qq: Queue, a: Action, q: nat) {
    match a
    case Stop(p) => p == q && qq.flags.plugged && qq.flags.drain
    case Drain(p, plug) => p == q && qq.flags.stop && (qq.flags.busy || plug || qq.pending != [])
    case _ => false
  }

  predicate Both(qq: Queue) {
    qq.flags.drain && qq.flags.stop
  }

  /** They are exactly the steps that set DRAIN and STOP together. */
  lemma OverlapsIff(s: State, a: Action, q: nat)
    requires Inv(s) && WellFormed(s) && Enabled(s, a) && q < |s.queues| && !Both(s.queues[q])
    ensures q < |Next(s, a).s.queues|
    ensures Both(Next(s, a).s.queues[q]) <==> Overlaps(s.queues[q], a, q)
  {
    StepQueue(s, a, q);
  }

  /** None of the first k calls overlaps on queue q; the other queues do not matter. */
  ghost predicate NoOverlap(ss: seq<State>, acts: seq<Action>, k: nat, q: nat)
    requires k <= |acts| && |ss| == |acts| + 1
  {
    forall i :: 0 <= i < k && q < |ss[i].queues| ==> !Overlaps(ss[i].queues[q], acts[i], q)
  }

  lemma {:induction false} NoOverlapNoLoss(ss: seq<State>, acts: seq<Action>, k: nat, q: nat)
    requires RunFromInit(ss, acts) && k <= |acts| && q < |ss[k].queues| && NoOverlap(ss, acts, k, q)
    ensures Awake(ss[k].queues[q]) && !Both(ss[k].queues[q])
  {
    if k > 0 {
      assert StepAt(ss, acts, k - 1);
      RunKeepsInv(ss, acts, k - 1);
      QueuesStay(ss[k - 1], acts[k - 1]);
      NoOverlapNoLoss(ss, acts, k - 1, q);
      OverlapsIff(ss[k - 1], acts[k - 1], q);
      WakeupKeptIff(ss[k - 1], acts[k - 1], q);
    }
  }

  /** A client that stops a queue only when no drain caller waits, and drains it only before, never overlaps. */
  predicate StopsAfterDrain(qq: Queue, a: Action, q: nat) {
    match a
    case Stop(p) => p == q ==> qq.drainers == 0
    case Drain(p, _) => p == q ==> !qq.flags.stop
    case _ => true
  }

  /** The first k calls keep to that on queue q. */
  ghost predicate StopsPolitely(ss: seq<State>, acts: seq<Action>, k: nat, q: nat)
    requires k <= |acts| && |ss| == |acts| + 1
  {
    forall i :: 0 <= i < k && q < |ss[i].queues| ==> StopsAfterDrain(ss[i].queues[q], acts[i], q)
  }

  // ---------------------------------------------------------------- nobody waits in vain

  /**
   No lost wake-up: in every run the worker of a queue that runs something, has a node linked or has DRAIN set can move;
   so can one whose queue has only STOP set, when no drain and stop of that very queue overlapped.
   */
  lemma NoLostWakeup(ss: seq<State>, acts: seq<Action>, k: nat, q: nat)
    requires RunFromInit(ss, acts) && k <= |acts| && q < |ss[k].queues|
    requires var qq := ss[k].queues[q];
             qq.pc.Running? || qq.pending != [] || qq.flags.drain || (qq.flags.stop && NoOverlap(ss, acts, k, q))
    ensures Enabled(ss[k], WorkerAction(ss[k].queues[q], q))
  {
    RunKeepsInv(ss, acts, k);
    RunKeepsToken(ss, acts, k, q);
    assert QueueLocal(ss[k].queues[q]);
    if NoOverlap(ss, acts, k, q) {
      NoOverlapNoLoss(ss, acts, k, q);
    }
  }

  /** In every run an unreleased flusher sits on a queue whose worker can move. */
  lemma FlushCallerHasAWorker(ss: seq<State>, acts: seq<Action>, k: nat, f: nat)
    requires RunFromInit(ss, acts) && k <= |acts| && f < |ss[k].flushers| && !ss[k].flushers[f].released
    ensures var home := ss[k].flushers[f].home;
            home < |ss[k].queues| && Enabled(ss[k], WorkerAction(ss[k].queues[home], home))
  {
    RunKeepsInv(ss, acts, k);
    assert FlusherOk(ss[k], f);
    NoLostWakeup(ss, acts, k, ss[k].flushers[f].home);
  }
}
