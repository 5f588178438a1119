/** How long a drain and a flush can take, counted in steps of the worker. */
module WorkProgress {
  import opened Lists
  import opened Flags
  import opened WorkModel
  import opened WorkInvariant
  import opened WorkHistory
  import opened WorkSteps
  import opened WorkSafety
  import opened WorkLiveness
  import opened WorkDrain

  predicate IsWorkerStep(a: Action, q: nat) {
    a == WorkerTurn(q) || a == WorkerWake(q) || a == WorkerFinish(q)
  }

  /** The steps of the worker of q among acts[i..j]. */
  function WorkerSteps(acts: seq<Action>, i: nat, j: nat, q: nat): nat
    requires i <= j <= |acts|
    decreases j - i
  {
    if i == j then 0 else WorkerSteps(acts, i, j - 1, q) + (if IsWorkerStep(acts[j - 1], q) then 1 else 0)
  }

  lemma OneMoreIn(before: set<nat>, now: set<nat>, x: nat, b: bool)
    requires x !in before && forall k :: k in now <==> k in before || (b && k == x)
    ensures |now| == |before| + (if b then 1 else 0)
  {
    assert now == before + (if b then {x} else {});
  }

  lemma {:induction false} WorkerStepsCount(acts: seq<Action>, i: nat, j: nat, q: nat)
    requires i <= j <= |acts|
    ensures WorkerSteps(acts, i, j, q) == |set k | i <= k < j && IsWorkerStep(acts[k], q)|
    decreases j
  {
    var now: set<nat> := set k | i <= k < j && IsWorkerStep(acts[k], q);
    if i == j {
      assert now == {};
    } else {
      WorkerStepsCount(acts, i, j - 1, q);
      var before: set<nat> := set k | i <= k < j - 1 && IsWorkerStep(acts[k], q);
      OneMoreIn(before, now, j - 1, IsWorkerStep(acts[j - 1], q));
    }
  }

  // ---------------------------------------------------------------- drain

  function Rank(pc: Pc): nat {
    if pc.Waiting? || pc.Running? then 1 else 0
  }

  /** What the worker has left to do: two steps for a linked node, one for a handler or a wait to end. */
  function Load(qq: Queue): nat {
    2 * |qq.pending| + Rank(qq.pc)
  }

  predicate Grows(s: State, t: State, q: nat) {
    q < |s.queues| && q < |t.queues| && |s.queues[q].pending| < |t.queues[q].pending|
  }

  predicate ArrivesAt(ss: seq<State>, k: nat, q: nat)
    requires k + 1 < |ss|
  {
    Grows(ss[k], ss[k + 1], q)
  }

  /** The steps among ss[i..j] that link a further node into the list of q. */
  function Arrivals(ss: seq<State>, i: nat, j: nat, q: nat): nat
    requires i <= j < |ss|
    decreases j - i
  {
    if i == j then 0 else Arrivals(ss, i, j - 1, q) + (if ArrivesAt(ss, j - 1, q) then 1 else 0)
  }

  lemma {:induction false} ArrivalsCount(ss: seq<State>, i: nat, j: nat, q: nat)
    requires i <= j < |ss|
    ensures Arrivals(ss, i, j, q) == |set k | i <= k < j && ArrivesAt(ss, k, q)|
    decreases j
  {
    var now: set<nat> := set k | i <= k < j && ArrivesAt(ss, k, q);
    if i == j {
      assert now == {};
    } else {
      ArrivalsCount(ss, i, j - 1, q);
      var before: set<nat> := set k | i <= k < j - 1 && ArrivesAt(ss, k, q);
      OneMoreIn(before, now, j - 1, ArrivesAt(ss, j - 1, q));
    }
  }

  lemma ControlLoad(s: State, a: Action, q: nat)
    requires Inv(s) && WellFormed(s) && Enabled(s, a) && q < |s.queues| && s.queues[q].flags.started
    requires !IsItemCall(a) && !IsWorkerStep(a, q)
    ensures q < |Next(s, a).s.queues| && Load(Next(s, a).s.queues[q]) == Load(s.queues[q])
  {
    assert QueueLocal(s.queues[q]);
  }

  lemma WorkerLoad(s: State, a: Action, q: nat)
    requires Inv(s) && WellFormed(s) && Enabled(s, a) && IsWorkerStep(a, q)
    requires s.queues[q].flags.drain && Next(s, a).s.queues[q].flags.drain
    ensures Load(Next(s, a).s.queues[q]) + 1 == Load(s.queues[q])
  {
  }

  /** While DRAIN stays set, a step of the worker costs one unit of load and an arrival adds two. */
  lemma DrainStep(s: State, a: Action, q: nat)
    requires Inv(s) && WellFormed(s) && Enabled(s, a) && q < |s.queues| && s.queues[q].flags.drain
    requires q < |Next(s, a).s.queues| && Next(s, a).s.queues[q].flags.drain
    ensures var t := Next(s, a).s;
            Load(t.queues[q]) + (if IsWorkerStep(a, q) then 1 else 0)
            <= Load(s.queues[q]) + 2 * (if Grows(s, t, q) then 1 else 0)
  {
    assert QueueLocal(s.queues[q]);
    if IsItemCall(a) {
      ItemCallTouches(s, a, q);
    } else if IsWorkerStep(a, q) {
      WorkerLoad(s, a, q);
    } else {
      ControlLoad(s, a, q);
    }
  }

  /** What arrives while a queue drains is a flusher, or a submission made by the queue's own handler. */
  lemma ArrivalsWhileDraining(ss: seq<State>, acts: seq<Action>, k: nat, q: nat)
    requires RunFromInit(ss, acts) && k < |acts| && q < |ss[k].queues| && ss[k].queues[q].flags.drain
    requires Grows(ss[k], ss[k + 1], q)
    ensures acts[k].Flush? || ((acts[k].Submit? || acts[k].Resubmit?) && acts[k].caller == WorkerOf(q))
  {
    assert StepAt(ss, acts, k);
    RunKeepsInv(ss, acts, k);
    if IsItemCall(acts[k]) {
      ItemCallTouches(ss[k], acts[k], q);
      if acts[k].Submit? || acts[k].Resubmit? {
        DrainAdmitsOnlyChained(ss, acts, k, q);
      } else if !acts[k].Flush? {
        CancelShrinks(ss[k], acts[k], q);
      }
    }
  }

  lemma CancelShrinks(s: State, a: Action, q: nat)
    requires WellFormed(s) && Enabled(s, a) && (a.Cancel? || a.CancelSync?) && q < |s.queues|
    ensures q < |Next(s, a).s.queues| && |Next(s, a).s.queues[q].pending| <= |s.queues[q].pending|
  {
  }

  /** The worker drains in a bounded number of steps: the load at the start, and two for each arrival. */
  lemma {:induction false} DrainIsBounded(ss: seq<State>, acts: seq<Action>, i: nat, j: nat, q: nat)
    requires RunFromInit(ss, acts) && i <= j <= |acts|
    requires forall k :: i <= k <= j ==> q < |ss[k].queues| && ss[k].queues[q].flags.drain
    ensures WorkerSteps(acts, i, j, q) + Load(ss[j].queues[q]) <= Load(ss[i].queues[q]) + 2 * Arrivals(ss, i, j, q)
    decreases j - i
  {
    if i < j {
      DrainIsBounded(ss, acts, i, j - 1, q);
      assert StepAt(ss, acts, j - 1);
      RunKeepsInv(ss, acts, j - 1);
      assert ss[j - 1].queues[q].flags.drain && ss[j].queues[q].flags.drain;
      DrainStep(ss[j - 1], acts[j - 1], q);
    }
  }

  /**
   DRAIN is cleared only by the worker, at an instant when nothing is linked and nothing runs, and leaves the token.
   */
  lemma DrainEndsQuiet(ss: seq<State>, acts: seq<Action>, k: nat, q: nat)
    requires RunFromInit(ss, acts) && k < |acts| && q < |ss[k].queues| && q < |ss[k + 1].queues|
    requires ss[k].queues[q].flags.drain && !ss[k + 1].queues[q].flags.drain
    ensures acts[k] == WorkerTurn(q) && Quiet(ss[k], q) && Quiet(ss[k + 1], q)
    ensures ss[k + 1].queues[q].drainq == [1]
  {
    assert StepAt(ss, acts, k);
    RunKeepsInv(ss, acts, k);
    assert QueueLocal(ss[k].queues[q]);
    if IsItemCall(acts[k]) {
      ItemCallTouches(ss[k], acts[k], q);
    }
  }

  // ---------------------------------------------------------------- the worker alone

  /** A run, from any state, in which only the worker of q moves. */
  ghost predicate WorkerRun(ss: seq<State>, acts: seq<Action>, q: nat) {
    Run(ss, acts) && forall i :: 0 <= i < |acts| ==> IsWorkerStep(acts[i], q)
  }

  lemma PrefixWorkerRun(s: State, a: Action, ss: seq<State>, acts: seq<Action>, q: nat)
    requires WellFormed(s) && Enabled(s, a) && IsWorkerStep(a, q)
    requires WorkerRun(ss, acts, q) && ss[0] == Next(s, a).s
    ensures WorkerRun([s] + ss, [a] + acts, q)
  {
    forall i | 0 <= i < |acts| + 1
      ensures StepAt([s] + ss, [a] + acts, i)
    {
      assert i > 0 ==> StepAt(ss, acts, i - 1);
    }
  }

  lemma ReachableOk(s: State)
    requires Reachable(s)
    ensures Inv(s) && WellFormed(s) && forall q :: 0 <= q < |s.queues| ==> TokenForWork(s.queues[q])
  {
    var ss, acts :| RunFromInit(ss, acts) && ss[|acts|] == s;
    RunKeepsInv(ss, acts, |acts|);
    forall q | 0 <= q < |s.queues|
      ensures TokenForWork(s.queues[q])
    {
      RunKeepsToken(ss, acts, |acts|, q);
    }
  }

  /**
   Left alone, the worker of a draining queue finishes the drain in Load + 1 steps, however many items and flushers are
   linked: the last step clears DRAIN and leaves the token for the drain caller.
   */
  lemma WorkerFinishesDrain(s: State, q: nat) returns (ss: seq<State>, acts: seq<Action>)
    requires Reachable(s) && q < |s.queues| && s.queues[q].flags.drain
    ensures WorkerRun(ss, acts, q) && ss[0] == s && |acts| == Load(s.queues[q]) + 1
    ensures var t := ss[|acts|]; Quiet(t, q) && !t.queues[q].flags.drain && t.queues[q].drainq == [1]
  {
    ReachableOk(s);
    ss, acts := DrainAlone(s, q);
  }

  /** A worker that drains can move, and gets nearer to the end of the drain. */
  lemma DrainGoesOn(s: State, q: nat)
    requires Inv(s) && WellFormed(s) && q < |s.queues| && s.queues[q].flags.drain && TokenForWork(s.queues[q])
    ensures var x, a := s.queues[q], WorkerAction(s.queues[q], q);
            && Enabled(s, a) && q < |Next(s, a).s.queues|
            && var y := Next(s, a).s.queues[q];
               && (!y.flags.drain ==> Load(x) == 0 && DrainServed(x, y))
               && (y.flags.drain ==>
                     && Load(y) + 1 == Load(x) && TokenForWork(y) && y.flags.stop == x.flags.stop
                     && (TokenToSpare(y) <==> TokenToSpare(x)))
  {
    assert QueueLocal(s.queues[q]);
    StepQueue(s, WorkerAction(s.queues[q], q), q);
  }

  lemma {:induction false} DrainAlone(s: State, q: nat) returns (ss: seq<State>, acts: seq<Action>)
    requires Inv(s) && q < |s.queues| && s.queues[q].flags.drain && TokenForWork(s.queues[q])
    ensures WorkerRun(ss, acts, q) && ss[0] == s && |acts| == Load(s.queues[q]) + 1
    ensures var x, y := s.queues[q], ss[|acts|].queues; Inv(ss[|acts|]) && q < |y| && DrainServed(x, y[q])
    decreases Load(s.queues[q])
  {
    InvWellFormed(s);
    assert QueueLocal(s.queues[q]);
    var a := WorkerAction(s.queues[q], q);
    var t := Next(s, a).s;
    StepKeepsInv(s, a);
    DrainGoesOn(s, q);
    if t.queues[q].flags.drain {
      ss, acts := DrainAlone(t, q);
    } else {
      ss, acts := [t], [];
    }
    PrefixWorkerRun(s, a, ss, acts, q);
    ss, acts := [s] + ss, [a] + acts;
  }

  /** The token in notifyq will outlive the drain. */
  predicate TokenToSpare(qq: Queue) {
    qq.notifyq != [] && !qq.pc.Waiting?
  }

  /** y is what the worker makes of x when it has served the drain and does nothing else. */
  predicate DrainServed(x: Queue, y: Queue) {
    && y.pending == [] && y.pc.Waiting? && !y.flags.drain && y.flags.stop == x.flags.stop && y.drainq == [1]
    && (y.notifyq != [] <==> TokenToSpare(x))
  }

  /** Told to stop, the worker works off its list and exits in Load + 1 steps, when it is awake. */
  lemma {:induction false} StopAlone(s: State, q: nat) returns (ss: seq<State>, acts: seq<Action>)
    requires Inv(s) && q < |s.queues| && s.queues[q].flags.stop && !s.queues[q].flags.drain && Awake(s.queues[q])
    ensures WorkerRun(ss, acts, q) && ss[0] == s && |acts| == Load(s.queues[q]) + 1
    ensures var t := ss[|acts|]; q < |t.queues| && t.queues[q].pc.Exited?
    decreases Load(s.queues[q])
  {
    InvWellFormed(s);
    assert QueueLocal(s.queues[q]);
    var a := WorkerAction(s.queues[q], q);
    var t := Next(s, a).s;
    StepKeepsInv(s, a);
    StepQueue(s, a, q);
    if t.queues[q].pc.Exited? {
      ss, acts := [t], [];
    } else {
      ss, acts := StopAlone(t, q);
    }
    PrefixWorkerRun(s, a, ss, acts, q);
    ss, acts := [s] + ss, [a] + acts;
  }

  lemma JoinWorkerRuns(ss: seq<State>, acts: seq<Action>, ss': seq<State>, acts': seq<Action>, q: nat)
    requires WorkerRun(ss, acts, q) && WorkerRun(ss', acts', q) && ss[|acts|] == ss'[0]
    ensures WorkerRun(ss + ss'[1..], acts + acts', q)
    ensures (ss + ss'[1..])[|acts + acts'|] == ss'[|acts'|]
  {
    var tt, bs := ss + ss'[1..], acts + acts';
    assert forall i :: 0 <= i < |ss'| ==> tt[|acts| + i] == ss'[i];
    forall i | 0 <= i < |bs|
      ensures StepAt(tt, bs, i)
    {
      if i < |acts| {
        assert StepAt(ss, acts, i);
      } else {
        assert StepAt(ss', acts', i - |acts|);
      }
    }
  }

  /** Whether the wake-up for STOP is still to come. */
  predicate WillHearStop(qq: Queue) {
    if qq.flags.drain then TokenToSpare(qq) else Awake(qq)
  }

  /**
   What becomes of a queue that is told to stop, from any reachable state, also one in which a drain overlaps the stop:
   its worker, left alone, exits if and only if it will hear of the stop. Otherwise it ends waiting, with STOP set, an
   empty list and no token, and cannot move.
   */
  lemma StopOutcome(s: State, q: nat) returns (ss: seq<State>, acts: seq<Action>)
    requires Reachable(s) && q < |s.queues| && s.queues[q].flags.stop
    ensures WorkerRun(ss, acts, q) && ss[0] == s && q < |ss[|acts|].queues|
    ensures var qq := ss[|acts|].queues[q];
            && (qq.pc.Exited? <==> WillHearStop(s.queues[q]))
            && (!qq.pc.Exited? ==>
                  qq.pc.Waiting? && qq.pending == [] && qq.notifyq == [] && qq.flags.stop && !qq.flags.drain)
  {
    ReachableOk(s);
    if s.queues[q].flags.drain {
      ss, acts := DrainAlone(s, q);
      if TokenToSpare(s.queues[q]) {
        var ss', acts' := StopAlone(ss[|acts|], q);
        JoinWorkerRuns(ss, acts, ss', acts', q);
        ss, acts := ss + ss'[1..], acts + acts';
      }
    } else if Awake(s.queues[q]) {
      ss, acts := StopAlone(s, q);
    } else {
      ss, acts := [s], [];
    }
  }

  // ---------------------------------------------------------------- the destructor

  predicate Stopping(qq: Queue) {
    qq.flags.plugged && qq.flags.stop && !qq.flags.drain
  }

  /** A stopping worker exits or gets nearer to it. */
  lemma StoppingStep(s: State, a: Action, q: nat)
    requires Inv(s) && WellFormed(s) && Enabled(s, a) && q < |s.queues| && Stopping(s.queues[q])
    requires StopsAfterDrain(s.queues[q], a, q) && !Reopens(a, q)
    ensures q < |Next(s, a).s.queues|
    ensures var x, y := s.queues[q], Next(s, a).s.queues[q];
            y.pc.Exited? || (Stopping(y) && Rank(y.pc) + (if IsWorkerStep(a, q) then 1 else 0) <= Rank(x.pc))
  {
    StepQueue(s, a, q);
  }

  ghost predicate Disposed(ss: seq<State>, acts: seq<Action>, i: nat, j: nat, q: nat)
    requires i <= j <= |acts| < |ss|
  {
    && q < |ss[i].queues| && q < |ss[j].queues|
    && (ss[j].queues[q].pc.Exited?
        || (Stopping(ss[j].queues[q])
            && WorkerSteps(acts, i, j, q) + Rank(ss[j].queues[q].pc) <= Rank(ss[i].queues[q].pc)))
  }

  lemma {:induction false} StoppingRun(ss: seq<State>, acts: seq<Action>, i: nat, j: nat, q: nat)
    requires RunFromInit(ss, acts) && i <= j <= |acts| && q < |ss[i].queues|
    requires Stopping(ss[i].queues[q]) || ss[i].queues[q].pc.Exited?
    requires forall k :: i <= k < j ==> !Reopens(acts[k], q)
    requires StopsPolitely(ss, acts, j, q)
    ensures Disposed(ss, acts, i, j, q)
    decreases j - i
  {
    if i < j {
      StoppingRun(ss, acts, i, j - 1, q);
      assert StepAt(ss, acts, j - 1);
      RunKeepsInv(ss, acts, j - 1);
      if ss[j - 1].queues[q].pc.Exited? {
        ExitedStays(ss[j - 1], acts[j - 1], q);
      } else {
        assert StopsAfterDrain(ss[j - 1].queues[q], acts[j - 1], q);
        StoppingStep(ss[j - 1], acts[j - 1], q);
      }
    }
  }

  lemma StoppingCanMove(ss: seq<State>, acts: seq<Action>, n: nat, q: nat)
    requires OneDrainCaller(ss, acts, q) && n <= |acts| && q < |ss[n].queues| && Stopping(ss[n].queues[q])
    requires StopsPolitely(ss, acts, n, q)
    ensures Enabled(ss[n], WorkerAction(ss[n].queues[q], q))
  {
    WaitBeforeStop(ss, acts, n, q);
    NoLostWakeup(ss, acts, n, q);
  }

  lemma StopBegins(ss: seq<State>, acts: seq<Action>, k: nat, q: nat)
    requires OneDrainCaller(ss, acts, q) && k < |acts| && acts[k] == Stop(q)
    requires Plugging(ss[k], q) && StopsPolitely(ss, acts, k + 1, q)
    ensures q < |ss[k + 1].queues| && (Stopping(ss[k + 1].queues[q]) || ss[k + 1].queues[q].pc.Exited?)
  {
    assert StepAt(ss, acts, k);
    RunKeepsInv(ss, acts, k);
    RunKeepsDrain(ss, acts, k, q);
    assert StopsAfterDrain(ss[k].queues[q], acts[k], q);
    StepQueue(ss[k], acts[k], q);
  }

  lemma PoliteBefore(ss: seq<State>, acts: seq<Action>, k: nat, n: nat, q: nat)
    requires k <= n <= |acts| && |ss| == |acts| + 1 && StopsPolitely(ss, acts, n, q)
    ensures StopsPolitely(ss, acts, k, q)
  {
  }

  /** A stop of a plugged queue that nobody drains. */
  lemma StopEnds(ss: seq<State>, acts: seq<Action>, k: nat, n: nat, q: nat)
    requires OneDrainCaller(ss, acts, q) && k < n <= |acts| && acts[k] == Stop(q) && Plugging(ss[k], q)
    requires forall m :: k < m < n ==> !Reopens(acts[m], q)
    requires StopsPolitely(ss, acts, n, q)
    ensures q < |ss[n].queues|
    ensures ss[n].queues[q].pc.Exited? || Enabled(ss[n], WorkerAction(ss[n].queues[q], q))
    ensures WorkerSteps(acts, k + 1, n, q) >= 2 ==> ss[n].queues[q].pc.Exited?
  {
    PoliteBefore(ss, acts, k + 1, n, q);
    StopBegins(ss, acts, k, q);
    StoppingRun(ss, acts, k + 1, n, q);
    if !ss[n].queues[q].pc.Exited? {
      StoppingCanMove(ss, acts, n, q);
    }
  }

  /**
   The destructor drains with plugging, waits, and stops. From then on the worker can move until it has exited, and it
   has exited after two steps of its own, whatever other clients submit, flush and cancel.
   */
  lemma DestructorStops(ss: seq<State>, acts: seq<Action>, i: nat, j: nat, k: nat, n: nat, q: nat)
    requires OneDrainCaller(ss, acts, q) && WaitingDrain(ss, acts, i, q) && acts[i].plug
    requires i < j < k < n <= |acts| && acts[j] == DrainReturn(q) && acts[k] == Stop(q)
    requires forall m :: i < m < n ==> !Reopens(acts[m], q)
    requires StopsPolitely(ss, acts, n, q)
    ensures q < |ss[n].queues|
    ensures ss[n].queues[q].pc.Exited? || Enabled(ss[n], WorkerAction(ss[n].queues[q], q))
    ensures WorkerSteps(acts, k + 1, n, q) >= 2 ==> ss[n].queues[q].pc.Exited?
  {
    PluggingLasts(ss, acts, i, k, q);
    StopEnds(ss, acts, k, n, q);
  }

  // ---------------------------------------------------------------- flush

  /** How many steps of its worker an unreleased flusher is away from its release. */
  ghost function Distance(s: State, f: nat): nat
    requires f < |s.flushers| && FlusherOk(s, f) && !s.flushers[f].released
  {
    var qq := s.queues[s.flushers[f].home];
    if qq.pc == Running(FlushNode(f)) then 1
    else 2 * (IndexOf(qq.pending, FlushNode(f)) + 1) + Rank(qq.pc)
  }

  lemma IndexAt<T>(p: seq<T>, i: nat, x: T)
    requires NoDup(p) && i < |p| && p[i] == x
    ensures x in p && IndexOf(p, x) == i
  {
    IndexOfUnique(p, i);
  }

  predicate StillWaits(s: State, f: nat) {
    f < |s.flushers| && !s.flushers[f].released
  }

  /** Where a list operation moves a flusher: at most one place back, and only when another flusher joins. */
  lemma AppendKeepsPlace(p: seq<Node>, n: Node, x: Node)
    requires NoDup(p) && NoDup(p + [n]) && x in p
    ensures x in p + [n] && IndexOf(p + [n], x) == IndexOf(p, x)
  {
    IndexAt(p + [n], IndexOf(p, x), x);
  }

  lemma WithoutKeepsPlace(p: seq<Node>, n: Node, x: Node)
    requires NoDup(p) && x in p && x != n
    ensures x in Without(p, n) && IndexOf(Without(p, n), x) <= IndexOf(p, x)
  {
    WithoutMembers(p, n);
    if n in p {
      var i := IndexOf(p, x);
      IndexAt(Without(p, n), if i < IndexOf(p, n) then i else i - 1, x);
    }
  }

  lemma InsertKeepsPlace(p: seq<Node>, n: Node, y: Node, x: Node)
    requires NoDup(p) && x in p && n in p && y !in p
    ensures x in InsertAfter(p, n, y) && IndexOf(InsertAfter(p, n, y), x) <= IndexOf(p, x) + 1
  {
    InsertAfterMembers(p, n, y);
    var i := IndexOf(p, x);
    IndexAt(InsertAfter(p, n, y), if i <= IndexOf(p, n) then i else i + 1, x);
  }

  lemma PrependKeepsPlace(p: seq<Node>, y: Node, x: Node)
    requires NoDup(p) && x in p && y !in p
    ensures x in [y] + p && IndexOf([y] + p, x) == IndexOf(p, x) + 1
  {
    IndexAt([y] + p, IndexOf(p, x) + 1, x);
  }

  lemma JoinKeepsPlace(p: seq<Node>, n: Node, y: Node, x: Node, behind: bool)
    requires NoDup(p) && x in p && y !in p && (behind ==> n in p)
    ensures var r := Joined(p, n, y, behind); |r| == |p| + 1 && x in r && IndexOf(r, x) <= IndexOf(p, x) + 1
  {
    if behind {
      InsertKeepsPlace(p, n, y, x);
    } else {
      PrependKeepsPlace(p, y, x);
    }
  }

  lemma TailKeepsPlace(p: seq<Node>, x: Node)
    requires NoDup(p) && x in p && p[0] != x
    ensures x in p[1..] && IndexOf(p[1..], x) == IndexOf(p, x) - 1
  {
    IndexAt(p[1..], IndexOf(p, x) - 1, x);
  }

  lemma SubmitDistance(s: State, w: nat, target: nat, caller: Caller, f: nat)
    requires Inv(s) && StillWaits(s, f) && w < |s.items| && target < |s.queues|
    requires s.items[w].flags.running ==> s.items[w].owner.Some? && s.items[w].owner.value < |s.queues|
    ensures var t := SubmitLocked(s, w, target, caller).s;
            Inv(t) && StillWaits(t, f) && FlusherOk(s, f) && FlusherOk(t, f) && Distance(t, f) == Distance(s, f)
  {
    var t := SubmitLocked(s, w, target, caller).s;
    SubmitKeeps(s, w, target, caller);
    assert FlusherOk(s, f) && FlusherOk(t, f);
    var home := s.flushers[f].home;
    var p, p' := s.queues[home].pending, t.queues[home].pending;
    assert ListOk(s.items, s.flushers, home, p) && ListOk(t.items, t.flushers, home, p');
    if p' != p && FlushNode(f) in p {
      assert p' == p + [ItemNode(w)];
      AppendKeepsPlace(p, ItemNode(w), FlushNode(f));
    }
  }

  lemma FlushDistance(s: State, w: nat, f: nat)
    requires Inv(s) && StillWaits(s, f) && FlushDefined(s, w)
    ensures var t := FlushLocked(s, w).s;
            && Inv(t) && StillWaits(t, f) && FlusherOk(s, f) && FlusherOk(t, f)
            && Distance(t, f) <= Distance(s, f) + 2 * (if Grows(s, t, s.flushers[f].home) then 1 else 0)
  {
    var t := FlushLocked(s, w).s;
    var x := s.items[w];
    assert FlusherOk(s, f);
    if x.flags.queued || x.flags.running {
      FlushKeeps(s, w);
      assert FlusherOk(t, f);
      var home := s.flushers[f].home;
      var p, y := s.queues[home].pending, FlushNode(|s.flushers|);
      assert ListOk(s.items, s.flushers, home, p);
      assert y !in p by {
        assert forall i :: 0 <= i < |p| ==> NodeOk(s.items, s.flushers, home, p[i]);
      }
      if x.owner == Some(home) && FlushNode(f) in p {
        JoinKeepsPlace(p, ItemNode(w), y, FlushNode(f), x.flags.queued);
        assert t.queues[home].pending == Joined(p, ItemNode(w), y, x.flags.queued);
      }
    }
  }

  lemma CancelDistance(s: State, w: nat, f: nat)
    requires Inv(s) && StillWaits(s, f) && CancelDefined(s, w)
    ensures var t := CancelAsync(s, w).s;
            Inv(t) && StillWaits(t, f) && FlusherOk(s, f) && FlusherOk(t, f) && Distance(t, f) <= Distance(s, f)
  {
    var t := CancelAsync(s, w).s;
    CancelKeeps(s, w);
    assert FlusherOk(s, f) && FlusherOk(t, f);
    var home := s.flushers[f].home;
    var p := s.queues[home].pending;
    assert ListOk(s.items, s.flushers, home, p);
    if FlushNode(f) in p {
      WithoutKeepsPlace(p, ItemNode(w), FlushNode(f));
    }
  }

  lemma TurnDistance(s: State, q: nat, f: nat)
    requires Inv(s) && WellFormed(s) && q < |s.queues| && s.queues[q].pc.LoopHead?
    requires StillWaits(s, f) && s.flushers[f].home == q
    ensures var t := TurnLocked(s, q);
            && Inv(t) && StillWaits(t, f) && FlusherOk(s, f) && FlusherOk(t, f)
            && Distance(t, f) == Distance(s, f) - 1 > 0
  {
    var t := TurnLocked(s, q);
    TurnKeeps(s, q);
    assert FlusherOk(s, f);
    var p := s.queues[q].pending;
    assert ListOk(s.items, s.flushers, q, p);
    assert t.flushers == s.flushers;
    assert FlusherOk(t, f);
    if p[0] != FlushNode(f) {
      TailKeepsPlace(p, FlushNode(f));
    }
  }

  lemma WakeDistance(s: State, q: nat, f: nat)
    requires Inv(s) && WellFormed(s) && q < |s.queues| && s.queues[q].pc.Waiting? && s.queues[q].notifyq != []
    requires StillWaits(s, f) && s.flushers[f].home == q
    ensures var t := WakeUp(s, q);
            && Inv(t) && StillWaits(t, f) && FlusherOk(s, f) && FlusherOk(t, f)
            && Distance(t, f) == Distance(s, f) - 1 > 0
  {
    StepKeepsInv(s, WorkerWake(q));
    assert FlusherOk(s, f) && FlusherOk(WakeUp(s, q), f);
  }

  lemma FinishDistance(s: State, q: nat, f: nat)
    requires Inv(s) && WellFormed(s) && q < |s.queues| && s.queues[q].pc.Running?
    requires StillWaits(s, f) && s.flushers[f].home == q
    ensures var t := FinishLocked(s, q);
            && Inv(t) && f < |t.flushers| && FlusherOk(s, f) && FlusherOk(t, f)
            && (t.flushers[f].released <==> s.queues[q].pc.node == FlushNode(f))
            && (t.flushers[f].released ==> Distance(s, f) == 1)
            && (!t.flushers[f].released ==> Distance(t, f) == Distance(s, f) - 1)
  {
    FinishKeeps(s, q);
    var t := FinishLocked(s, q);
    assert FlusherOk(s, f) && FlusherOk(t, f);
    assert t.queues[q].pending == s.queues[q].pending;
  }

  /** A step of its own worker brings a flusher one step closer, and the last one releases it. */
  lemma WorkerDistance(s: State, a: Action, f: nat)
    requires Inv(s) && WellFormed(s) && Enabled(s, a) && StillWaits(s, f) && IsWorkerStep(a, s.flushers[f].home)
    ensures FlusherOk(s, f)
    ensures var t := Next(s, a).s;
            && Inv(t) && f < |t.flushers| && FlusherOk(t, f)
            && (t.flushers[f].released ==> Distance(s, f) == 1)
            && (!t.flushers[f].released ==> Distance(t, f) == Distance(s, f) - 1)
  {
    match a
    case WorkerTurn(q) => TurnDistance(s, q, f);
    case WorkerWake(q) => WakeDistance(s, q, f);
    case WorkerFinish(q) => FinishDistance(s, q, f);
  }

  /** Queue control and the workers of other queues do not move a flusher. */
  lemma ElsewhereDistance(s: State, a: Action, f: nat)
    requires Inv(s) && WellFormed(s) && Enabled(s, a) && StillWaits(s, f)
    requires !IsItemCall(a) && !IsWorkerStep(a, s.flushers[f].home)
    ensures FlusherOk(s, f)
    ensures var t := Next(s, a).s; Inv(t) && StillWaits(t, f) && FlusherOk(t, f) && Distance(t, f) == Distance(s, f)
  {
    var t := Next(s, a).s;
    StepKeepsInv(s, a);
    assert FlusherOk(s, f);
    StepQueue(s, a, s.flushers[f].home);
    NotReleasedElsewhere(s, a, f);
    assert FlusherOk(t, f);
  }

  lemma NotReleasedElsewhere(s: State, a: Action, f: nat)
    requires Inv(s) && WellFormed(s) && Enabled(s, a) && StillWaits(s, f) && !IsWorkerStep(a, s.flushers[f].home)
    ensures StillWaits(Next(s, a).s, f) && Next(s, a).s.flushers[f].home == s.flushers[f].home
  {
    FlusherFixed(s, a, f);
    assert a.WorkerFinish? ==> WorkerOk(s, a.q);
  }

  /** The cancellers play no part in the distance. */
  lemma CancelSyncDistance(s: State, w: nat, f: nat)
    requires Inv(s) && StillWaits(s, f) && w < |s.items| && !Idle(s.items[w].flags) && CancelDefined(s, w)
    ensures var t := CancelSyncLocked(s, w).s;
            Inv(t) && StillWaits(t, f) && FlusherOk(s, f) && FlusherOk(t, f) && Distance(t, f) <= Distance(s, f)
  {
    CancelDistance(s, w, f);
    var u, t := CancelAsync(s, w).s, CancelSyncLocked(s, w).s;
    BookkeepingKeeps(u, t);
    assert FlusherOk(t, f) && Distance(t, f) == Distance(u, f);
  }

  lemma ItemCallDistance(s: State, a: Action, f: nat)
    requires Inv(s) && WellFormed(s) && Enabled(s, a) && StillWaits(s, f) && IsItemCall(a)
    ensures var t := Next(s, a).s;
            && FlusherOk(s, f) && f < |t.flushers| && FlusherOk(t, f) && StillWaits(t, f)
            && Distance(t, f) <= Distance(s, f) + 2 * (if a.Flush? && Grows(s, t, s.flushers[f].home) then 1 else 0)
  {
    assert FlusherOk(s, f);
    match a
    case Submit(w, q, caller) => SubmitDistance(s, w, q, caller, f);
    case Resubmit(w, caller) =>
      if s.items[w].owner.Some? { SubmitDistance(s, w, s.items[w].owner.value, caller, f); }
    case Flush(w) => FlushDistance(s, w, f);
    case Cancel(w) => CancelDistance(s, w, f);
    case CancelSync(w) => if !Idle(s.items[w].flags) { CancelSyncDistance(s, w, f); }
  }

  lemma FlushStep(s: State, a: Action, f: nat)
    requires Inv(s) && WellFormed(s) && Enabled(s, a) && StillWaits(s, f) && StillWaits(Next(s, a).s, f)
    ensures var t := Next(s, a).s;
            && FlusherOk(s, f) && FlusherOk(t, f)
            && Distance(t, f) + (if IsWorkerStep(a, s.flushers[f].home) then 1 else 0)
               <= Distance(s, f) + 2 * (if a.Flush? && Grows(s, t, s.flushers[f].home) then 1 else 0)
  {
    if IsItemCall(a) {
      ItemCallDistance(s, a, f);
    } else if IsWorkerStep(a, s.flushers[f].home) {
      WorkerDistance(s, a, f);
    } else {
      ElsewhereDistance(s, a, f);
    }
  }

  predicate FlushesAt(ss: seq<State>, acts: seq<Action>, k: nat, q: nat)
    requires k < |acts| < |ss|
  {
    acts[k].Flush? && Grows(ss[k], ss[k + 1], q)
  }

  /** The flush calls among acts[i..j] that link a flusher into the list of q. */
  function Flushes(ss: seq<State>, acts: seq<Action>, i: nat, j: nat, q: nat): nat
    requires i <= j <= |acts| < |ss|
    decreases j - i
  {
    if i == j then 0
    else Flushes(ss, acts, i, j - 1, q) + (if FlushesAt(ss, acts, j - 1, q) then 1 else 0)
  }

  lemma {:induction false} FlushesCount(ss: seq<State>, acts: seq<Action>, i: nat, j: nat, q: nat)
    requires i <= j <= |acts| < |ss|
    ensures Flushes(ss, acts, i, j, q) == |set k | i <= k < j && FlushesAt(ss, acts, k, q)|
    decreases j
  {
    var now: set<nat> := set k | i <= k < j && FlushesAt(ss, acts, k, q);
    if i == j {
      assert now == {};
    } else {
      FlushesCount(ss, acts, i, j - 1, q);
      var before: set<nat> := set k | i <= k < j - 1 && FlushesAt(ss, acts, k, q);
      OneMoreIn(before, now, j - 1, FlushesAt(ss, acts, j - 1, q));
    }
  }

  lemma RunNearsRelease(ss: seq<State>, acts: seq<Action>, k: nat, f: nat)
    requires RunFromInit(ss, acts) && k < |acts| && StillWaits(ss[k], f) && StillWaits(ss[k + 1], f)
    ensures FlusherOk(ss[k], f) && FlusherOk(ss[k + 1], f)
    ensures var home := ss[k].flushers[f].home;
            && ss[k + 1].flushers[f].home == home
            && Distance(ss[k + 1], f) + (if IsWorkerStep(acts[k], home) then 1 else 0)
               <= Distance(ss[k], f) + 2 * (if acts[k].Flush? && Grows(ss[k], ss[k + 1], home) then 1 else 0)
  {
    assert StepAt(ss, acts, k);
    RunKeepsInv(ss, acts, k);
    FlusherFixed(ss[k], acts[k], f);
    FlushStep(ss[k], acts[k], f);
  }

  /**
   A flusher is overtaken only by flushers on its own queue: while it waits, its worker makes at most Distance steps,
   and two more for each flusher linked there later. Submissions, however many, do not delay it.
   */
  lemma {:induction false} FlushIsBounded(ss: seq<State>, acts: seq<Action>, i: nat, j: nat, f: nat)
    requires RunFromInit(ss, acts) && i <= j <= |acts|
    requires forall k :: i <= k <= j ==> StillWaits(ss[k], f)
    ensures StillWaits(ss[i], f) && StillWaits(ss[j], f) && FlusherOk(ss[i], f) && FlusherOk(ss[j], f)
    ensures ss[j].flushers[f].home == ss[i].flushers[f].home
    ensures WorkerSteps(acts, i, j, ss[i].flushers[f].home) + Distance(ss[j], f)
            <= Distance(ss[i], f) + 2 * Flushes(ss, acts, i, j, ss[i].flushers[f].home)
    decreases j - i
  {
    assert StillWaits(ss[i], f) && StillWaits(ss[j], f);
    if i == j {
      RunKeepsInv(ss, acts, i);
    } else {
      FlushIsBounded(ss, acts, i, j - 1, f);
      RunNearsRelease(ss, acts, j - 1, f);
    }
  }

  /** From any reachable state the worker, left alone, releases a waiting flusher after exactly Distance steps. */
  lemma WorkerFinishesFlush(s: State, f: nat) returns (ss: seq<State>, acts: seq<Action>)
    requires Reachable(s) && StillWaits(s, f)
    ensures FlusherOk(s, f) && WorkerRun(ss, acts, s.flushers[f].home) && ss[0] == s && |acts| == Distance(s, f)
    ensures var t := ss[|acts|]; f < |t.flushers| && t.flushers[f].released
  {
    ReachableOk(s);
    assert FlusherOk(s, f);
    ss, acts := FlushAlone(s, f);
  }

  /** The worker of a flusher's home can move, and releases it or gets nearer to that. */
  lemma FlushGoesOn(s: State, f: nat)
    requires Inv(s) && WellFormed(s) && StillWaits(s, f) && FlusherOk(s, f)
    requires TokenForWork(s.queues[s.flushers[f].home])
    ensures var q := s.flushers[f].home; var a := WorkerAction(s.queues[q], q);
            && Enabled(s, a) && Inv(Next(s, a).s)
            && var t := Next(s, a).s;
               && f < |t.flushers| && FlusherOk(t, f) && t.flushers[f].home == q && TokenForWork(t.queues[q])
               && Distance(s, f) == if t.flushers[f].released then 1 else Distance(t, f) + 1
  {
    var q := s.flushers[f].home;
    var a := WorkerAction(s.queues[q], q);
    assert QueueLocal(s.queues[q]);
    WorkerDistance(s, a, f);
    FlusherFixed(s, a, f);
    StepKeepsToken(s, a, q);
  }

  lemma {:induction false} FlushAlone(s: State, f: nat) returns (ss: seq<State>, acts: seq<Action>)
    requires Inv(s) && StillWaits(s, f) && FlusherOk(s, f) && TokenForWork(s.queues[s.flushers[f].home])
    ensures WorkerRun(ss, acts, s.flushers[f].home) && ss[0] == s && |acts| == Distance(s, f)
    ensures var t := ss[|acts|]; f < |t.flushers| && t.flushers[f].released
    decreases Distance(s, f)
  {
    InvWellFormed(s);
    var q := s.flushers[f].home;
    var a := WorkerAction(s.queues[q], q);
    FlushGoesOn(s, f);
    var t := Next(s, a).s;
    if t.flushers[f].released {
      ss, acts := [t], [];
    } else {
      ss, acts := FlushAlone(t, f);
    }
    PrefixWorkerRun(s, a, ss, acts, q);
    ss, acts := [s] + ss, [a] + acts;
  }
}
