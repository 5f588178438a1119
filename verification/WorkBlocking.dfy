/**
 Handlers that wait. The state machine of WorkModel leaves open who issues a flush, a synchronous cancel, a drain or a
 stop; here each call has a caller, and a handler that waits in one keeps its worker from finishing.
 */
module WorkBlocking {
  import opened Lists
  import opened Flags
  import opened WorkModel
  import opened WorkInvariant
  import opened WorkHistory
  import opened WorkSteps
  import opened WorkSafety
  import opened WorkCalls
  import opened WorkLiveness
  import opened WorkDrain
  import opened WorkCancel

  /**
   What a handler is blocked in: the semaphore of a flusher or a canceller, drainq.get, or the join of a worker. A join
   that is not patient, because stop was given a time limit or has no thread to join, can end at any time.
   */
  datatype Wait = ForFlusher(f: nat) | ForCanceller(c: nat) | ForDrain(q: nat) | ForExit(q: nat, patient: bool)

  /** waits has an entry for the worker of each queue. */
  datatype System = System(s: State, waits: seq<Option<Wait>>)

  /** patient only matters when a handler's call is a stop. */
  datatype Move =
    | Client(a: Action)
    | Handler(q: nat, a: Action, patient: bool)
    | Worker(a: Action)
    | Resume(q: nat)

  predicate IsCall(a: Action) {
    !a.WorkerTurn? && !a.WorkerWake? && !a.WorkerFinish? && !a.DrainReturn?
  }

  predicate CalledBy(a: Action, caller: Caller) {
    a.Submit? || a.Resubmit? ==> a.caller == caller
  }

  /**
   What the handler on the worker of h goes on to wait for when it calls a. A patient stop of its own queue does not
   wait: a thread that joins itself gets an error at once.
   */
  ghost function WaitOf(s: State, h: nat, a: Action, patient: bool): Option<Wait>
    requires WellFormed(s) && Enabled(s, a)
  {
    var o := Next(s, a);
    match a
    case Flush(w) => if o.reply == Flag(true) then Some(ForFlusher(|s.flushers|)) else None
    case CancelSync(w) => if o.s.cancellers > s.cancellers then Some(ForCanceller(s.cancellers)) else None
    case Drain(q, plug) => if o.reply == Nothing then Some(ForDrain(q)) else None
    case Stop(q) => if o.reply == Nothing && !(q == h && patient) then Some(ForExit(q, patient)) else None
    case _ => None
  }

  /** The wait can end. */
  ghost predicate Over(s: State, x: Wait) {
    match x
    case ForFlusher(f) => f < |s.flushers| && s.flushers[f].released
    case ForCanceller(c) => forall i :: 0 <= i < |s.cancels| ==> s.cancels[i].id != c
    case ForDrain(q) => q < |s.queues| && s.queues[q].drainq != []
    case ForExit(q, patient) => patient ==> q < |s.queues| && s.queues[q].pc.Exited?
  }

  /** How many handlers are drain callers of q. */
  function Drainers(waits: seq<Option<Wait>>, q: nat): nat {
    if waits == [] then 0 else (if waits[0] == Some(ForDrain(q)) then 1 else 0) + Drainers(waits[1..], q)
  }

  /** The step of the state machine that a move is. The end of a wait is none, but for drainq.get. */
  function StepOf(y: System, m: Move): Option<Action> {
    match m
    case Client(a) => Some(a)
    case Handler(_, a, _) => Some(a)
    case Worker(a) => Some(a)
    case Resume(q) =>
      if q < |y.waits| && y.waits[q].Some? && y.waits[q].value.ForDrain? then Some(DrainReturn(y.waits[q].value.q))
      else None
  }

  /** A handler moves only while it does not wait, and its worker finishes only then. */
  ghost predicate Can(y: System, m: Move) {
    && WellFormed(y.s) && |y.waits| == |y.s.queues|
    && (StepOf(y, m).Some? ==> Enabled(y.s, StepOf(y, m).value) && StartsJoined(y, StepOf(y, m).value))
    && match m
       case Client(a) =>
         (IsCall(a) && CalledBy(a, Outside)) || (a.DrainReturn? && Drainers(y.waits, a.q) < y.s.queues[a.q].drainers)
       case Handler(q, a, _) =>
         && q < |y.waits| && y.waits[q].None? && y.s.queues[q].pc.Running? && y.s.queues[q].pc.node.ItemNode?
         && IsCall(a) && CalledBy(a, WorkerOf(q))
       case Worker(a) => a.WorkerTurn? || a.WorkerWake? || (a.WorkerFinish? && y.waits[a.q].None?)
       case Resume(q) => q < |y.waits| && y.waits[q].Some? && Over(y.s, y.waits[q].value)
  }

  /** Nobody starts a queue while a stop of it still joins its worker. */
  predicate StartsJoined(y: System, a: Action) {
    a.Start? ==> forall q :: 0 <= q < |y.waits| && y.waits[q].Some? ==> !Joins(y.waits[q].value, a.q)
  }

  predicate Joins(x: Wait, q: nat) {
    x.ForExit? && x.q == q
  }

  ghost function After(y: System, m: Move): System
    requires Can(y, m)
  {
    var s := if StepOf(y, m).Some? then Next(y.s, StepOf(y, m).value).s else y.s;
    match m
    case Handler(q, a, patient) => System(s, y.waits[q := WaitOf(y.s, q, a, patient)])
    case Resume(q) => System(s, y.waits[q := None])
    case _ => System(s, y.waits)
  }

  ghost predicate SystemRun(ys: seq<System>, ms: seq<Move>) {
    && |ys| == |ms| + 1 && Init(ys[0].s)
    && |ys[0].waits| == |ys[0].s.queues| && (forall q :: 0 <= q < |ys[0].waits| ==> ys[0].waits[q].None?)
    && forall i :: 0 <= i < |ms| ==> MoveAt(ys, ms, i)
  }

  ghost predicate MoveAt(ys: seq<System>, ms: seq<Move>, i: nat)
    requires i < |ms| && |ys| == |ms| + 1
  {
    Can(ys[i], ms[i]) && ys[i + 1] == After(ys[i], ms[i])
  }

  // ---------------------------------------------------------------- what every move keeps

  predicate WaitOk(s: State, x: Wait) {
    match x
    case ForFlusher(f) => f < |s.flushers|
    case ForCanceller(c) => c < s.cancellers
    case ForDrain(q) => q < |s.queues|
    case ForExit(q, _) => q < |s.queues| && (s.queues[q].pc.Exited? || s.queues[q].flags.stop)
  }

  predicate WaiterOk(y: System, q: nat)
    requires q < |y.waits|
  {
    y.waits[q].Some? ==>
      && q < |y.s.queues| && y.s.queues[q].pc.Running? && y.s.queues[q].pc.node.ItemNode?
      && WaitOk(y.s, y.waits[q].value)
  }

  /** Every canceller has its own number. */
  ghost predicate NumbersOk(s: State) {
    && (forall i :: 0 <= i < |s.cancels| ==> s.cancels[i].id < s.cancellers)
    && (forall i, j :: 0 <= i < j < |s.cancels| ==> s.cancels[i].id != s.cancels[j].id)
  }

  ghost predicate SystemOk(y: System) {
    && Inv(y.s) && WellFormed(y.s) && NumbersOk(y.s) && |y.waits| == |y.s.queues|
    && (forall q :: 0 <= q < |y.waits| ==> WaiterOk(y, q))
    && (forall q :: 0 <= q < |y.s.queues| ==> Drainers(y.waits, q) <= y.s.queues[q].drainers)
  }

  lemma StepKeepsNumbers(s: State, a: Action)
    requires Inv(s) && WellFormed(s) && Enabled(s, a) && NumbersOk(s)
    ensures NumbersOk(Next(s, a).s) && Next(s, a).s.cancellers >= s.cancellers
  {
    match a
    case WorkerFinish(q) => FinishKeepsNumbers(s, q);
    case CancelSync(w) => CancelSyncKeepsNumbers(s, w);
    case _ => assert Next(s, a).s.cancels == s.cancels;
  }

  lemma CancelSyncKeepsNumbers(s: State, w: nat)
    requires w < |s.items| && (!Idle(s.items[w].flags) ==> CancelDefined(s, w)) && NumbersOk(s)
    ensures var t := CancelSyncLocked(s, w).s; NumbersOk(t) && t.cancellers >= s.cancellers
  {
  }

  lemma FinishKeepsNumbers(s: State, q: nat)
    requires Inv(s) && WellFormed(s) && q < |s.queues| && s.queues[q].pc.Running? && NumbersOk(s)
    ensures NumbersOk(FinishLocked(s, q)) && FinishLocked(s, q).cancellers == s.cancellers
  {
    var n := s.queues[q].pc.node;
    if n.ItemNode? && Oldest(s.cancels, n.w) < |s.cancels| {
      RemovedAt(s.cancels, Oldest(s.cancels, n.w));
    }
  }

  /** A worker that runs an item goes on running it until it finishes. */
  lemma StepKeepsRunning(s: State, a: Action, q: nat)
    requires Inv(s) && WellFormed(s) && Enabled(s, a)
    requires q < |s.queues| && s.queues[q].pc.Running? && a != WorkerFinish(q)
    ensures q < |Next(s, a).s.queues| && Next(s, a).s.queues[q].pc == s.queues[q].pc
    ensures s.queues[q].drainq == [] ==> Next(s, a).s.queues[q].drainq == []
  {
    StepQueue(s, a, q);
  }

  lemma StepKeepsWait(s: State, a: Action, x: Wait)
    requires Inv(s) && WellFormed(s) && Enabled(s, a) && NumbersOk(s) && WaitOk(s, x)
    requires a.Start? ==> !Joins(x, a.q)
    ensures WaitOk(Next(s, a).s, x)
  {
    match x
    case ForFlusher(f) => FlusherFixed(s, a, f);
    case ForCanceller(c) => StepKeepsNumbers(s, a);
    case ForDrain(q) => StepQueue(s, a, q);
    case ForExit(q, _) => StepQueue(s, a, q);
  }

  lemma NewWait(s: State, h: nat, a: Action, patient: bool)
    requires Inv(s) && WellFormed(s) && Enabled(s, a) && WaitOf(s, h, a, patient).Some?
    ensures WaitOk(Next(s, a).s, WaitOf(s, h, a, patient).value)
    ensures !a.Start? && !a.DrainReturn?
    ensures WaitOf(s, h, a, patient).value.ForDrain? <==> a.Drain?
    ensures a.Drain? ==> WaitOf(s, h, a, patient).value.q == a.q && Next(s, a).reply == Nothing
  {
  }

  lemma {:induction false} DrainersChange(waits: seq<Option<Wait>>, q: nat, x: Option<Wait>, p: nat)
    requires q < |waits|
    ensures Drainers(waits[q := x], p) ==
            Drainers(waits, p) - (if waits[q] == Some(ForDrain(p)) then 1 else 0)
            + (if x == Some(ForDrain(p)) then 1 else 0)
  {
    if q > 0 {
      assert waits[q := x][1..] == waits[1..][q - 1 := x];
      DrainersChange(waits[1..], q - 1, x, p);
    } else {
      assert waits[q := x][1..] == waits[1..];
    }
  }

  lemma {:induction false} WaiterCounts(waits: seq<Option<Wait>>, q: nat, p: nat)
    requires q < |waits| && waits[q] == Some(ForDrain(p))
    ensures Drainers(waits, p) > 0
  {
    if q > 0 {
      WaiterCounts(waits[1..], q - 1, p);
    }
  }

  /** How many drain callers a step adds to or takes from a queue. */
  lemma StepDrainers(s: State, a: Action, p: nat)
    requires Inv(s) && WellFormed(s) && Enabled(s, a) && p < |s.queues|
    ensures p < |Next(s, a).s.queues|
    ensures Next(s, a).s.queues[p].drainers ==
            s.queues[p].drainers - (if a == DrainReturn(p) then 1 else 0)
            + (if a.Drain? && a.q == p && Next(s, a).reply == Nothing then 1 else 0)
  {
    StepQueue(s, a, p);
  }

  lemma MoveKeepsWaiter(y: System, m: Move, q: nat)
    requires SystemOk(y) && Can(y, m) && q < |y.waits|
    ensures q < |After(y, m).waits| && WaiterOk(After(y, m), q)
  {
    var z := After(y, m);
    assert WaiterOk(y, q);
    if StepOf(y, m).Some? {
      var a := StepOf(y, m).value;
      if z.waits[q].Some? {
        StepKeepsRunning(y.s, a, q);
        if y.waits[q] == z.waits[q] {
          StepKeepsWait(y.s, a, z.waits[q].value);
        } else {
          NewWait(y.s, m.q, a, m.patient);
        }
      }
    }
  }

  lemma MoveKeepsDrainers(y: System, m: Move, p: nat)
    requires SystemOk(y) && Can(y, m) && p < |y.s.queues|
    ensures p < |After(y, m).s.queues| && Drainers(After(y, m).waits, p) <= After(y, m).s.queues[p].drainers
  {
    if StepOf(y, m).Some? {
      StepDrainers(y.s, StepOf(y, m).value, p);
    }
    match m
    case Handler(q, a, patient) =>
      DrainersChange(y.waits, q, WaitOf(y.s, q, a, patient), p);
      if WaitOf(y.s, q, a, patient).Some? { NewWait(y.s, q, a, patient); }
    case Resume(q) => DrainersChange(y.waits, q, None, p);
    case _ =>
  }

  lemma MoveKeepsSystem(y: System, m: Move)
    requires SystemOk(y) && Can(y, m)
    ensures SystemOk(After(y, m))
  {
    var z := After(y, m);
    if StepOf(y, m).Some? {
      var a := StepOf(y, m).value;
      StepKeepsInv(y.s, a);
      InvWellFormed(z.s);
      StepKeepsNumbers(y.s, a);
      QueuesStay(y.s, a);
    }
    forall q | 0 <= q < |z.waits|
      ensures WaiterOk(z, q)
    {
      MoveKeepsWaiter(y, m, q);
    }
    forall p | 0 <= p < |z.s.queues|
      ensures Drainers(z.waits, p) <= z.s.queues[p].drainers
    {
      MoveKeepsDrainers(y, m, p);
    }
  }

  lemma {:induction false} NoWaits(waits: seq<Option<Wait>>, q: nat)
    requires forall i :: 0 <= i < |waits| ==> waits[i].None?
    ensures Drainers(waits, q) == 0
  {
    if waits != [] {
      NoWaits(waits[1..], q);
    }
  }

  lemma {:induction false} RunKeepsSystem(ys: seq<System>, ms: seq<Move>, k: nat)
    requires SystemRun(ys, ms) && k <= |ms|
    ensures SystemOk(ys[k])
  {
    if k == 0 {
      InitInv(ys[0].s);
      InvWellFormed(ys[0].s);
      forall q | 0 <= q < |ys[0].s.queues|
        ensures Drainers(ys[0].waits, q) <= ys[0].s.queues[q].drainers
      {
        NoWaits(ys[0].waits, q);
      }
    } else {
      RunKeepsSystem(ys, ms, k - 1);
      assert MoveAt(ys, ms, k - 1);
      MoveKeepsSystem(ys[k - 1], ms[k - 1]);
    }
  }

  /** Its states are states of runs of WorkModel, so everything proved of these holds here. */
  lemma {:induction false} SystemRunReaches(ys: seq<System>, ms: seq<Move>, k: nat)
    requires SystemRun(ys, ms) && k <= |ms|
    ensures Reachable(ys[k].s)
  {
    if k == 0 {
      var ss: seq<State>, acts: seq<Action> := [ys[0].s], [];
      assert RunFromInit(ss, acts) && ss[|acts|] == ys[0].s;
    } else {
      SystemRunReaches(ys, ms, k - 1);
      assert MoveAt(ys, ms, k - 1);
      if StepOf(ys[k - 1], ms[k - 1]).Some? {
        ReachesNext(ys[k - 1].s, StepOf(ys[k - 1], ms[k - 1]).value);
      }
    }
  }

  /** Who makes a step when no handler waits: a chained submission is its handler's, any other call a client's. */
  function MoveOf(a: Action): Move {
    match a
    case Submit(_, _, caller) => if caller.WorkerOf? then Handler(caller.q, a, true) else Client(a)
    case Resubmit(_, caller) => if caller.WorkerOf? then Handler(caller.q, a, true) else Client(a)
    case WorkerTurn(_) => Worker(a)
    case WorkerWake(_) => Worker(a)
    case WorkerFinish(_) => Worker(a)
    case _ => Client(a)
  }

  lemma MoveOfCan(s: State, waits: seq<Option<Wait>>, a: Action)
    requires WellFormed(s) && Enabled(s, a) && |waits| == |s.queues| && forall q :: 0 <= q < |waits| ==> waits[q].None?
    ensures var y := System(s, waits);
            Can(y, MoveOf(a)) && StepOf(y, MoveOf(a)) == Some(a) && After(y, MoveOf(a)) == System(Next(s, a).s, waits)
  {
    if a.DrainReturn? {
      NoWaits(waits, a.q);
    }
    if MoveOf(a).Handler? {
      assert waits[MoveOf(a).q := None] == waits;
    }
  }

  /** And nothing is lost: every run of WorkModel is one of these, step by step, in which no handler waits. */
  lemma RunsAreSystemRuns(ss: seq<State>, acts: seq<Action>) returns (ys: seq<System>, ms: seq<Move>)
    requires RunFromInit(ss, acts)
    ensures SystemRun(ys, ms) && |ms| == |acts|
    ensures forall k :: 0 <= k <= |acts| ==> ys[k].s == ss[k]
    ensures forall k :: 0 <= k < |acts| ==> StepOf(ys[k], ms[k]) == Some(acts[k])
  {
    var waits := seq(|ss[0].queues|, _ => None);
    ys := seq(|ss|, k requires 0 <= k < |ss| => System(ss[k], waits));
    ms := seq(|acts|, k requires 0 <= k < |acts| => MoveOf(acts[k]));
    forall i | 0 <= i < |acts|
      ensures MoveAt(ys, ms, i) && StepOf(ys[i], ms[i]) == Some(acts[i])
    {
      assert StepAt(ss, acts, i);
      SameQueues(ss, acts, i);
      MoveOfCan(ss[i], waits, acts[i]);
    }
  }

  lemma {:induction false} SameQueues(ss: seq<State>, acts: seq<Action>, k: nat)
    requires Run(ss, acts) && k <= |acts|
    ensures |ss[k].queues| == |ss[0].queues|
  {
    if k > 0 {
      assert StepAt(ss, acts, k - 1);
      SameQueues(ss, acts, k - 1);
      QueuesStay(ss[k - 1], acts[k - 1]);
    }
  }

  // ---------------------------------------------------------------- waiting for a worker

  ghost predicate Blocked(y: System, q: nat) {
    q < |y.waits| && y.waits[q].Some? && !Over(y.s, y.waits[q].value)
  }

  /** q's handler waits for something that only the worker of p can bring about. */
  ghost predicate WaitsFor(y: System, q: nat, p: nat) {
    && Blocked(y, q) && p < |y.s.queues|
    && match y.waits[q].value
       case ForFlusher(f) => f < |y.s.flushers| && y.s.flushers[f].home == p
       case ForCanceller(c) =>
         exists i :: 0 <= i < |y.s.cancels| && y.s.cancels[i].id == c && RunsOn(y.s, p, y.s.cancels[i].w)
       case ForDrain(r) => r == p
       case ForExit(r, _) => r == p
  }

  /** Each handler in c waits for the worker of the next, and the last for the first. */
  ghost predicate Cycle(y: System, c: seq<nat>) {
    c != [] && forall i :: 0 <= i < |c| ==> WaitsFor(y, c[i], c[if i + 1 < |c| then i + 1 else 0])
  }

  /** The canceller with number c of an item that p runs stays registered until p finishes. */
  lemma StepKeepsCanceller(s: State, a: Action, i: nat, p: nat) returns (j: nat)
    requires Inv(s) && WellFormed(s) && Enabled(s, a) && i < |s.cancels| && RunsOn(s, p, s.cancels[i].w)
    requires a != WorkerFinish(p)
    ensures var t := Next(s, a).s; j < |t.cancels| && t.cancels[j] == s.cancels[i] && RunsOn(t, p, t.cancels[j].w)
  {
    StepKeepsRunning(s, a, p);
    if a.WorkerFinish? {
      j := FinishKeepsCanceller(s, a.q, i, p);
    } else {
      j := i;
    }
  }

  lemma FinishKeepsCanceller(s: State, q: nat, i: nat, p: nat) returns (j: nat)
    requires Inv(s) && WellFormed(s) && q < |s.queues| && s.queues[q].pc.Running? && q != p
    requires i < |s.cancels| && RunsOn(s, p, s.cancels[i].w)
    ensures j < |FinishLocked(s, q).cancels| && FinishLocked(s, q).cancels[j] == s.cancels[i]
  {
    assert WorkerOk(s, p) && WorkerOk(s, q);
    var n := s.queues[q].pc.node;
    j := i;
    if n.ItemNode? && s.items[n.w].flags.canceling {
      var o := Oldest(s.cancels, n.w);
      if o < |s.cancels| {
        RemovedAt(s.cancels, o);
        j := if i < o then i else i - 1;
      }
    }
  }

  lemma StepKeepsFlusher(s: State, a: Action, f: nat)
    requires Inv(s) && WellFormed(s) && Enabled(s, a) && f < |s.flushers| && !s.flushers[f].released
    requires a != WorkerFinish(s.flushers[f].home)
    ensures var t := Next(s, a).s;
            f < |t.flushers| && !t.flushers[f].released && t.flushers[f].home == s.flushers[f].home
  {
    FlusherFixed(s, a, f);
    if a.WorkerFinish? {
      assert WorkerOk(s, a.q);
    }
  }

  /** As long as neither q nor p gets anywhere, the one goes on waiting for the other. */
  lemma StepKeepsWaiting(y: System, a: Action, q: nat, p: nat)
    requires SystemOk(y) && Enabled(y.s, a) && WaitsFor(y, q, p)
    requires p < |y.waits| && y.waits[p].Some? && a != WorkerFinish(p)
    ensures WaitsFor(System(Next(y.s, a).s, y.waits), q, p)
  {
    assert WaiterOk(y, p) && WaiterOk(y, q);
    var t := Next(y.s, a).s;
    StepKeepsRunning(y.s, a, p);
    match y.waits[q].value
    case ForFlusher(f) => StepKeepsFlusher(y.s, a, f);
    case ForCanceller(c) =>
      var i :| 0 <= i < |y.s.cancels| && y.s.cancels[i].id == c && RunsOn(y.s, p, y.s.cancels[i].w);
      var j := StepKeepsCanceller(y.s, a, i, p);
      assert t.cancels[j].id == c;
    case _ =>
  }

  /** A move belongs to the worker of q or to its handler. */
  predicate MovesOn(m: Move, q: nat) {
    match m
    case Client(_) => false
    case Handler(p, _, _) => p == q
    case Worker(a) => IsWorkerOf(a, q)
    case Resume(p) => p == q
  }

  predicate IsWorkerOf(a: Action, q: nat) {
    a == WorkerTurn(q) || a == WorkerWake(q) || a == WorkerFinish(q)
  }

  /** No move belongs to a handler that waits for another or to its worker. */
  lemma BlockedCannotMove(y: System, m: Move, q: nat)
    requires SystemOk(y) && Can(y, m) && Blocked(y, q)
    ensures !MovesOn(m, q)
  {
    assert WaiterOk(y, q);
  }

  lemma MoveKeepsCycle(y: System, m: Move, c: seq<nat>)
    requires SystemOk(y) && Can(y, m) && Cycle(y, c)
    ensures Cycle(After(y, m), c)
  {
    var z := After(y, m);
    forall i | 0 <= i < |c|
      ensures WaitsFor(z, c[i], c[if i + 1 < |c| then i + 1 else 0])
    {
      var j := if i + 1 < |c| then i + 1 else 0;
      assert WaitsFor(y, c[i], c[j]) && Blocked(y, c[j]) by {
        assert WaitsFor(y, c[j], c[if j + 1 < |c| then j + 1 else 0]);
      }
      BlockedCannotMove(y, m, c[i]);
      BlockedCannotMove(y, m, c[j]);
      assert z.waits[c[i]] == y.waits[c[i]];
      if StepOf(y, m).Some? {
        StepKeepsWaiting(y, StepOf(y, m).value, c[i], c[j]);
      }
    }
  }

  /**
   A cycle of waits is for ever: whatever clients and other workers do, none of the workers in it takes a further step,
   and none of the handlers returns.
   */
  lemma {:induction false} CycleIsForEver(ys: seq<System>, ms: seq<Move>, k: nat, j: nat, c: seq<nat>)
    requires SystemRun(ys, ms) && k <= j <= |ms| && Cycle(ys[k], c)
    ensures Cycle(ys[j], c)
    ensures forall n, i :: k <= n < j && 0 <= i < |c| ==> !MovesOn(ms[n], c[i])
  {
    if k < j {
      CycleIsForEver(ys, ms, k, j - 1, c);
      RunKeepsSystem(ys, ms, j - 1);
      assert MoveAt(ys, ms, j - 1);
      MoveKeepsCycle(ys[j - 1], ms[j - 1], c);
      forall i | 0 <= i < |c|
        ensures !MovesOn(ms[j - 1], c[i])
      {
        assert WaitsFor(ys[j - 1], c[i], c[if i + 1 < |c| then i + 1 else 0]);
        BlockedCannotMove(ys[j - 1], ms[j - 1], c[i]);
      }
    }
  }

  // ---------------------------------------------------------------- what a handler's call waits for

  /** The calls that make a handler of queue q wait. A patient stop of q itself fails at once. */
  predicate MustWait(s: State, q: nat, a: Action, patient: bool) {
    match a
    case Flush(w) => w < |s.items| && (s.items[w].flags.queued || s.items[w].flags.running)
    case CancelSync(w) => w < |s.items| && s.items[w].flags.running
    case Drain(p, plug) =>
      && p < |s.queues| && Alive(s.queues[p])
      && (s.queues[p].pc.Running? || s.queues[p].pending != [] || s.queues[p].flags.drain || plug)
    case Stop(p) => p < |s.queues| && Alive(s.queues[p]) && s.queues[p].flags.plugged && !(p == q && patient)
    case _ => false
  }

  /**
   What a call made in state s0 waits for has not happened in s: the release of the flusher or of the canceller that the
   call created, a drain token, the exit of the worker. A stop that is not patient need not wait for anything.
   */
  ghost predicate Outstanding(s0: State, s: State, a: Action, patient: bool) {
    match a
    case Flush(_) => |s0.flushers| < |s.flushers| && !s.flushers[|s0.flushers|].released
    case CancelSync(_) => exists i :: 0 <= i < |s.cancels| && s.cancels[i].id == s0.cancellers
    case Drain(p, _) => p < |s.queues| && s.queues[p].drainq == []
    case Stop(p) => patient && p < |s.queues| && !s.queues[p].pc.Exited?
    case _ => false
  }

  lemma WaitsIff(y: System, q: nat, a: Action, patient: bool)
    requires SystemOk(y) && Can(y, Handler(q, a, patient))
    ensures After(y, Handler(q, a, patient)).waits[q].Some? <==> MustWait(y.s, q, a, patient)
  {
    match a
    case Flush(w) => assert ItemLocal(y.s, w);
    case CancelSync(w) => assert ItemLocal(y.s, w);
    case Drain(p, _) => assert QueueLocal(y.s.queues[p]);
    case Stop(p) => assert QueueLocal(y.s.queues[p]);
    case _ =>
  }

  /** x is what the handler waits for after call a in state s0. */
  predicate Awaits(s0: State, a: Action, patient: bool, x: Wait) {
    match a
    case Flush(_) => x == ForFlusher(|s0.flushers|)
    case CancelSync(_) => x == ForCanceller(s0.cancellers)
    case Drain(p, _) => x == ForDrain(p)
    case Stop(p) => x == ForExit(p, patient)
    case _ => false
  }

  /** As long as neither it nor its worker moves, a handler goes on waiting for the same thing. */
  lemma {:induction false} GoesOnWaiting(ys: seq<System>, ms: seq<Move>, k: nat, j: nat)
    requires SystemRun(ys, ms) && k < j <= |ms| && ms[k].Handler?
    requires MustWait(ys[k].s, ms[k].q, ms[k].a, ms[k].patient)
    requires forall n :: k < n < j ==> !MovesOn(ms[n], ms[k].q)
    ensures ms[k].q < |ys[j].waits| && ys[j].waits[ms[k].q].Some?
    ensures Awaits(ys[k].s, ms[k].a, ms[k].patient, ys[j].waits[ms[k].q].value)
    decreases j
  {
    assert MoveAt(ys, ms, j - 1);
    if k == j - 1 {
      RunKeepsSystem(ys, ms, k);
      WaitsIff(ys[k], ms[k].q, ms[k].a, ms[k].patient);
    } else {
      GoesOnWaiting(ys, ms, k, j - 1);
    }
  }

  lemma OverIff(y: System, q: nat, s0: State, a: Action, patient: bool)
    requires SystemOk(y) && q < |y.waits| && y.waits[q].Some? && Awaits(s0, a, patient, y.waits[q].value)
    ensures Over(y.s, y.waits[q].value) <==> !Outstanding(s0, y.s, a, patient)
  {
    assert WaiterOk(y, q);
  }

  lemma OverCanResume(y: System, q: nat)
    requires SystemOk(y) && q < |y.waits| && y.waits[q].Some? && Over(y.s, y.waits[q].value)
    ensures Can(y, Resume(q))
  {
    assert WaiterOk(y, q);
    if y.waits[q].value.ForDrain? {
      WaiterCounts(y.waits, q, y.waits[q].value.q);
    }
  }

  /**
   A handler that made such a call, and whose wait nobody has ended yet: nothing of it or its worker can move but the
   end of the wait, and that if and only if what it waits for has happened.
   */
  lemma HandlerWaits(ys: seq<System>, ms: seq<Move>, k: nat, j: nat, m: Move)
    requires SystemRun(ys, ms) && k < j <= |ms| && ms[k].Handler?
    requires MustWait(ys[k].s, ms[k].q, ms[k].a, ms[k].patient)
    requires forall n :: k < n < j ==> !MovesOn(ms[n], ms[k].q)
    requires MovesOn(m, ms[k].q)
    ensures Can(ys[j], m) <==>
            m == Resume(ms[k].q) && !Outstanding(ys[k].s, ys[j].s, ms[k].a, ms[k].patient)
  {
    var q := ms[k].q;
    GoesOnWaiting(ys, ms, k, j);
    RunKeepsSystem(ys, ms, j);
    OverIff(ys[j], q, ys[k].s, ms[k].a, ms[k].patient);
    assert WaiterOk(ys[j], q);
    if Over(ys[j].s, ys[j].waits[q].value) {
      OverCanResume(ys[j], q);
    }
  }

  /** So no move belongs to the handler or to its worker until then. */
  lemma {:induction false} HandlerBlocks(ys: seq<System>, ms: seq<Move>, k: nat, j: nat)
    requires SystemRun(ys, ms) && k < j <= |ms| && ms[k].Handler?
    requires MustWait(ys[k].s, ms[k].q, ms[k].a, ms[k].patient)
    requires forall n :: k < n < j ==> Outstanding(ys[k].s, ys[n].s, ms[k].a, ms[k].patient)
    ensures forall n :: k < n < j ==> !MovesOn(ms[n], ms[k].q)
    decreases j
  {
    if k + 1 < j {
      HandlerBlocks(ys, ms, k, j - 1);
      assert MoveAt(ys, ms, j - 1);
      if MovesOn(ms[j - 1], ms[k].q) {
        HandlerWaits(ys, ms, k, j - 1, ms[j - 1]);
      }
    }
  }

  /** Any other call returns at once, and a handler whose wait has ended can return. */
  lemma HandlerGoesOn(ys: seq<System>, ms: seq<Move>, k: nat)
    requires SystemRun(ys, ms) && k < |ms| && (ms[k].Handler? || ms[k].Resume?)
    requires ms[k].Handler? ==> !MustWait(ys[k].s, ms[k].q, ms[k].a, ms[k].patient)
    ensures Can(ys[k + 1], Worker(WorkerFinish(ms[k].q)))
  {
    RunKeepsSystem(ys, ms, k);
    RunKeepsSystem(ys, ms, k + 1);
    assert MoveAt(ys, ms, k);
    var y, q := ys[k], ms[k].q;
    assert WaiterOk(y, q);
    if ms[k].Handler? {
      WaitsIff(y, q, ms[k].a, ms[k].patient);
    }
    if StepOf(y, ms[k]).Some? {
      StepKeepsRunning(y.s, StepOf(y, ms[k]).value, q);
    }
  }

  /** A handler that has just been started can make each of these calls. */
  lemma NewHandlerCalls(ys: seq<System>, ms: seq<Move>, k: nat, q: nat, a: Action, patient: bool)
    requires SystemRun(ys, ms) && k < |ms| && ms[k] == Worker(WorkerTurn(q))
    requires q < |ys[k + 1].s.queues| && ys[k + 1].s.queues[q].pc.Running? && ys[k + 1].s.queues[q].pc.node.ItemNode?
    requires match a
             case Flush(w) => w < |ys[k + 1].s.items|
             case CancelSync(w) => w < |ys[k + 1].s.items|
             case Drain(p, _) => p < |ys[k + 1].s.queues|
             case Stop(p) => p < |ys[k + 1].s.queues|
             case _ => false
    ensures Can(ys[k + 1], Handler(q, a, patient))
  {
    RunKeepsSystem(ys, ms, k);
    RunKeepsSystem(ys, ms, k + 1);
    assert MoveAt(ys, ms, k);
    assert WaiterOk(ys[k], q);
  }

  // ---------------------------------------------------------------- a handler that waits for itself

  /** The queue whose worker a waiting call depends on. */
  function TargetOf(s: State, a: Action): Option<nat> {
    match a
    case Flush(w) => if w < |s.items| then s.items[w].owner else None
    case CancelSync(w) => if w < |s.items| then s.items[w].owner else None
    case Drain(q, _) => Some(q)
    case Stop(q) => Some(q)
    case _ => None
  }

  lemma CancellerRegistered(s: State, w: nat)
    requires Inv(s) && WellFormed(s) && Enabled(s, CancelSync(w)) && CancelSyncLocked(s, w).s.cancellers > s.cancellers
    ensures var t := Next(s, CancelSync(w)).s;
            && t.cancels == s.cancels + [Canceller(s.cancellers, w)] && s.items[w].flags.running
            && forall q :: 0 <= q < |s.queues| ==> t.queues[q].pc == s.queues[q].pc
  {
    assert ItemLocal(s, w);
  }

  /** The handler on the worker of q makes call a and goes on to wait. */
  ghost predicate CallWaits(y: System, q: nat, a: Action, patient: bool) {
    Can(y, Handler(q, a, patient)) && WaitOf(y.s, q, a, patient).Some?
  }

  /** It waits for the worker of its target. */
  lemma CallWaitsForTarget(y: System, q: nat, a: Action, patient: bool)
    requires SystemOk(y) && CallWaits(y, q, a, patient)
    requires a.Drain? && a.q < |y.s.queues| ==> y.s.queues[a.q].drainq == []
    requires a.Stop? && a.q < |y.s.queues| ==> patient && !y.s.queues[a.q].pc.Exited?
    ensures TargetOf(y.s, a).Some? && WaitsFor(After(y, Handler(q, a, patient)), q, TargetOf(y.s, a).value)
  {
    match a
    case CancelSync(w) => CancellerWaits(y, q, w, patient);
    case Drain(p, plug) => StepQueue(y.s, a, p);
    case Stop(p) => StepQueue(y.s, a, p);
    case _ =>
  }

  lemma CancellerWaits(y: System, q: nat, w: nat, patient: bool)
    requires SystemOk(y) && CallWaits(y, q, CancelSync(w), patient)
    ensures TargetOf(y.s, CancelSync(w)).Some?
    ensures WaitsFor(After(y, Handler(q, CancelSync(w), patient)), q, TargetOf(y.s, CancelSync(w)).value)
  {
    var z := After(y, Handler(q, CancelSync(w), patient));
    CancellerRegistered(y.s, w);
    assert ItemPlaced(y.s, w) && ItemLocal(y.s, w);
    var i := |y.s.cancels|;
    assert z.s.cancels[i].id == y.s.cancellers && RunsOn(z.s, y.s.items[w].owner.value, z.s.cancels[i].w);
  }

  lemma SelfCancelIff(y: System, q: nat, w: nat, patient: bool)
    requires SystemOk(y) && CallWaits(y, q, CancelSync(w), patient) && q < |y.s.queues|
    ensures WaitsFor(After(y, Handler(q, CancelSync(w), patient)), q, q) <==> TargetOf(y.s, CancelSync(w)) == Some(q)
  {
    var z := After(y, Handler(q, CancelSync(w), patient));
    CancellerWaits(y, q, w, patient);
    CancellerRegistered(y.s, w);
    assert RunsOn(z.s, q, w) ==> RunsOn(y.s, q, w) && WorkerOk(y.s, q);
  }

  /** A call of q's handler about an item that q holds, or a drain of q, for which no token is left. */
  predicate ConcernsItself(s: State, q: nat, a: Action) {
    match a
    case Flush(w) =>
      && w < |s.items| && (s.items[w].flags.queued || s.items[w].flags.running) && s.items[w].owner == Some(q)
    case CancelSync(w) => w < |s.items| && s.items[w].flags.running && s.items[w].owner == Some(q)
    case Drain(p, _) => p == q && q < |s.queues| && s.queues[q].drainq == []
    case _ => false
  }

  /**
   A handler's call makes it wait for its own worker if and only if it flushes an item that is queued or running on its
   own queue, synchronously cancels one that runs there, or drains the queue while no earlier drain's token is there to
   take. A stop never does.
   */
  lemma SelfWaitIff(y: System, q: nat, a: Action, patient: bool)
    requires SystemOk(y) && Can(y, Handler(q, a, patient)) && q < |y.s.queues|
    ensures WaitsFor(After(y, Handler(q, a, patient)), q, q) <==> ConcernsItself(y.s, q, a)
  {
    WaitsIff(y, q, a, patient);
    match a
    case CancelSync(w) => if WaitOf(y.s, q, a, patient).Some? { SelfCancelIff(y, q, w, patient); }
    case Flush(w) => if WaitOf(y.s, q, a, patient).Some? { CallWaitsForTarget(y, q, a, patient); }
    case Drain(p, plug) => StepQueue(y.s, a, p);
    case _ =>
  }

  /**
   A handler must not wait for its own queue: such a flush, synchronous cancel or drain is a cycle of one. So the
   handler never returns and its worker never moves again.
   */
  lemma WaitingForOneselfIsForEver(ys: seq<System>, ms: seq<Move>, k: nat, j: nat, q: nat)
    requires SystemRun(ys, ms) && k < j <= |ms| && ms[k].Handler? && ms[k].q == q
    requires ConcernsItself(ys[k].s, q, ms[k].a)
    ensures Cycle(ys[j], [q])
    ensures forall n :: k < n < j ==> !MovesOn(ms[n], q)
    ensures forall m :: MovesOn(m, q) ==> !Can(ys[j], m)
  {
    RunKeepsSystem(ys, ms, k);
    assert MoveAt(ys, ms, k);
    SelfWaitIff(ys[k], q, ms[k].a, ms[k].patient);
    assert Cycle(ys[k + 1], [q]);
    CycleIsForEver(ys, ms, k + 1, j, [q]);
    assert forall n :: k < n < j ==> !MovesOn(ms[n], [q][0]);
    RunKeepsSystem(ys, ms, j);
    assert WaitsFor(ys[j], [q][0], q);
    forall m | MovesOn(m, q)
      ensures !Can(ys[j], m)
    {
      if Can(ys[j], m) { BlockedCannotMove(ys[j], m, q); }
    }
  }

  /** A handler that stops its own queue does not hold up its worker: it can finish, or end its wait and then finish. */
  lemma StoppingOneselfReturns(y: System, q: nat, patient: bool)
    requires SystemOk(y) && Can(y, Handler(q, Stop(q), patient))
    ensures var z := After(y, Handler(q, Stop(q), patient));
            if z.waits[q].None? then Can(z, Worker(WorkerFinish(q)))
            else Can(z, Resume(q)) && Can(After(z, Resume(q)), Worker(WorkerFinish(q)))
  {
    MoveKeepsSystem(y, Handler(q, Stop(q), patient));
    StepQueue(y.s, Stop(q), q);
  }

  // ---------------------------------------------------------------- otherwise somebody can move

  /** What clients keep to so that nobody is left behind: see WorkDrain, WorkCancel and WorkLiveness. */
  ghost predicate Careful(s: State, a: Action) {
    && (forall q :: 0 <= q < |s.queues| ==> DrainsOneByOne(s.queues[q], a, q) && StopsAfterDrain(s.queues[q], a, q))
    && (forall w: nat :: CancelsOneByOne(s, a, w))
  }

  ghost predicate QueueServed(qq: Queue) {
    DrainOk(qq) && Awake(qq) && !Both(qq)
  }

  ghost predicate Served(s: State) {
    && (forall q :: 0 <= q < |s.queues| ==> QueueServed(s.queues[q]))
    && (forall w: nat :: CancelsOk(s, w))
  }

  lemma StepKeepsServed(s: State, a: Action)
    requires Inv(s) && WellFormed(s) && Enabled(s, a) && Careful(s, a) && Served(s)
    ensures Served(Next(s, a).s)
  {
    var t := Next(s, a).s;
    QueuesStay(s, a);
    forall q | 0 <= q < |t.queues|
      ensures QueueServed(t.queues[q])
    {
      assert DrainsOneByOne(s.queues[q], a, q) && StopsAfterDrain(s.queues[q], a, q);
      assert QueueServed(s.queues[q]);
      StepKeepsDrainOk(s, a, q);
      OverlapsIff(s, a, q);
      WakeupKeptIff(s, a, q);
    }
    forall w: nat
      ensures CancelsOk(t, w)
    {
      assert CancelsOneByOne(s, a, w);
      StepKeepsCancels(s, a, w);
    }
  }

  ghost predicate CarefulRun(ys: seq<System>, ms: seq<Move>) {
    && SystemRun(ys, ms)
    && forall i :: 0 <= i < |ms| && StepOf(ys[i], ms[i]).Some? ==> Careful(ys[i].s, StepOf(ys[i], ms[i]).value)
  }

  lemma {:induction false} CarefulRunServes(ys: seq<System>, ms: seq<Move>, k: nat)
    requires CarefulRun(ys, ms) && k <= |ms|
    ensures SystemOk(ys[k]) && Served(ys[k].s)
  {
    RunKeepsSystem(ys, ms, k);
    if k > 0 {
      CarefulRunServes(ys, ms, k - 1);
      assert MoveAt(ys, ms, k - 1);
      if StepOf(ys[k - 1], ms[k - 1]).Some? {
        StepKeepsServed(ys[k - 1].s, StepOf(ys[k - 1], ms[k - 1]).value);
      }
    }
  }

  predicate Busy(qq: Queue) {
    qq.pc.Running? || qq.pending != [] || qq.flags.drain || qq.flags.stop
  }

  /** The worker of q, or its handler, can take a step. */
  ghost predicate CanMove(y: System, q: nat) {
    exists m :: MovesOn(m, q) && Can(y, m)
  }

  /** A busy queue can move, unless its handler waits for another busy queue. */
  lemma MovesOrWaits(y: System, q: nat) returns (p: nat)
    requires SystemOk(y) && Served(y.s) && q < |y.s.queues| && Busy(y.s.queues[q]) && !CanMove(y, q)
    ensures p < |y.s.queues| && WaitsFor(y, q, p) && Busy(y.s.queues[p])
  {
    var qq := y.s.queues[q];
    assert QueueLocal(qq) && WaiterOk(y, q) && QueueServed(qq);
    if y.waits[q].None? {
      var m := Worker(WorkerAction(qq, q));
      assert MovesOn(m, q) && Can(y, m);
      assert false;
    }
    var x := y.waits[q].value;
    if Over(y.s, x) {
      OverCanResume(y, q);
      assert MovesOn(Resume(q), q);
      assert false;
    }
    p := AwaitedQueue(y, q);
  }

  lemma AwaitedQueue(y: System, q: nat) returns (p: nat)
    requires SystemOk(y) && Served(y.s) && Blocked(y, q)
    ensures p < |y.s.queues| && WaitsFor(y, q, p) && Busy(y.s.queues[p])
  {
    assert WaiterOk(y, q);
    match y.waits[q].value
    case ForFlusher(f) =>
      assert FlusherOk(y.s, f);
      p := y.s.flushers[f].home;
    case ForCanceller(c) =>
      var i :| 0 <= i < |y.s.cancels| && y.s.cancels[i].id == c;
      var w := y.s.cancels[i].w;
      assert CancelsOk(y.s, w) && ItemLocal(y.s, w) && ItemPlaced(y.s, w);
      p := y.s.items[w].owner.value;
      assert RunsOn(y.s, p, y.s.cancels[i].w);
    case ForDrain(r) =>
      WaiterCounts(y.waits, q, r);
      assert QueueServed(y.s.queues[r]);
      p := r;
    case ForExit(r, _) => p := r;
  }

  /** From each queue in c the handler waits for the next. */
  ghost predicate Chain(y: System, c: seq<nat>) {
    && (forall i :: 0 <= i < |c| ==> c[i] < |y.s.queues| && Busy(y.s.queues[c[i]]))
    && (forall i :: 0 <= i < |c| - 1 ==> WaitsFor(y, c[i], c[i + 1]))
  }

  /** Following the waits from q: a queue that can move, or as long a chain as we like. */
  lemma {:induction false} Follow(y: System, q: nat, n: nat) returns (c: seq<nat>)
    requires SystemOk(y) && Served(y.s) && q < |y.s.queues| && Busy(y.s.queues[q])
    ensures Chain(y, c) && c != [] && c[0] == q && (CanMove(y, c[|c| - 1]) || |c| > n)
  {
    c := [q];
    if n > 0 {
      c := Follow(y, q, n - 1);
      if !CanMove(y, c[|c| - 1]) && |c| == n {
        var p := MovesOrWaits(y, c[|c| - 1]);
        c := c + [p];
      }
    }
  }

  lemma {:induction false} Pigeonhole(c: seq<nat>, n: nat) returns (i: nat, j: nat)
    requires |c| > n && forall k :: 0 <= k < |c| ==> c[k] < n
    ensures i < j < |c| && c[i] == c[j]
    decreases n
  {
    var last := n - 1;
    if k :| 0 <= k < |c| - 1 && c[k] == c[|c| - 1] {
      i, j := k, |c| - 1;
    } else {
      var x := c[|c| - 1];
      // The last value does not occur before: the others, with the largest put in its place, are fewer.
      var d := seq(|c| - 1, k requires 0 <= k < |c| - 1 => if c[k] == last then x else c[k]);
      i, j := Pigeonhole(d, n - 1);
    }
  }

  /**
   When can the work go on? Whenever a queue has something to do in a careful run, following the waits from it leads
   to a queue whose worker or handler can move, or else into a cycle, never to both.
   */
  lemma SomebodyCanMove(ys: seq<System>, ms: seq<Move>, k: nat, q: nat) returns (c: seq<nat>, i: nat)
    requires CarefulRun(ys, ms) && k <= |ms| && q < |ys[k].s.queues| && Busy(ys[k].s.queues[q])
    ensures Chain(ys[k], c) && i < |c| && c[0] == q
    ensures CanMove(ys[k], c[|c| - 1]) <==> !Cycle(ys[k], c[i..])
  {
    CarefulRunServes(ys, ms, k);
    var y, n := ys[k], |ys[k].s.queues|;
    c := Follow(y, q, n);
    i := 0;
    if CanMove(y, c[|c| - 1]) {
      if Cycle(y, c[i..]) {
        assert WaitsFor(y, c[i..][|c| - 1], c[0]);
        var m :| MovesOn(m, c[|c| - 1]) && Can(y, m);
        BlockedCannotMove(y, m, c[|c| - 1]);
      }
    } else {
      var j;
      i, j := Pigeonhole(c, n);
      ClosesCycle(y, c, i, j);
      c := c[..j];
      assert Cycle(y, c[i..]);
      var last := c[|c| - 1];
      assert c[i..][|c[i..]| - 1] == last;
      assert WaitsFor(y, last, c[i]);
      forall m | MovesOn(m, last)
        ensures !Can(y, m)
      {
        if Can(y, m) { BlockedCannotMove(y, m, last); }
      }
    }
  }

  lemma ClosesCycle(y: System, c: seq<nat>, i: nat, j: nat)
    requires Chain(y, c) && i < j < |c| && c[i] == c[j]
    ensures Cycle(y, c[..j][i..]) && Chain(y, c[..j])
  {
    var d := c[..j][i..];
    forall m | 0 <= m < |d|
      ensures WaitsFor(y, d[m], d[if m + 1 < |d| then m + 1 else 0])
    {
      assert WaitsFor(y, c[i + m], c[i + m + 1]);
    }
  }

  // ---------------------------------------------------------------- where cycles come from

  /** A careful step does not bring back a wait that was over. */
  lemma OverStaysOver(y: System, m: Move, q: nat)
    requires SystemOk(y) && Served(y.s) && Can(y, m) && q < |y.waits| && y.waits[q].Some? && Over(y.s, y.waits[q].value)
    requires StepOf(y, m).Some? ==> Careful(y.s, StepOf(y, m).value)
    requires After(y, m).waits[q] == y.waits[q]
    ensures Over(After(y, m).s, y.waits[q].value)
  {
    assert WaiterOk(y, q);
    if StepOf(y, m).Some? {
      var a := StepOf(y, m).value;
      match y.waits[q].value
      case ForFlusher(f) => FlusherFixed(y.s, a, f);
      case ForCanceller(c) => CancellerStaysGone(y.s, a, c);
      case ForDrain(r) => TokenStays(y, m, a, q, r);
      case ForExit(r, _) => StepQueue(y.s, a, r);
    }
  }

  lemma CancellerStaysGone(s: State, a: Action, c: nat)
    requires Inv(s) && WellFormed(s) && Enabled(s, a) && NumbersOk(s) && c < s.cancellers
    requires Over(s, ForCanceller(c))
    ensures Over(Next(s, a).s, ForCanceller(c))
  {
    var t := Next(s, a).s;
    match a
    case WorkerFinish(q) =>
      var n := s.queues[q].pc.node;
      if n.ItemNode? && s.items[n.w].flags.canceling && Oldest(s.cancels, n.w) < |s.cancels| {
        RemovedAt(s.cancels, Oldest(s.cancels, n.w));
      }
    case CancelSync(w) =>
    case _ => assert t.cancels == s.cancels;
  }

  /** The token of the one drain caller is its own. */
  lemma TokenStays(y: System, m: Move, a: Action, q: nat, r: nat)
    requires SystemOk(y) && Served(y.s) && Can(y, m) && StepOf(y, m) == Some(a) && Careful(y.s, a)
    requires q < |y.waits| && y.waits[q] == Some(ForDrain(r)) && After(y, m).waits[q] == y.waits[q]
    requires Over(y.s, ForDrain(r))
    ensures Over(After(y, m).s, ForDrain(r))
  {
    var z := After(y, m);
    WaiterCounts(y.waits, q, r);
    assert QueueServed(y.s.queues[r]) && DrainsOneByOne(y.s.queues[r], a, r);
    if a == DrainReturn(r) {
      if m.Resume? {
        DrainersChange(y.waits, m.q, None, r);
        WaiterCounts(z.waits, q, r);
      }
      assert false;
    }
    StepQueue(y.s, a, r);
  }

  /** What q waits for after a move that did not set its wait, it waited for before. */
  lemma WaitedBefore(y: System, m: Move, q: nat, p: nat)
    requires SystemOk(y) && Served(y.s) && Can(y, m)
    requires StepOf(y, m).Some? ==> Careful(y.s, StepOf(y, m).value)
    requires q < |y.waits| && After(y, m).waits[q] == y.waits[q] && WaitsFor(After(y, m), q, p)
    ensures WaitsFor(y, q, p)
  {
    var z := After(y, m);
    assert WaiterOk(y, q);
    if Over(y.s, y.waits[q].value) {
      OverStaysOver(y, m, q);
    }
    if StepOf(y, m).Some? {
      QueuesStay(y.s, StepOf(y, m).value);
      match y.waits[q].value
      case ForFlusher(f) => FlusherFixed(y.s, StepOf(y, m).value, f);
      case ForCanceller(c) => CancellerWaitedBefore(y, m, StepOf(y, m).value, q, p, c);
      case _ =>
    }
  }

  lemma CancellerWaitedBefore(y: System, m: Move, a: Action, q: nat, p: nat, c: nat)
    requires SystemOk(y) && Served(y.s) && Can(y, m) && StepOf(y, m) == Some(a) && Blocked(y, q)
    requires y.waits[q] == Some(ForCanceller(c)) && After(y, m).waits[q] == y.waits[q] && WaitsFor(After(y, m), q, p)
    ensures WaitsFor(y, q, p)
  {
    var z := After(y, m);
    var j :| 0 <= j < |z.s.cancels| && z.s.cancels[j].id == c && RunsOn(z.s, p, z.s.cancels[j].w);
    var p' := AwaitedQueue(y, q);
    var i :| 0 <= i < |y.s.cancels| && y.s.cancels[i].id == c && RunsOn(y.s, p', y.s.cancels[i].w);
    QueuesStay(y.s, a);
    if a == WorkerFinish(p') {
      FinishReleases(y.s, p', i);
    } else {
      MoveKeepsSystem(y, m);
      var k := StepKeepsCanceller(y.s, a, i, p');
      OneRunner(z.s, j, k, p, p');
    }
  }

  /** The canceller with a number is one, its item is one, and that runs in one place. */
  lemma OneRunner(s: State, j: nat, k: nat, p: nat, p': nat)
    requires Inv(s) && NumbersOk(s) && j < |s.cancels| && k < |s.cancels| && s.cancels[j].id == s.cancels[k].id
    requires RunsOn(s, p, s.cancels[j].w) && RunsOn(s, p', s.cancels[k].w)
    ensures p == p'
  {
    assert j == k;
    assert WorkerOk(s, p) && WorkerOk(s, p');
  }

  lemma FinishReleases(s: State, p: nat, i: nat)
    requires Inv(s) && WellFormed(s) && NumbersOk(s) && p < |s.queues|
    requires i < |s.cancels| && RunsOn(s, p, s.cancels[i].w) && CancelsOk(s, s.cancels[i].w)
    ensures Over(FinishLocked(s, p), ForCanceller(s.cancels[i].id))
  {
    assert Oldest(s.cancels, s.cancels[i].w) == i;
    RemovedAt(s.cancels, i);
  }

  /** Only a handler's call closes a cycle, and the handler is part of it. */
  lemma CycleBegins(ys: seq<System>, ms: seq<Move>, k: nat, c: seq<nat>)
    requires CarefulRun(ys, ms) && k < |ms| && Cycle(ys[k + 1], c) && !Cycle(ys[k], c)
    ensures ms[k].Handler? && ms[k].q in c && MoveAt(ys, ms, k)
    ensures MustWait(ys[k].s, ms[k].q, ms[k].a, ms[k].patient)
  {
    CarefulRunServes(ys, ms, k);
    assert MoveAt(ys, ms, k);
    var y, z, m := ys[k], ys[k + 1], ms[k];
    if !(m.Handler? && m.q in c) {
      forall i | 0 <= i < |c|
        ensures WaitsFor(y, c[i], c[if i + 1 < |c| then i + 1 else 0])
      {
        var p := c[if i + 1 < |c| then i + 1 else 0];
        assert WaitsFor(z, c[i], p);
        assert z.waits[c[i]] == y.waits[c[i]];
        WaitedBefore(y, m, c[i], p);
      }
      assert false;
    }
    WaitsIff(y, m.q, m.a, m.patient);
    var i :| 0 <= i < |c| && c[i] == m.q;
    assert WaitsFor(z, c[i], c[if i + 1 < |c| then i + 1 else 0]);
  }
}
