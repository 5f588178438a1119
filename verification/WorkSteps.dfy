/** What one step can do to one queue, apart from everything else in the state. */
module WorkSteps {
  import opened Lists
  import opened Flags
  import opened WorkModel
  import opened WorkInvariant
  import Ring

  predicate IsItemCall(a: Action) {
    a.Submit? || a.Resubmit? || a.Flush? || a.Cancel? || a.CancelSync?
  }

  /** All that a call about an item does to a queue: a node leaves the list, or one joins and a token is left. */
  predicate Touch(x: Queue, y: Queue) {
    && y == x.(pending := y.pending, notifyq := y.notifyq)
    && (|y.pending| > |x.pending| ==> |y.pending| == |x.pending| + 1 && |y.notifyq| == 1)
    && (|y.pending| <= |x.pending| ==> y.notifyq == x.notifyq && (x.pending == [] ==> y.pending == []))
  }

  lemma SubmitTouches(s: State, w: nat, target: nat, caller: Caller, q: nat)
    requires w < |s.items| && target < |s.queues| && q < |s.queues| && |s.queues[q].notifyq| <= 1
    requires s.items[w].flags.running ==> s.items[w].owner.Some? && s.items[w].owner.value < |s.queues|
    ensures Touch(s.queues[q], SubmitLocked(s, w, target, caller).s.queues[q])
  {
  }

  lemma FlushTouches(s: State, w: nat, q: nat)
    requires FlushDefined(s, w) && q < |s.queues| && |s.queues[q].notifyq| <= 1
    ensures Touch(s.queues[q], FlushLocked(s, w).s.queues[q])
  {
  }

  lemma CancelTouches(s: State, w: nat, q: nat)
    requires CancelDefined(s, w) && q < |s.queues|
    ensures Touch(s.queues[q], CancelAsync(s, w).s.queues[q])
  {
  }

  lemma ItemCallTouches(s: State, a: Action, q: nat)
    requires Inv(s) && WellFormed(s) && Enabled(s, a) && q < |s.queues| && IsItemCall(a)
    ensures q < |Next(s, a).s.queues| && Touch(s.queues[q], Next(s, a).s.queues[q])
  {
    assert QueueLocal(s.queues[q]);
    match a
    case Submit(w, target, caller) => SubmitTouches(s, w, target, caller, q);
    case Resubmit(w, caller) =>
      if s.items[w].owner.Some? { SubmitTouches(s, w, s.items[w].owner.value, caller, q); }
    case Flush(w) => FlushTouches(s, w, q);
    case Cancel(w) => CancelTouches(s, w, q);
    case CancelSync(w) => if !Idle(s.items[w].flags) { CancelTouches(s, w, q); }
  }

  // ---------------------------------------------------------------- queue control and the worker

  /** The queue that a step of its worker, or a call about it, leaves behind. */
  function QueueAfter(qq: Queue, a: Action): Queue
    requires !IsItemCall(a)
  {
    match a
    case Drain(_, plug) =>
      if qq.flags.started && (qq.flags.busy || qq.flags.drain || plug || qq.pending != []) then
        Notified(qq.(flags := qq.flags.(drain := true, plugged := plug || qq.flags.plugged),
                     drainers := qq.drainers + 1))
      else qq
    case DrainReturn(_) =>
      if qq.drainers > 0 && qq.drainq != [] then qq.(drainq := qq.drainq[1..], drainers := qq.drainers - 1) else qq
    case Unplug(_) => qq.(flags := qq.flags.(plugged := false))
    case Stop(_) => if qq.flags.plugged then Notified(qq.(flags := qq.flags.(stop := true))) else qq
    case Start(_, noYield) => QueueStarted(qq, noYield)
    case WorkerTurn(_) =>
      if qq.pending != [] then
        qq.(flags := qq.flags.(busy := true), pending := qq.pending[1..], pc := Running(qq.pending[0]))
      else if qq.flags.drain then
        qq.(flags := qq.flags.(drain := false), drainq := Ring.Put(1, true, qq.drainq, 1), pc := Waiting)
      else if qq.flags.stop then qq.(flags := NoQueueFlags, pc := Exited)
      else qq.(pc := Waiting)
    case WorkerWake(_) => if qq.notifyq != [] then qq.(notifyq := qq.notifyq[1..], pc := LoopHead) else qq
    case WorkerFinish(_) => qq.(flags := qq.flags.(busy := false), pc := LoopHead)
    case _ => qq
  }

  /** x becomes y, for queue q, when a is taken. */
  predicate QueueStep(x: Queue, y: Queue, a: Action, q: nat) {
    if IsItemCall(a) then Touch(x, y) else y == if a.q == q then QueueAfter(x, a) else x
  }

  lemma ControlStep(s: State, a: Action)
    requires Inv(s) && WellFormed(s) && Enabled(s, a) && !IsItemCall(a) && !a.WorkerTurn? && !a.WorkerFinish?
    ensures Next(s, a).s.queues == s.queues[a.q := QueueAfter(s.queues[a.q], a)]
  {
    assert QueueLocal(s.queues[a.q]);
  }

  lemma WorkerStep(s: State, a: Action)
    requires WellFormed(s) && Enabled(s, a) && (a.WorkerTurn? || a.WorkerFinish?)
    ensures Next(s, a).s.queues == s.queues[a.q := QueueAfter(s.queues[a.q], a)]
  {
  }

  lemma QueuesStay(s: State, a: Action)
    requires WellFormed(s) && Enabled(s, a)
    ensures |Next(s, a).s.queues| == |s.queues| && |Next(s, a).s.items| == |s.items|
  {
    match a
    case WorkerTurn(_) =>
    case WorkerFinish(_) =>
    case _ =>
  }

  lemma StepQueue(s: State, a: Action, q: nat)
    requires Inv(s) && WellFormed(s) && Enabled(s, a) && q < |s.queues|
    ensures q < |Next(s, a).s.queues| && QueueStep(s.queues[q], Next(s, a).s.queues[q], a, q)
    ensures QueueLocal(s.queues[q]) && QueueLocal(Next(s, a).s.queues[q])
  {
    StepKeepsInv(s, a);
    if IsItemCall(a) {
      ItemCallTouches(s, a, q);
    } else if a.WorkerTurn? || a.WorkerFinish? {
      WorkerStep(s, a);
    } else {
      ControlStep(s, a);
    }
  }

  /** The next step of the worker of queue q. */
  function WorkerAction(qq: Queue, q: nat): Action {
    if qq.pc.Running? then WorkerFinish(q) else if qq.pc.Waiting? then WorkerWake(q) else WorkerTurn(q)
  }
}
