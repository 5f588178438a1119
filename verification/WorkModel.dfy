/**
 The work-queue protocol as a state machine on values. One step is one critical
 section under the global spin lock, or one blocking point between two of them.
 */
module WorkModel {
  import opened Lists
  import opened Flags
  import Ring

  // POSIX error numbers the calls answer with, negated.
  const EBUSY := 16
  const ENODEV := 19
  const EINVAL := 22
  const EALREADY := 114

  /** A node linked in a pending list: a user's Work, or the Work inside the WorkFlusher of one work_flush call. */
  datatype Node = ItemNode(w: nat) | FlushNode(f: nat)

  /** Where the worker thread of a queue stands between two critical sections. */
  datatype Pc = NotStarted | LoopHead | Waiting | Running(node: Node) | Exited

  /** The thread that issues a call: a handler running on the worker of queue q is chained there. */
  datatype Caller = Outside | WorkerOf(q: nat)

  /** A user's Work. `submitted` numbers its accepted submissions, `instance` is the number being run. */
  datatype Item = Item(flags: WorkFlags, owner: Option<nat>, submitted: nat, instance: nat)

  datatype Queue = Queue(flags: QueueFlags, pending: seq<Node>, notifyq: seq<int>, drainq: seq<int>, pc: Pc,
                         drainers: nat)

  /** One work_flush call that waits: the queue it sits on, its item, the last instance accepted before it. */
  datatype Flusher = Flusher(home: nat, w: nat, target: nat, urgent: bool, released: bool)

  /** One work_cancel_sync call that waits. */
  datatype Canceller = Canceller(id: nat, w: nat)

  datatype Event =
    | Accepted(q: nat, w: nat, n: nat)
    | Started(q: nat, w: nat, n: nat)
    | Finished(q: nat, w: nat, n: nat)
    | Removed(q: nat, w: nat, n: nat)
    | FlushReleased(f: nat)
    | CancelReleased(c: nat, w: nat)
    | DrainDone(q: nat)

  datatype State = State(items: seq<Item>, queues: seq<Queue>, flushers: seq<Flusher>, cancels: seq<Canceller>,
                         cancellers: nat, log: seq<Event>)

  datatype Action =
    | Submit(w: nat, q: nat, caller: Caller)
    | Resubmit(w: nat, caller: Caller)
    | Flush(w: nat)
    | Cancel(w: nat)
    | CancelSync(w: nat)
    | Drain(q: nat, plug: bool)
    | DrainReturn(q: nat)
    | Unplug(q: nat)
    | Stop(q: nat)
    | Start(q: nat, noYield: bool)
    | WorkerTurn(q: nat)
    | WorkerWake(q: nat)
    | WorkerFinish(q: nat)

  /** What a call answers: an int, a bool, or the busy flags of an item. */
  datatype Reply = Code(n: int) | Flag(b: bool) | Busy(flags: WorkFlags) | Nothing

  datatype Outcome = Outcome(s: State, reply: Reply)

  // ---------------------------------------------------------------- building blocks

  function SetItem(s: State, w: nat, x: Item): State
    requires w < |s.items|
  {
    s.(items := s.items[w := x])
  }

  function SetQueue(s: State, q: nat, x: Queue): State
    requires q < |s.queues|
  {
    s.(queues := s.queues[q := x])
  }

  function Log(s: State, e: Event): State {
    s.(log := s.log + [e])
  }

  /** The one-slot overwriting wake-up channel after a non-blocking put. */
  function Notified(q: Queue): Queue {
    q.(notifyq := Ring.Put(1, true, q.notifyq, 0))
  }

  // ---------------------------------------------------------------- submission

  /** The answer of the queue's own submit_locked: 1 when it takes the node. */
  function Admission(s: State, q: nat, caller: Caller): int
    requires q < |s.queues|
  {
    var f := s.queues[q].flags;
    if !f.started then -ENODEV
    else if (f.drain && caller != WorkerOf(q)) || (f.plugged && !f.drain) then -EBUSY
    else 1
  }

  function Enqueue(s: State, q: nat, w: nat): State
    requires q < |s.queues| && w < |s.items|
  {
    var x := s.items[w];
    var qq := s.queues[q];
    var x' := x.(flags := x.flags.(queued := true), owner := Some(q), submitted := x.submitted + 1);
    Log(SetQueue(SetItem(s, w, x'), q, Notified(qq.(pending := qq.pending + [ItemNode(w)]))),
        Accepted(q, w, x.submitted + 1))
  }

  function SubmitLocked(s: State, w: nat, target: nat, caller: Caller): Outcome
    requires w < |s.items| && target < |s.queues|
    requires s.items[w].flags.running ==> s.items[w].owner.Some? && s.items[w].owner.value < |s.queues|
  {
    var x := s.items[w];
    if x.flags.canceling then Outcome(s, Code(-EBUSY))
    else if x.flags.queued then Outcome(s, Code(0))
    else
      var q := if x.flags.running then x.owner.value else target;
      var rc := Admission(s, q, caller);
      if rc < 0 then Outcome(s, Code(rc))
      else Outcome(Enqueue(s, q, w), Code(if x.flags.running then 2 else 1))
  }

  // ---------------------------------------------------------------- flush and cancel

  function FlushLocked(s: State, w: nat): Outcome
    requires FlushDefined(s, w)
  {
    var x := s.items[w];
    if !x.flags.queued && !x.flags.running then Outcome(s, Flag(false))
    else
      var q := x.owner.value;
      var qq := s.queues[q];
      var f := |s.flushers|;
      var p := if x.flags.queued then InsertAfter(qq.pending, ItemNode(w), FlushNode(f))
               else [FlushNode(f)] + qq.pending;
      Outcome(SetQueue(s, q, Notified(qq.(pending := p)))
              .(flushers := s.flushers + [Flusher(q, w, x.submitted, !x.flags.queued, false)]),
              Flag(true))
  }

  predicate FlushDefined(s: State, w: nat) {
    && w < |s.items|
    && (s.items[w].flags.queued || s.items[w].flags.running ==>
          s.items[w].owner.Some? && s.items[w].owner.value < |s.queues|)
    && (s.items[w].flags.queued ==> ItemNode(w) in s.queues[s.items[w].owner.value].pending)
  }

  predicate CancelDefined(s: State, w: nat) {
    w < |s.items| && s.items[w].owner.Some? && s.items[w].owner.value < |s.queues|
  }

  /** A queued item leaves its list. */
  function Unqueue(s: State, w: nat): State
    requires CancelDefined(s, w)
  {
    var x := s.items[w];
    if !x.flags.queued then s
    else
      var q := x.owner.value;
      var qq := s.queues[q];
      Log(SetQueue(SetItem(s, w, x.(flags := x.flags.(queued := false))), q,
                   qq.(pending := Without(qq.pending, ItemNode(w)))),
          Removed(q, w, x.submitted))
  }

  function CancelAsync(s: State, w: nat): Outcome
    requires CancelDefined(s, w)
  {
    var s1 := if s.items[w].flags.canceling then s else Unqueue(s, w);
    var x := s1.items[w];
    if Idle(x.flags) then Outcome(s1, Busy(x.flags))
    else
      var x' := x.(flags := x.flags.(canceling := true));
      Outcome(SetItem(s1, w, x'), Busy(x'.flags))
  }

  function CancelSyncLocked(s: State, w: nat): Outcome
    requires w < |s.items| && (!Idle(s.items[w].flags) ==> CancelDefined(s, w))
  {
    if Idle(s.items[w].flags) then Outcome(s, Flag(false))
    else
      var s1 := CancelAsync(s, w).s;
      if s1.items[w].flags.canceling then
        Outcome(s1.(cancels := s1.cancels + [Canceller(s1.cancellers, w)], cancellers := s1.cancellers + 1), Flag(true))
      else Outcome(s1, Flag(true))
  }

  // ---------------------------------------------------------------- queue control

  /** A reply of Code(0) returns at once; Nothing means that the caller goes on to wait in drainq.get. */
  function DrainLocked(s: State, q: nat, plug: bool): Outcome
    requires q < |s.queues|
  {
    var qq := s.queues[q];
    if !qq.flags.started then Outcome(s, Code(-ENODEV))
    else if qq.flags.busy || qq.flags.drain || plug || qq.pending != [] then
      var fl := qq.flags.(drain := true, plugged := plug || qq.flags.plugged);
      Outcome(SetQueue(s, q, Notified(qq.(flags := fl, drainers := qq.drainers + 1))), Nothing)
    else Outcome(s, Code(0))
  }

  function DrainReturned(s: State, q: nat): Outcome
    requires q < |s.queues| && s.queues[q].drainers > 0 && s.queues[q].drainq != []
  {
    var qq := s.queues[q];
    Outcome(SetQueue(s, q, qq.(drainq := qq.drainq[1..], drainers := qq.drainers - 1)), Code(qq.drainq[0]))
  }

  function UnplugLocked(s: State, q: nat): Outcome
    requires q < |s.queues|
  {
    var qq := s.queues[q];
    Outcome(SetQueue(s, q, qq.(flags := qq.flags.(plugged := false))),
            Code(if qq.flags.plugged then 0 else -EALREADY))
  }

  /** Nothing means that the caller goes on to join the worker. */
  function StopLocked(s: State, q: nat): Outcome
    requires q < |s.queues|
  {
    var qq := s.queues[q];
    if !qq.flags.started then Outcome(s, Code(-EALREADY))
    else if !qq.flags.plugged then Outcome(s, Code(-EBUSY))
    else Outcome(SetQueue(s, q, Notified(qq.(flags := qq.flags.(stop := true)))), Nothing)
  }

  function QueueStarted(qq: Queue, noYield: bool): Queue {
    qq.(flags := NoQueueFlags.(started := true, noYield := noYield), pending := [], notifyq := [], drainq := [],
        pc := LoopHead)
  }

  // ---------------------------------------------------------------- the worker

  /** The critical section at the head of the worker's loop. */
  function TurnLocked(s: State, q: nat): State
    requires q < |s.queues|
    requires s.queues[q].pending != [] && s.queues[q].pending[0].ItemNode? ==> s.queues[q].pending[0].w < |s.items|
  {
    var qq := s.queues[q];
    if qq.pending != [] then
      var n := qq.pending[0];
      var s1 := SetQueue(s, q, qq.(flags := qq.flags.(busy := true), pending := qq.pending[1..], pc := Running(n)));
      if n.ItemNode? then
        var x := s.items[n.w];
        Log(SetItem(s1, n.w, x.(flags := x.flags.(running := true, queued := false), instance := x.submitted)),
            Started(q, n.w, x.submitted))
      else s1
    else if qq.flags.drain then
      Log(SetQueue(s, q, qq.(flags := qq.flags.(drain := false), drainq := Ring.Put(1, true, qq.drainq, 1),
                             pc := Waiting)), DrainDone(q))
    else if qq.flags.stop then SetQueue(s, q, qq.(flags := NoQueueFlags, pc := Exited))
    else SetQueue(s, q, qq.(pc := Waiting))
  }

  function WakeUp(s: State, q: nat): State
    requires q < |s.queues| && s.queues[q].notifyq != []
  {
    var qq := s.queues[q];
    SetQueue(s, q, qq.(notifyq := qq.notifyq[1..], pc := LoopHead))
  }

  /** The position of the oldest waiting canceller of item w, or |cancels| when there is none. */
  function Oldest(cancels: seq<Canceller>, w: nat): (i: nat)
    ensures i <= |cancels|
    ensures forall j :: 0 <= j < i ==> cancels[j].w != w
    ensures i < |cancels| ==> cancels[i].w == w
  {
    if cancels == [] || cancels[0].w == w then 0 else Oldest(cancels[1..], w) + 1
  }

  /** finalize_cancel_locked: CANCELING is cleared and the oldest canceller of w is unlinked and released. */
  function FinalizeCancel(s: State, w: nat): State
    requires w < |s.items|
  {
    var x := s.items[w];
    var s1 := SetItem(s, w, x.(flags := x.flags.(canceling := false)));
    var i := Oldest(s.cancels, w);
    if i == |s.cancels| then s1
    else Log(s1.(cancels := s.cancels[..i] + s.cancels[i + 1..]), CancelReleased(s.cancels[i].id, w))
  }

  /** The critical section after the handler has returned. */
  function FinishLocked(s: State, q: nat): State
    requires q < |s.queues| && s.queues[q].pc.Running?
    requires s.queues[q].pc.node.ItemNode? ==> s.queues[q].pc.node.w < |s.items|
    requires s.queues[q].pc.node.FlushNode? ==> s.queues[q].pc.node.f < |s.flushers|
  {
    var qq := s.queues[q];
    var s1 := SetQueue(s, q, qq.(flags := qq.flags.(busy := false), pc := LoopHead));
    match qq.pc.node
    case ItemNode(w) =>
      var x := s1.items[w];
      var s2 := Log(SetItem(s1, w, x.(flags := x.flags.(running := false))), Finished(q, w, x.instance));
      if x.flags.canceling then FinalizeCancel(s2, w) else s2
    case FlushNode(f) =>
      Log(s1.(flushers := s1.flushers[f := s1.flushers[f].(released := true)]), FlushReleased(f))
  }

  // ---------------------------------------------------------------- the step relation

  predicate CallerOk(s: State, caller: Caller) {
    caller.WorkerOf? ==> caller.q < |s.queues| && s.queues[caller.q].pc.Running? && s.queues[caller.q].pc.node.ItemNode?
  }

  /** The states in which the source defines an action. */
  predicate Enabled(s: State, a: Action) {
    match a
    case Submit(w, q, caller) => w < |s.items| && q < |s.queues| && CallerOk(s, caller)
    case Resubmit(w, caller) => w < |s.items| && CallerOk(s, caller)
    case Flush(w) => w < |s.items|
    case Cancel(w) => w < |s.items| && s.items[w].owner.Some?
    case CancelSync(w) => w < |s.items|
    case Drain(q, plug) => q < |s.queues|
    case DrainReturn(q) => q < |s.queues| && s.queues[q].drainers > 0 && s.queues[q].drainq != []
    case Unplug(q) => q < |s.queues|
    case Stop(q) => q < |s.queues|
    case Start(q, noYield) => q < |s.queues| && (s.queues[q].pc.NotStarted? || s.queues[q].pc.Exited?)
    case WorkerTurn(q) => q < |s.queues| && s.queues[q].pc.LoopHead?
    case WorkerWake(q) => q < |s.queues| && s.queues[q].pc.Waiting? && s.queues[q].notifyq != []
    case WorkerFinish(q) => q < |s.queues| && s.queues[q].pc.Running?
  }

  /** The references the step follows stay inside the state; every reachable state has this (see WorkInvariant). */
  ghost predicate WellFormed(s: State) {
    && (forall w :: 0 <= w < |s.items| && s.items[w].owner.Some? ==> s.items[w].owner.value < |s.queues|)
    && (forall w :: 0 <= w < |s.items| && !Idle(s.items[w].flags) ==> s.items[w].owner.Some?)
    && (forall w :: 0 <= w < |s.items| && s.items[w].flags.queued ==>
          ItemNode(w) in s.queues[s.items[w].owner.value].pending)
    && (forall q, i :: 0 <= q < |s.queues| && 0 <= i < |s.queues[q].pending| ==> NodeInside(s, s.queues[q].pending[i]))
    && (forall q :: 0 <= q < |s.queues| && s.queues[q].pc.Running? ==> NodeInside(s, s.queues[q].pc.node))
  }

  predicate NodeInside(s: State, n: Node) {
    match n
    case ItemNode(w) => w < |s.items|
    case FlushNode(f) => f < |s.flushers|
  }

  ghost function Next(s: State, a: Action): Outcome
    requires WellFormed(s) && Enabled(s, a)
  {
    match a
    case Submit(w, q, caller) => SubmitLocked(s, w, q, caller)
    case Resubmit(w, caller) =>
      if s.items[w].owner.None? then Outcome(s, Code(-EINVAL)) else SubmitLocked(s, w, s.items[w].owner.value, caller)
    case Flush(w) => FlushLocked(s, w)
    case Cancel(w) => CancelAsync(s, w)
    case CancelSync(w) => CancelSyncLocked(s, w)
    case Drain(q, plug) => DrainLocked(s, q, plug)
    case DrainReturn(q) => DrainReturned(s, q)
    case Unplug(q) => UnplugLocked(s, q)
    case Stop(q) => StopLocked(s, q)
    case Start(q, noYield) => Outcome(SetQueue(s, q, QueueStarted(s.queues[q], noYield)), Nothing)
    case WorkerTurn(q) => Outcome(TurnLocked(s, q), Nothing)
    case WorkerWake(q) => Outcome(WakeUp(s, q), Nothing)
    case WorkerFinish(q) => Outcome(FinishLocked(s, q), Nothing)
  }

  /** Every item idle and never submitted, every queue not yet started. */
  ghost predicate Init(s: State) {
    && (forall w :: 0 <= w < |s.items| ==> s.items[w] == Item(NoWorkFlags, None, 0, 0))
    && (forall q :: 0 <= q < |s.queues| ==> s.queues[q] == Queue(NoQueueFlags, [], [], [], NotStarted, 0))
    && s.flushers == [] && s.cancels == [] && s.cancellers == 0 && s.log == []
  }

  /** ss and acts record one interleaving of any number of clients and workers. */
  ghost predicate Run(ss: seq<State>, acts: seq<Action>) {
    && |ss| == |acts| + 1
    && forall i :: 0 <= i < |acts| ==> StepAt(ss, acts, i)
  }

  ghost predicate StepAt(ss: seq<State>, acts: seq<Action>, i: nat)
    requires i < |acts| && |ss| == |acts| + 1
  {
    WellFormed(ss[i]) && Enabled(ss[i], acts[i]) && ss[i + 1] == Next(ss[i], acts[i]).s
  }
}
