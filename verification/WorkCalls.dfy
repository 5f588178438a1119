/**
 What each call answers and each step does, in every reachable state, told by what can be seen of the state: where the
 worker stands, what is linked, which handler runs.
 */
module WorkCalls {
  import opened Lists
  import opened Flags
  import opened WorkModel
  import opened WorkInvariant
  import opened WorkHistory
  import opened WorkSteps
  import opened WorkSafety
  import Ring

  lemma ErrorNumbers()
    ensures EBUSY == 16 && ENODEV == 19 && EINVAL == 22 && EALREADY == 114
  {
  }

  // ---------------------------------------------------------------- two more facts about every run

  /** An item has a queue once a submission of it was accepted. */
  ghost predicate OwnersKnown(s: State) {
    forall w :: 0 <= w < |s.items| ==> (s.items[w].owner.None? <==> s.items[w].submitted == 0)
  }

  lemma StepKeepsOwners(s: State, a: Action)
    requires Inv(s) && WellFormed(s) && Enabled(s, a) && OwnersKnown(s)
    ensures OwnersKnown(Next(s, a).s)
  {
    var es := StepFollows(s, a);
    var t := Next(s, a).s;
    forall w | 0 <= w < |t.items|
      ensures t.items[w].owner.None? <==> t.items[w].submitted == 0
    {
      assert if |es| > 0 && Concerns(es[0], w) then Moves(s.items[w], t.items[w], es[0])
             else Rests(s.items[w], t.items[w]);
      assert ItemLocal(s, w);
    }
  }

  /** Whatever lies in a drainq is the token that says 1. */
  ghost predicate TokensSayOne(s: State) {
    forall q :: 0 <= q < |s.queues| ==> s.queues[q].drainq == [] || s.queues[q].drainq == [1]
  }

  lemma StepKeepsTokens(s: State, a: Action)
    requires Inv(s) && WellFormed(s) && Enabled(s, a) && TokensSayOne(s)
    ensures TokensSayOne(Next(s, a).s)
  {
    var t := Next(s, a).s;
    QueuesStay(s, a);
    forall q | 0 <= q < |t.queues|
      ensures t.queues[q].drainq == [] || t.queues[q].drainq == [1]
    {
      StepQueue(s, a, q);
    }
  }

  lemma {:induction false} RunKeepsAnswers(ss: seq<State>, acts: seq<Action>, k: nat)
    requires RunFromInit(ss, acts) && k <= |acts|
    ensures Inv(ss[k]) && WellFormed(ss[k]) && OwnersKnown(ss[k]) && TokensSayOne(ss[k])
  {
    RunKeepsInv(ss, acts, k);
    if k > 0 {
      RunKeepsAnswers(ss, acts, k - 1);
      assert StepAt(ss, acts, k - 1);
      StepKeepsOwners(ss[k - 1], acts[k - 1]);
      StepKeepsTokens(ss[k - 1], acts[k - 1]);
    }
  }

  lemma ReachableAnswers(s: State)
    requires Reachable(s)
    ensures Inv(s) && WellFormed(s) && OwnersKnown(s) && TokensSayOne(s)
  {
    var ss, acts :| RunFromInit(ss, acts) && ss[|acts|] == s;
    RunKeepsAnswers(ss, acts, |acts|);
  }

  lemma OneToken(qq: Queue)
    requires |qq.notifyq| <= 1
    ensures Notified(qq) == qq.(notifyq := [0])
  {
    assert qq.notifyq != [] ==> qq.notifyq[1..] + [0] == [0];
  }

  // ---------------------------------------------------------------- submission

  /** The worker is there. */
  predicate Alive(qq: Queue) {
    !qq.pc.NotStarted? && !qq.pc.Exited?
  }

  /** A draining queue takes only what its own handler submits, a plugged one nothing unless it still drains. */
  predicate Admits(qq: Queue, q: nat, caller: Caller) {
    && Alive(qq)
    && (qq.flags.drain ==> caller == WorkerOf(q))
    && (qq.flags.plugged ==> qq.flags.drain)
  }

  /** The calling thread is a client's, or that of a handler. */
  ghost predicate ComesFrom(s: State, caller: Caller) {
    caller.WorkerOf? ==> exists w: nat :: RunsOn(s, caller.q, w)
  }

  /** home is the queue that has to take w: the one that runs it, or else the one asked for. */
  ghost predicate Takes(s: State, w: nat, q: nat, home: nat) {
    w < |s.items| && home < |s.queues| && if s.items[w].flags.running then RunsOn(s, home, w) else home == q
  }

  /** What a submission of w to home comes to: five answers, and a last place in the line for the two good ones. */
  ghost predicate Settles(s: State, o: Outcome, w: nat, home: nat, caller: Caller)
    requires w < |s.items| && home < |s.queues|
  {
    var x, qq := s.items[w], s.queues[home];
    && (o.reply == Code(0) <==> x.flags.queued)
    && (o.reply == Code(-EBUSY) <==>
          x.flags.canceling || (!x.flags.queued && Alive(qq) && !Admits(qq, home, caller)))
    && (o.reply == Code(-ENODEV) <==> !x.flags.canceling && !x.flags.queued && !Alive(qq))
    && (o.reply == Code(1) <==> Idle(x.flags) && Admits(qq, home, caller))
    && (o.reply == Code(2) <==> x.flags == NoWorkFlags.(running := true) && Admits(qq, home, caller))
    && o.s == if o.reply != Code(1) && o.reply != Code(2) then s
              else s.(items := s.items[w := Item(x.flags.(queued := true), Some(home), x.submitted + 1, x.instance)],
                      queues := s.queues[home := qq.(pending := qq.pending + [ItemNode(w)], notifyq := [0])],
                      log := s.log + [Accepted(home, w, x.submitted + 1)])
  }

  lemma SubmitSettles(s: State, w: nat, q: nat, home: nat, caller: Caller)
    requires Inv(s) && q < |s.queues| && Takes(s, w, q, home)
    ensures s.items[w].flags.running ==> s.items[w].owner == Some(home)
    ensures Settles(s, SubmitLocked(s, w, q, caller), w, home, caller)
  {
    assert ItemLocal(s, w) && ItemPlaced(s, w) && QueueLocal(s.queues[home]);
    assert WorkerOk(s, home);
    OneToken(s.queues[home]);
  }

  lemma HomeExists(s: State, w: nat, q: nat) returns (home: nat)
    requires Inv(s) && w < |s.items| && q < |s.queues|
    ensures Takes(s, w, q, home)
  {
    assert ItemLocal(s, w) && ItemPlaced(s, w);
    home := if s.items[w].flags.running then s.items[w].owner.value else q;
  }

  /** submit. */
  lemma SubmitLaw(s: State, w: nat, q: nat, caller: Caller) returns (home: nat)
    requires Reachable(s) && w < |s.items| && q < |s.queues| && ComesFrom(s, caller)
    ensures WellFormed(s) && Enabled(s, Submit(w, q, caller))
    ensures Takes(s, w, q, home) && Settles(s, Next(s, Submit(w, q, caller)), w, home, caller)
  {
    ReachableAnswers(s);
    home := HomeExists(s, w, q);
    SubmitSettles(s, w, q, home, caller);
  }

  /** resubmit: to the queue of the last accepted submission. */
  lemma ResubmitLaw(s: State, w: nat, caller: Caller)
    requires Reachable(s) && w < |s.items| && ComesFrom(s, caller)
    ensures WellFormed(s) && Enabled(s, Resubmit(w, caller))
    ensures var o, x := Next(s, Resubmit(w, caller)), s.items[w];
            && (o.reply == Code(-EINVAL) <==> x.submitted == 0)
            && (x.submitted == 0 ==> o.s == s)
            && (x.submitted > 0 ==>
                  x.owner.Some? && x.owner.value < |s.queues| && Settles(s, o, w, x.owner.value, caller))
  {
    ReachableAnswers(s);
    assert ItemLocal(s, w) && ItemPlaced(s, w);
    if s.items[w].owner.Some? {
      var home := s.items[w].owner.value;
      SubmitSettles(s, w, home, home, caller);
    }
  }

  // ---------------------------------------------------------------- flush and cancel

  /**
   work_flush waits iff the item is queued or running. Its flusher stands directly behind the queued item, or in front
   of everything when the item only runs, and waits for the last accepted submission.
   */
  lemma FlushLaw(s: State, w: nat) returns (q: nat, i: nat)
    requires Reachable(s) && w < |s.items|
    ensures WellFormed(s) && Enabled(s, Flush(w))
    ensures var o, x, f := Next(s, Flush(w)), s.items[w], |s.flushers|;
            && o.reply == Reply.Flag(x.flags.queued || x.flags.running)
            && (o.reply == Reply.Flag(false) ==> o.s == s)
            && (o.reply == Reply.Flag(true) ==>
                  && q < |s.queues| && (if x.flags.queued then LinkedAt(s, q, i, w) else RunsOn(s, q, w))
                  && var p := s.queues[q].pending;
                     var p' := if x.flags.queued then p[..i + 1] + [FlushNode(f)] + p[i + 1..] else [FlushNode(f)] + p;
                     o.s == s.(queues := s.queues[q := s.queues[q].(pending := p', notifyq := [0])],
                               flushers := s.flushers + [Flusher(q, w, x.submitted, !x.flags.queued, false)]))
  {
    ReachableAnswers(s);
    assert ItemLocal(s, w) && ItemPlaced(s, w);
    q, i := 0, 0;
    if s.items[w].owner.Some? {
      q := s.items[w].owner.value;
      assert QueueLocal(s.queues[q]) && ListOk(s.items, s.flushers, q, s.queues[q].pending);
      OneToken(s.queues[q]);
      if s.items[w].flags.queued {
        i := IndexOf(s.queues[q].pending, ItemNode(w));
      }
    }
  }

  /** What cancelling leaves of the item: CANCELING if and only if it runs. */
  function Cancelled(f: WorkFlags): WorkFlags {
    if f.running then NoWorkFlags.(running := true, canceling := true) else NoWorkFlags
  }

  /** work_cancel takes a queued item out of its list, marks a running one, and answers what is left. */
  lemma CancelLaw(s: State, w: nat) returns (q: nat, i: nat)
    requires Reachable(s) && w < |s.items| && s.items[w].submitted > 0
    ensures WellFormed(s) && Enabled(s, Cancel(w))
    ensures var o, x := Next(s, Cancel(w)), s.items[w];
            && o.reply == Busy(Cancelled(x.flags))
            && (!x.flags.queued ==> o.s == s.(items := s.items[w := x.(flags := Cancelled(x.flags))]))
            && (x.flags.queued ==>
                  && LinkedAt(s, q, i, w)
                  && var p := s.queues[q].pending;
                     o.s == s.(items := s.items[w := x.(flags := Cancelled(x.flags))],
                               queues := s.queues[q := s.queues[q].(pending := p[..i] + p[i + 1..])],
                               log := s.log + [Removed(q, w, x.submitted)]))
  {
    ReachableAnswers(s);
    assert ItemLocal(s, w) && ItemPlaced(s, w);
    q, i := s.items[w].owner.value, 0;
    var x := s.items[w];
    assert ListOk(s.items, s.flushers, q, s.queues[q].pending);
    if x.flags.queued {
      i := IndexOf(s.queues[q].pending, ItemNode(w));
    } else {
      assert s.items[w := x] == s.items;
    }
  }

  /** work_cancel_sync cancels a busy item likewise, and waits behind all others iff the item runs. */
  lemma CancelSyncLaw(s: State, w: nat)
    requires Reachable(s) && w < |s.items|
    ensures WellFormed(s) && Enabled(s, CancelSync(w))
    ensures var o, x := Next(s, CancelSync(w)), s.items[w];
            && o.reply == Reply.Flag(x.flags.queued || x.flags.running)
            && (o.reply == Reply.Flag(false) ==> o.s == s)
            && (o.reply == Reply.Flag(true) ==>
                  && Enabled(s, Cancel(w))
                  && var t := Next(s, Cancel(w)).s;
                     o.s == if x.flags.running
                            then t.(cancels := s.cancels + [Canceller(s.cancellers, w)], cancellers := s.cancellers + 1)
                            else t)
  {
    ReachableAnswers(s);
    assert ItemLocal(s, w) && ItemPlaced(s, w);
  }

  // ---------------------------------------------------------------- queue control

  /**
   queue_drain: -ENODEV without a worker, 0 when there is nothing to wait for, and otherwise DRAIN is set, PLUGGED if
   asked for, the worker is notified and the caller waits.
   */
  lemma DrainLaw(s: State, q: nat, plug: bool)
    requires Reachable(s) && q < |s.queues|
    ensures WellFormed(s) && Enabled(s, Drain(q, plug))
    ensures var o, qq := Next(s, Drain(q, plug)), s.queues[q];
            && (o.reply == Code(-ENODEV) <==> !Alive(qq))
            && (o.reply == Code(0) <==>
                  Alive(qq) && qq.pending == [] && !qq.pc.Running? && !qq.flags.drain && !plug)
            && (o.reply == Code(-ENODEV) || o.reply == Code(0) ==> o.s == s)
            && (o.reply == Code(-ENODEV) || o.reply == Code(0) || o.reply == Nothing)
            && (o.reply == Nothing ==>
                  var fl := qq.flags.(drain := true, plugged := plug || qq.flags.plugged);
                  o.s == s.(queues := s.queues[q := qq.(flags := fl, notifyq := [0], drainers := qq.drainers + 1)]))
  {
    ReachableAnswers(s);
    assert QueueLocal(s.queues[q]);
    OneToken(s.queues[q]);
  }

  /** A drain caller returns, with 1, iff one waits and the token is there, and takes the token. */
  lemma DrainReturnLaw(s: State, q: nat)
    requires Reachable(s) && q < |s.queues|
    ensures WellFormed(s)
    ensures Enabled(s, DrainReturn(q)) <==> s.queues[q].drainers > 0 && s.queues[q].drainq == [1]
    ensures Enabled(s, DrainReturn(q)) ==>
              var qq := s.queues[q];
              Next(s, DrainReturn(q)) ==
              Outcome(s.(queues := s.queues[q := qq.(drainq := [], drainers := qq.drainers - 1)]), Code(1))
  {
    ReachableAnswers(s);
    assert [1][1..] == [];
  }

  /** queue_unplug answers 0 iff the queue was plugged, -EALREADY otherwise, and leaves it unplugged. */
  lemma UnplugLaw(s: State, q: nat)
    requires Reachable(s) && q < |s.queues|
    ensures WellFormed(s) && Enabled(s, Unplug(q))
    ensures var o, qq := Next(s, Unplug(q)), s.queues[q];
            && (o.reply == Code(0) <==> qq.flags.plugged)
            && (o.reply == Code(-EALREADY) <==> !qq.flags.plugged)
            && o.s == s.(queues := s.queues[q := qq.(flags := qq.flags.(plugged := false))])
  {
    ReachableAnswers(s);
  }

  /**
   stop answers -EALREADY iff there is no worker and -EBUSY iff there is one and the queue is not plugged; both change
   nothing. Otherwise it goes on to join, with STOP set and a token left for the worker.
   */
  lemma StopLaw(s: State, q: nat)
    requires Reachable(s) && q < |s.queues|
    ensures WellFormed(s) && Enabled(s, Stop(q))
    ensures var o, qq := Next(s, Stop(q)), s.queues[q];
            && (o.reply == Code(-EALREADY) <==> !Alive(qq))
            && (o.reply == Code(-EBUSY) <==> Alive(qq) && !qq.flags.plugged)
            && (o.reply == Nothing <==> Alive(qq) && qq.flags.plugged)
            && (o.reply != Nothing ==> o.s == s)
            && (o.reply == Nothing ==>
                  o.s == s.(queues := s.queues[q := qq.(flags := qq.flags.(stop := true), notifyq := [0])]))
  {
    ReachableAnswers(s);
    assert QueueLocal(s.queues[q]);
    OneToken(s.queues[q]);
  }

  /** start empties the queue and its channels; of the flags STARTED is set, and NO_YIELD iff it is configured. */
  lemma StartLaw(s: State, q: nat, noYield: bool)
    requires Reachable(s) && q < |s.queues|
    ensures WellFormed(s)
    ensures Enabled(s, Start(q, noYield)) <==> !Alive(s.queues[q])
    ensures Enabled(s, Start(q, noYield)) ==>
              var fl := QueueFlags(true, false, false, false, false, noYield);
              var qq := Queue(fl, [], [], [], LoopHead, s.queues[q].drainers);
              Next(s, Start(q, noYield)) == Outcome(s.(queues := s.queues[q := qq]), Nothing)
  {
    ReachableAnswers(s);
  }

  // ---------------------------------------------------------------- the worker

  /** The queue after its worker has taken the head of the list. */
  function HeadTaken(qq: Queue): Queue
    requires qq.pending != []
  {
    qq.(flags := qq.flags.(busy := true), pending := qq.pending[1..], pc := Running(qq.pending[0]))
  }

  /**
   The head of the worker's loop: the first node is taken and run; with an empty list a drain is served before a stop
   is heard, and otherwise the worker goes on to wait.
   */
  lemma TurnLaw(s: State, q: nat)
    requires Reachable(s) && q < |s.queues|
    ensures WellFormed(s)
    ensures Enabled(s, WorkerTurn(q)) <==> s.queues[q].pc.LoopHead?
    ensures Enabled(s, WorkerTurn(q)) && s.queues[q].pending != [] ==>
              var qq, n := s.queues[q], s.queues[q].pending[0];
              NodeInside(s, n) && Next(s, WorkerTurn(q)) ==
              Outcome(match n
                      case ItemNode(w) =>
                        var x := s.items[w];
                        s.(items := s.items[w := x.(flags := NoWorkFlags.(running := true), instance := x.submitted)],
                           queues := s.queues[q := HeadTaken(qq)],
                           log := s.log + [Started(q, w, x.submitted)])
                      case FlushNode(_) => s.(queues := s.queues[q := HeadTaken(qq)]), Nothing)
    ensures Enabled(s, WorkerTurn(q)) && s.queues[q].pending == [] ==>
              var qq, fl := s.queues[q], s.queues[q].flags;
              Next(s, WorkerTurn(q)) ==
              Outcome(if fl.drain then
                        s.(queues := s.queues[q := qq.(flags := fl.(drain := false), drainq := [1], pc := Waiting)],
                           log := s.log + [DrainDone(q)])
                      else if fl.stop then
                        s.(queues := s.queues[q := qq.(flags := NoQueueFlags, pc := Exited)])
                      else s.(queues := s.queues[q := qq.(pc := Waiting)]), Nothing)
  {
    ReachableAnswers(s);
    var qq := s.queues[q];
    assert QueueLocal(qq) && ListOk(s.items, s.flushers, q, qq.pending);
    if qq.pending != [] {
      assert NodeOk(s.items, s.flushers, q, qq.pending[0]);
      if qq.pending[0].ItemNode? {
        assert ItemLocal(s, qq.pending[0].w) && ItemPlaced(s, qq.pending[0].w);
      }
    } else {
      assert Ring.Put(1, true, qq.drainq, 1) == [1];
    }
  }

  /** A waiting worker wakes up iff a token is there, and takes it. */
  lemma WakeLaw(s: State, q: nat)
    requires Reachable(s) && q < |s.queues|
    ensures WellFormed(s)
    ensures Enabled(s, WorkerWake(q)) <==> s.queues[q].pc.Waiting? && s.queues[q].notifyq != []
    ensures Enabled(s, WorkerWake(q)) ==>
              Next(s, WorkerWake(q)) ==
              Outcome(s.(queues := s.queues[q := s.queues[q].(notifyq := [], pc := LoopHead)]), Nothing)
  {
    ReachableAnswers(s);
    assert QueueLocal(s.queues[q]);
    assert s.queues[q].notifyq != [] ==> s.queues[q].notifyq[1..] == [];
  }

  /**
   The end of a run: a flusher is released; an item is no longer running, and if it was being cancelled it is idle and
   the canceller that has waited for it the longest, the i-th, is released.
   */
  lemma FinishLaw(s: State, q: nat) returns (i: nat)
    requires Reachable(s) && q < |s.queues|
    ensures WellFormed(s)
    ensures Enabled(s, WorkerFinish(q)) <==> s.queues[q].pc.Running?
    ensures i <= |s.cancels|
    ensures Enabled(s, WorkerFinish(q)) ==>
              var qq, n := s.queues[q], s.queues[q].pc.node;
              var t := s.(queues := s.queues[q := qq.(flags := qq.flags.(busy := false), pc := LoopHead)]);
              NodeInside(s, n) && Next(s, WorkerFinish(q)) ==
              Outcome(match n
                      case FlushNode(f) =>
                        t.(flushers := s.flushers[f := s.flushers[f].(released := true)],
                           log := s.log + [FlushReleased(f)])
                      case ItemNode(w) =>
                        var x := s.items[w];
                        var t' := t.(items := s.items[w := x.(flags := x.flags.(running := false, canceling := false))],
                                     log := s.log + [Finished(q, w, x.instance)]);
                        if !x.flags.canceling || i == |s.cancels| then t'
                        else t'.(cancels := s.cancels[..i] + s.cancels[i + 1..],
                                 log := t'.log + [CancelReleased(s.cancels[i].id, w)]), Nothing)
    ensures s.queues[q].pc.Running? && s.queues[q].pc.node.ItemNode? ==>
              && (forall j :: 0 <= j < i ==> s.cancels[j].w != s.queues[q].pc.node.w)
              && (i < |s.cancels| ==> s.cancels[i].w == s.queues[q].pc.node.w)
  {
    ReachableAnswers(s);
    assert WorkerOk(s, q);
    i := |s.cancels|;
    if s.queues[q].pc.Running? && s.queues[q].pc.node.ItemNode? {
      i := Oldest(s.cancels, s.queues[q].pc.node.w);
      assert ItemLocal(s, s.queues[q].pc.node.w);
    }
  }
}
