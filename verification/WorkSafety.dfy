/** What every run of the work queue guarantees, whatever its clients do. */
module WorkSafety {
  import opened Lists
  import opened Flags
  import opened WorkModel
  import opened WorkInvariant
  import opened WorkHistory
  import opened WorkSteps

  ghost predicate RunFromInit(ss: seq<State>, acts: seq<Action>) {
    Run(ss, acts) && Init(ss[0])
  }

  /** The states of runs. */
  ghost predicate Reachable(s: State) {
    exists ss, acts :: RunFromInit(ss, acts) && ss[|acts|] == s
  }

  /** Every state of a run is reachable. */
  lemma RunReaches(ss: seq<State>, acts: seq<Action>, k: nat)
    requires RunFromInit(ss, acts) && k <= |acts|
    ensures Reachable(ss[k])
  {
    var ss', acts' := ss[..k + 1], acts[..k];
    forall i | 0 <= i < k
      ensures StepAt(ss', acts', i)
    {
      assert StepAt(ss, acts, i);
    }
    assert RunFromInit(ss', acts') && ss'[|acts'|] == ss[k];
  }

  lemma RunGoesOn(ss: seq<State>, acts: seq<Action>, a: Action)
    requires RunFromInit(ss, acts) && WellFormed(ss[|acts|]) && Enabled(ss[|acts|], a)
    ensures RunFromInit(ss + [Next(ss[|acts|], a).s], acts + [a])
  {
    var ss', acts' := ss + [Next(ss[|acts|], a).s], acts + [a];
    forall i | 0 <= i < |acts'|
      ensures StepAt(ss', acts', i)
    {
      assert i < |acts| ==> StepAt(ss, acts, i);
    }
  }

  lemma ReachesNext(s: State, a: Action)
    requires Reachable(s) && WellFormed(s) && Enabled(s, a)
    ensures Reachable(Next(s, a).s)
  {
    var ss, acts :| RunFromInit(ss, acts) && ss[|acts|] == s;
    RunGoesOn(ss, acts, a);
    var ss', acts' := ss + [Next(s, a).s], acts + [a];
    assert RunFromInit(ss', acts') && ss'[|acts'|] == Next(s, a).s;
  }

  // ---------------------------------------------------------------- who holds an item

  ghost predicate LinkedAt(s: State, q: nat, i: nat, w: nat) {
    q < |s.queues| && i < |s.queues[q].pending| && s.queues[q].pending[i] == ItemNode(w)
  }

  ghost predicate RunsOn(s: State, q: nat, w: nat) {
    q < |s.queues| && s.queues[q].pc == Running(ItemNode(w))
  }

  /** QUEUED marks the one place where an item is linked, RUNNING the one worker that runs it. */
  lemma SingleOwner(ss: seq<State>, acts: seq<Action>, k: nat, w: nat)
    requires RunFromInit(ss, acts) && k <= |acts| && w < |ss[k].items|
    ensures var s, x := ss[k], ss[k].items[w];
            && (x.flags.queued <==> exists q: nat, i: nat :: LinkedAt(s, q, i, w))
            && (x.flags.running <==> exists q: nat :: RunsOn(s, q, w))
            && (forall q: nat, i: nat :: LinkedAt(s, q, i, w) ==> x.owner == Some(q))
            && (forall q: nat, i: nat, j: nat :: LinkedAt(s, q, i, w) && LinkedAt(s, q, j, w) ==> i == j)
            && (forall q: nat :: RunsOn(s, q, w) ==> x.owner == Some(q))
  {
    RunKeepsInv(ss, acts, k);
    var s, x := ss[k], ss[k].items[w];
    assert ItemLocal(s, w) && ItemPlaced(s, w);
    if x.flags.queued {
      var q := x.owner.value;
      var i :| 0 <= i < |s.queues[q].pending| && s.queues[q].pending[i] == ItemNode(w);
      assert LinkedAt(s, q, i, w);
    }
    if x.flags.running {
      assert RunsOn(s, x.owner.value, w);
    }
    forall q: nat, i: nat | LinkedAt(s, q, i, w)
      ensures x.owner == Some(q) && x.flags.queued
    {
      assert ListOk(s.items, s.flushers, q, s.queues[q].pending);
      assert NodeOk(s.items, s.flushers, q, s.queues[q].pending[i]);
    }
    forall q: nat, i: nat, j: nat | LinkedAt(s, q, i, w) && LinkedAt(s, q, j, w)
      ensures i == j
    {
      assert ListOk(s.items, s.flushers, q, s.queues[q].pending);
    }
    forall q: nat | RunsOn(s, q, w)
      ensures x.owner == Some(q) && x.flags.running
    {
      assert WorkerOk(s, q);
    }
  }

  /**
   Of the sixteen combinations of the four item flags, at most five occur (WorkCounterexamples has a run through all
   five).
   */
  lemma FlagCombinations(ss: seq<State>, acts: seq<Action>, k: nat, w: nat)
    requires RunFromInit(ss, acts) && k <= |acts| && w < |ss[k].items|
    ensures ss[k].items[w].flags in
            {NoWorkFlags,
             NoWorkFlags.(queued := true),
             NoWorkFlags.(running := true),
             NoWorkFlags.(running := true, queued := true),
             NoWorkFlags.(running := true, canceling := true)}
  {
    RunKeepsInv(ss, acts, k);
    assert ItemLocal(ss[k], w);
  }

  // ---------------------------------------------------------------- cancel

  /** work_cancel answers zero exactly when the item is then linked nowhere and run by nobody. */
  lemma CancelAnswersZeroIffGone(ss: seq<State>, acts: seq<Action>, k: nat)
    requires RunFromInit(ss, acts) && k < |acts| && acts[k].Cancel?
    ensures WellFormed(ss[k]) && Enabled(ss[k], acts[k])
    ensures acts[k].w < |ss[k + 1].items|
    ensures var t, w := ss[k + 1], acts[k].w; var reply := Next(ss[k], acts[k]).reply;
            && reply == Busy(t.items[w].flags)
            && (reply == Busy(NoWorkFlags) <==>
                  (forall q: nat, i: nat :: !LinkedAt(t, q, i, w)) && (forall q: nat :: !RunsOn(t, q, w)))
            && (reply != Busy(NoWorkFlags) ==> t.items[w].flags == NoWorkFlags.(running := true, canceling := true))
  {
    assert StepAt(ss, acts, k);
    RunKeepsInv(ss, acts, k);
    var w := acts[k].w;
    assert ItemLocal(ss[k], w);
    SingleOwner(ss, acts, k + 1, w);
    FlagCombinations(ss, acts, k + 1, w);
  }

  /** A waiting work_cancel_sync is released only at the end of a run of its item, and leaves the item idle. */
  lemma CancellerReleasedWhenIdle(ss: seq<State>, acts: seq<Action>, k: nat, j: nat)
    requires RunFromInit(ss, acts) && k < |acts|
    requires |ss[k].log| <= j < |ss[k + 1].log| && ss[k + 1].log[j].CancelReleased?
    ensures acts[k].WorkerFinish? && RunsOn(ss[k], acts[k].q, ss[k + 1].log[j].w)
    ensures var w := ss[k + 1].log[j].w; w < |ss[k + 1].items| && ss[k + 1].items[w].flags == NoWorkFlags
  {
    assert StepAt(ss, acts, k);
    RunKeepsInv(ss, acts, k);
    var s, a := ss[k], acts[k];
    var es := StepFollows(s, a);
    assert ss[k + 1].log[j] == es[j - |s.log|];
    assert a.WorkerFinish?;
    assert WorkerOk(s, a.q) && ItemLocal(s, ss[k + 1].log[j].w);
  }

  // ---------------------------------------------------------------- flush

  /** Flusher records and log entries never change once written. */
  lemma {:induction false} FlusherKept(ss: seq<State>, acts: seq<Action>, i: nat, j: nat, f: nat)
    requires Run(ss, acts) && i <= j <= |acts| && f < |ss[i].flushers|
    ensures f < |ss[j].flushers| && SameFlusher(ss[i].flushers[f], ss[j].flushers[f])
  {
    if i < j {
      FlusherKept(ss, acts, i, j - 1, f);
      assert StepAt(ss, acts, j - 1);
      FlusherFixed(ss[j - 1], acts[j - 1], f);
    }
  }

  /**
   work_flush waits for the last-submitted instance: when the flusher that step i created is released (entry e of the
   log), every instance accepted before step i had completed or been cancelled by then.
   */
  lemma FlushWaitsForEverythingBefore(ss: seq<State>, acts: seq<Action>, i: nat, j: nat, e: nat)
    requires RunFromInit(ss, acts) && i < j <= |acts| && acts[i].Flush?
    requires e < |ss[j].log| && ss[j].log[e] == FlushReleased(|ss[i].flushers|)
    requires StepAt(ss, acts, i) && Next(ss[i], acts[i]).reply == Flag(true)
    ensures forall n :: 1 <= n <= ss[i].items[acts[i].w].submitted ==> EndedBy(ss[j].log, e, acts[i].w, n)
  {
    FlusherKept(ss, acts, i + 1, j, |ss[i].flushers|);
    RunKeepsHistory(ss, acts, j);
    assert ReleaseOk(ss[j], e);
  }

  /** A flush that does not wait had nothing to wait for. */
  lemma FlushThatReturnsAtOnce(ss: seq<State>, acts: seq<Action>, i: nat)
    requires RunFromInit(ss, acts) && i < |acts| && acts[i].Flush?
    requires StepAt(ss, acts, i) && Next(ss[i], acts[i]).reply == Flag(false)
    ensures ss[i + 1] == ss[i]
    ensures var s, w := ss[i], acts[i].w; forall n :: 1 <= n <= s.items[w].submitted ==> EndedBy(s.log, |s.log|, w, n)
  {
    RunKeepsHistory(ss, acts, i);
  }

  /** Each flusher is released at most once, so its semaphore of count one never overflows. */
  lemma FlushReleasedOnce(ss: seq<State>, acts: seq<Action>, k: nat, i: nat, j: nat, f: nat)
    requires RunFromInit(ss, acts) && k <= |acts| && i < |ss[k].log| && j < |ss[k].log|
    requires ss[k].log[i] == FlushReleased(f) == ss[k].log[j]
    ensures i == j
  {
    RunKeepsHistory(ss, acts, k);
    assert ReleasesOk(ss[k]);
  }

  /** Between a queued item and a flusher of that instance stand only flushers of the same instance. */
  lemma {:induction false} OnlyFlushersBetween(s: State, q: nat, i: nat) returns (j: nat)
    requires Inv(s) && q < |s.queues| && i < |s.queues[q].pending|
    requires var n := s.queues[q].pending[i];
             n.FlushNode? && n.f < |s.flushers| && Awaited(s.items, s.flushers, n.f)
    ensures j < i && LinkedAt(s, q, j, s.flushers[s.queues[q].pending[i].f].w)
    ensures var p := s.queues[q].pending;
            forall k :: j < k < i ==> p[k].FlushNode? && SameInstance(s.flushers, p[k].f, p[i].f)
    decreases i
  {
    var p := s.queues[q].pending;
    assert ListOk(s.items, s.flushers, q, p) && BehindItsItem(s.items, s.flushers, p, i);
    if p[i - 1].ItemNode? {
      j := i - 1;
    } else {
      j := OnlyFlushersBetween(s, q, i - 1);
    }
  }

  /** While a flusher of a running item is unreleased, its queue starts no further user item. */
  lemma RunningItemsFlushersGoFirst(ss: seq<State>, acts: seq<Action>, k: nat, f: nat)
    requires RunFromInit(ss, acts) && k < |acts| && acts[k].WorkerTurn? && f < |ss[k].flushers|
    requires ss[k].flushers[f].urgent && ss[k].flushers[f].home == acts[k].q && !ss[k].flushers[f].released
    ensures acts[k].q < |ss[k + 1].queues| && ss[k + 1].queues[acts[k].q].pc.Running?
    ensures IsUrgent(ss[k].flushers, ss[k + 1].queues[acts[k].q].pc.node)
  {
    assert StepAt(ss, acts, k);
    RunKeepsInv(ss, acts, k);
    var s, q := ss[k], acts[k].q;
    var p := s.queues[q].pending;
    assert FlusherOk(s, f);
    var i :| 0 <= i < |p| && p[i] == FlushNode(f);
    assert ListOk(s.items, s.flushers, q, p);
    UrgentHead(s.flushers, p, i);
  }

  lemma {:induction false} UrgentHead(flushers: seq<Flusher>, p: seq<Node>, i: nat)
    requires i < |p| && IsUrgent(flushers, p[i])
    requires forall k :: 0 < k < |p| && IsUrgent(flushers, p[k]) ==> IsUrgent(flushers, p[k - 1])
    ensures IsUrgent(flushers, p[0])
  {
    if i > 0 {
      UrgentHead(flushers, p, i - 1);
    }
  }

  // ---------------------------------------------------------------- order and counts

  /** Each queue's log is the log of a FIFO with deletion, whose line is the pending list without flushers. */
  lemma QueueRefinesFifo(ss: seq<State>, acts: seq<Action>, k: nat, q: nat)
    requires RunFromInit(ss, acts) && k <= |acts| && q < |ss[k].queues|
    ensures Fifo(ss[k].log, q) == Some(Labels(ss[k].items, ss[k].queues[q].pending))
  {
    RunKeepsHistory(ss, acts, k);
    assert LineOk(ss[k], q);
  }

  /** Accepted submissions = handler starts + removals + the one still queued; starts = finishes + the one running. */
  lemma Conservation(ss: seq<State>, acts: seq<Action>, k: nat, w: nat)
    requires RunFromInit(ss, acts) && k <= |acts| && w < |ss[k].items|
    ensures var s, log := ss[k], ss[k].log;
            && Count(log, Accepts, w) ==
               Count(log, Starts, w) + Count(log, Removals, w) + (if s.items[w].flags.queued then 1 else 0)
            && Count(log, Starts, w) == Count(log, Finishes, w) + (if s.items[w].flags.running then 1 else 0)
  {
    RunKeepsHistory(ss, acts, k);
    assert Balanced(ss[k], w);
  }

  /** submit_locked answers 1 or 2 when it takes the item, 0 or an error when it leaves everything as it was. */
  lemma Answers(s: State, w: nat, target: nat, caller: Caller) returns (home: nat)
    requires Inv(s) && w < |s.items| && target < |s.queues|
    requires s.items[w].flags.running ==> s.items[w].owner.Some? && s.items[w].owner.value < |s.queues|
    ensures home < |s.queues| && if s.items[w].flags.running then s.items[w].owner == Some(home) else home == target
    ensures var o, x := SubmitLocked(s, w, target, caller), s.items[w];
            && o.reply.Code?
            && (o.reply.n > 0 ==>
                  o.s == Enqueue(s, home, w) && !x.flags.queued && o.reply.n == if x.flags.running then 2 else 1)
            && (o.reply.n <= 0 ==> o.s == s)
            && (o.reply.n == 0 <==> x.flags.queued)
  {
    assert ItemLocal(s, w);
    home := if s.items[w].flags.running then s.items[w].owner.value else target;
  }

  lemma EnqueueCounts(s: State, q: nat, w: nat)
    requires q < |s.queues| && w < |s.items|
    ensures Count(Enqueue(s, q, w).log, Accepts, w) == Count(s.log, Accepts, w) + 1
  {
    CountAppend(s.log, Accepted(q, w, s.items[w].submitted + 1), Accepts, w);
  }

  /**
   A submission is counted exactly when it answers 1 or 2, and then the item belongs to the queue asked for, or to the
   one that runs it; any other answer changes nothing. When it gives which answer is said in WorkCalls.
   */
  lemma SubmissionAnswers(ss: seq<State>, acts: seq<Action>, k: nat)
    requires RunFromInit(ss, acts) && k < |acts| && (acts[k].Submit? || acts[k].Resubmit?)
    ensures WellFormed(ss[k]) && Enabled(ss[k], acts[k])
    ensures var s, t, w := ss[k], ss[k + 1], acts[k].w; var reply := Next(s, acts[k]).reply;
            && reply.Code? && w < |t.items|
            && (reply.n == 1 || reply.n == 2 ==>
                  && Count(t.log, Accepts, w) == Count(s.log, Accepts, w) + 1
                  && t.items[w].flags.queued && !s.items[w].flags.queued
                  && (reply.n == 2 <==> s.items[w].flags.running)
                  && t.items[w].owner == if acts[k].Submit? && !s.items[w].flags.running then Some(acts[k].q)
                                         else s.items[w].owner)
            && (reply.n != 1 && reply.n != 2 ==> reply.n <= 0 && t == s)
            && (reply.n == 0 <==> s.items[w].flags.queued)
  {
    assert StepAt(ss, acts, k);
    RunKeepsInv(ss, acts, k);
    var s, w := ss[k], acts[k].w;
    assert ItemLocal(s, w);
    if acts[k].Submit? || s.items[w].owner.Some? {
      var home := Answers(s, w, if acts[k].Submit? then acts[k].q else s.items[w].owner.value, acts[k].caller);
      EnqueueCounts(s, home, w);
    }
  }

  // ---------------------------------------------------------------- flags of the queue

  /** Between steps BUSY says whether the worker is running something. */
  lemma BusyIsExact(ss: seq<State>, acts: seq<Action>, k: nat, q: nat)
    requires RunFromInit(ss, acts) && k <= |acts| && q < |ss[k].queues|
    ensures ss[k].queues[q].flags.busy <==> ss[k].queues[q].pc.Running?
  {
    RunKeepsInv(ss, acts, k);
    assert QueueLocal(ss[k].queues[q]);
  }

  /** queue_drain answers 0 without waiting iff it does not plug and there is nothing to wait for. */
  lemma DrainAnswersZeroIffQuiet(ss: seq<State>, acts: seq<Action>, k: nat)
    requires RunFromInit(ss, acts) && k < |acts| && acts[k].Drain?
    ensures WellFormed(ss[k]) && Enabled(ss[k], acts[k])
    ensures var s, qq := ss[k], ss[k].queues[acts[k].q]; var reply := Next(s, acts[k]).reply;
            && (reply == Code(-ENODEV) <==> qq.pc.NotStarted? || qq.pc.Exited?)
            && (reply == Code(0) <==>
                  && (qq.pc.LoopHead? || qq.pc.Waiting?) && qq.pending == []
                  && !acts[k].plug && !qq.flags.drain)
            && (reply.Code? ==> ss[k + 1] == s)
  {
    assert StepAt(ss, acts, k);
    RunKeepsInv(ss, acts, k);
    assert QueueLocal(ss[k].queues[acts[k].q]);
  }

  /** While a queue drains, only its own handlers get work onto it. */
  lemma DrainAdmitsOnlyChained(ss: seq<State>, acts: seq<Action>, k: nat, q: nat)
    requires RunFromInit(ss, acts) && k < |acts| && (acts[k].Submit? || acts[k].Resubmit?) && q < |ss[k].queues|
    requires q < |ss[k + 1].queues| && ss[k].queues[q].flags.drain
    requires ss[k + 1].queues[q].pending != ss[k].queues[q].pending
    ensures acts[k].caller == WorkerOf(q) && ss[k].queues[q].pc.Running?
  {
    assert StepAt(ss, acts, k);
    RunKeepsInv(ss, acts, k);
  }

  ghost predicate Quiet(s: State, q: nat) {
    q < |s.queues| && s.queues[q].pending == [] && !s.queues[q].pc.Running?
  }

  /** A plugged queue that is not draining is quiet. */
  lemma PluggedIsQuiet(ss: seq<State>, acts: seq<Action>, k: nat, q: nat)
    requires RunFromInit(ss, acts) && k <= |acts| && q < |ss[k].queues|
    requires ss[k].queues[q].flags.plugged && !ss[k].queues[q].flags.drain
    ensures Quiet(ss[k], q)
  {
    RunKeepsInv(ss, acts, k);
    assert QueueLocal(ss[k].queues[q]);
  }

  ghost predicate Sealed(s: State, q: nat) {
    Quiet(s, q) && (s.queues[q].flags.plugged || s.queues[q].pc.Exited?)
  }

  predicate Reopens(a: Action, q: nat) {
    (a.Unplug? || a.Start?) && a.q == q
  }

  /** A sealed queue owns no live item. */
  lemma SealedOwnsNothing(s: State, q: nat, w: nat)
    requires Inv(s) && Sealed(s, q) && w < |s.items| && s.items[w].owner == Some(q)
    ensures Idle(s.items[w].flags)
  {
    assert ItemLocal(s, w) && ItemPlaced(s, w);
  }

  /** So flushes and cancels never reach it, and nothing is admitted to it. */
  lemma ClientsKeepSealed(s: State, a: Action, q: nat)
    requires Inv(s) && WellFormed(s) && Enabled(s, a) && Sealed(s, q)
    requires IsItemCall(a)
    ensures var t := Next(s, a).s; q < |t.queues| && t.queues[q] == s.queues[q]
  {
    assert QueueLocal(s.queues[q]);
    var w := a.w;
    assert ItemLocal(s, w);
    if s.items[w].owner == Some(q) {
      SealedOwnsNothing(s, q, w);
    }
  }

  lemma StepKeepsSealed(s: State, a: Action, q: nat)
    requires Inv(s) && WellFormed(s) && Enabled(s, a) && Sealed(s, q) && !Reopens(a, q)
    ensures Sealed(Next(s, a).s, q)
  {
    StepQueue(s, a, q);
    if IsItemCall(a) {
      ClientsKeepSealed(s, a, q);
    }
  }

  /**
   It stays quiet until somebody unplugs it or, after a stop, starts it again, whatever is submitted, flushed,
   cancelled, drained or stopped.
   */
  lemma {:induction false} QuietUntilUnplugged(ss: seq<State>, acts: seq<Action>, i: nat, j: nat, q: nat)
    requires RunFromInit(ss, acts) && i <= j <= |acts| && q < |ss[i].queues|
    requires ss[i].queues[q].flags.plugged && !ss[i].queues[q].flags.drain
    requires forall k :: i <= k < j ==> !Reopens(acts[k], q)
    ensures Sealed(ss[j], q)
  {
    if i == j {
      PluggedIsQuiet(ss, acts, i, q);
    } else {
      QuietUntilUnplugged(ss, acts, i, j - 1, q);
      assert StepAt(ss, acts, j - 1);
      RunKeepsInv(ss, acts, j - 1);
      StepKeepsSealed(ss[j - 1], acts[j - 1], q);
    }
  }

  /** The worker leaves its loop only with an empty list. */
  lemma ExitOnlyWhenEmpty(ss: seq<State>, acts: seq<Action>, k: nat, q: nat)
    requires RunFromInit(ss, acts) && k < |acts| && q < |ss[k].queues|
    requires !ss[k].queues[q].pc.Exited? && q < |ss[k + 1].queues| && ss[k + 1].queues[q].pc.Exited?
    ensures acts[k] == WorkerTurn(q) && ss[k].queues[q].pending == [] && ss[k].queues[q].flags.stop
    ensures !ss[k].queues[q].flags.drain && ss[k + 1].queues[q].flags == NoQueueFlags
  {
    assert StepAt(ss, acts, k);
    RunKeepsInv(ss, acts, k);
    StepQueue(ss[k], acts[k], q);
  }

  /** After the worker has exited its queue runs nothing and holds nothing, until it is started again. */
  lemma {:induction false} ExitedUntilRestarted(ss: seq<State>, acts: seq<Action>, i: nat, j: nat, q: nat)
    requires RunFromInit(ss, acts) && i <= j <= |acts| && q < |ss[i].queues| && ss[i].queues[q].pc.Exited?
    requires forall k :: i <= k < j ==> !(acts[k].Start? && acts[k].q == q)
    ensures Quiet(ss[j], q) && ss[j].queues[q].pc.Exited?
  {
    RunKeepsInv(ss, acts, i);
    assert QueueLocal(ss[i].queues[q]);
    if i < j {
      ExitedUntilRestarted(ss, acts, i, j - 1, q);
      assert StepAt(ss, acts, j - 1);
      RunKeepsInv(ss, acts, j - 1);
      ExitedStays(ss[j - 1], acts[j - 1], q);
      RunKeepsInv(ss, acts, j);
      assert QueueLocal(ss[j].queues[q]);
    }
  }

  lemma ExitedStays(s: State, a: Action, q: nat)
    requires Inv(s) && WellFormed(s) && Enabled(s, a)
    requires q < |s.queues| && s.queues[q].pc.Exited? && !(a.Start? && a.q == q)
    ensures var t := Next(s, a).s; q < |t.queues| && t.queues[q].pc.Exited?
  {
    StepQueue(s, a, q);
  }
}
