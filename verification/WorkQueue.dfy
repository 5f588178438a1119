/**
 Work, WorkQ, WorkFlusher and WorkCanceller as objects whose fields the critical sections update in place, proved
 against the steps of WorkModel. Kernel holds what the source keeps in namespace-level statics: the global lock's
 state.
 */
module WorkQueue {
  import opened Lists
  import opened Flags
  import opened M = WorkModel
  import opened WorkInvariant
  import opened WorkLinks

  class Work {
    var flags: bv32
    var queue: WorkQ?
    /** The flusher this Work is part of, which the source finds by container_of; null for a user's Work. */
    var flusher: WorkFlusher?

    constructor ()
      ensures flags == 0 && queue == null && flusher == null
    {
      flags, queue, flusher := 0, null, null;
    }
  }

  class WorkFlusher {
    const work: Work
    /** The count of the semaphore that the flush caller waits on. */
    var sem: nat

    constructor ()
      ensures fresh(work) && work.flags == 0 && work.queue == null && work.flusher == this && sem == 0
    {
      work := new Work();
      sem := 0;
      new;
      work.flusher := this;
    }
  }

  class WorkCanceller {
    var work: Work
    var sem: nat
    ghost const id: nat

    constructor (work: Work, ghost id: nat)
      ensures this.work == work && this.id == id && sem == 0
    {
      this.work, this.id, sem := work, id, 0;
    }
  }

  class WorkQ {
    /** Stands for the identity of the worker thread. */
    const id: nat
    var flags: bv32
    var pending: seq<Work>
    var notifyq: seq<int>
    var drainq: seq<int>

    constructor (id: nat)
      ensures this.id == id && flags == 0 && pending == [] && notifyq == [] && drainq == []
    {
      this.id := id;
      flags, pending, notifyq, drainq := 0, [], [], [];
    }

    method NotifyLocked()
      modifies this`notifyq
      ensures notifyq == Ring.Put(1, true, old(notifyq), 0)
    {
      notifyq := Ring.Put(1, true, notifyq, 0);
    }

    /** The member submit_locked: chained says that the calling thread is this queue's worker. */
    method SubmitNode(work: Work, chained: bool) returns (ret: int)
      modifies this`pending, this`notifyq
      ensures ret < 0 ==> pending == old(pending) && notifyq == old(notifyq)
      ensures ret >= 0 ==> ret == 1 && pending == old(pending) + [work] && notifyq == Ring.Put(1, true, old(notifyq), 0)
      ensures ret == -ENODEV <==> !FlagTest(flags, WORK_QUEUE_STARTED_BIT)
      ensures ret == -EBUSY <==>
              && FlagTest(flags, WORK_QUEUE_STARTED_BIT)
              && (if FlagTest(flags, WORK_QUEUE_DRAIN_BIT) then !chained else FlagTest(flags, WORK_QUEUE_PLUGGED_BIT))
      ensures ret in {1, -ENODEV, -EBUSY}
    {
      var draining := FlagTest(flags, WORK_QUEUE_DRAIN_BIT);
      var plugged := FlagTest(flags, WORK_QUEUE_PLUGGED_BIT);
      if !FlagTest(flags, WORK_QUEUE_STARTED_BIT) {
        ret := -ENODEV;
      } else if (draining && !chained) || (plugged && !draining) {
        ret := -EBUSY;
      } else {
        pending := pending + [work];
        ret := 1;
        NotifyLocked();
      }
    }

    /** Sets DRAIN, and PLUGGED when the drain is to plug the queue. */
    method RaiseDrain(plug: bool, ghost f: QueueFlags)
      requires flags == QueueWord(f)
      modifies this`flags
      ensures flags == QueueWord(f.(drain := true, plugged := plug || f.plugged))
    {
      QueueSets(f);
      QueueSets(f.(drain := true));
      flags := FlagSet(flags, WORK_QUEUE_DRAIN_BIT);
      if plug {
        flags := FlagSet(flags, WORK_QUEUE_PLUGGED_BIT);
      }
    }

    /** flag_test_and_clear of PLUGGED. */
    method ClearPlugged(ghost f: QueueFlags) returns (was: bool)
      requires flags == QueueWord(f)
      modifies this`flags
      ensures was == f.plugged == FlagTest(old(flags), WORK_QUEUE_PLUGGED_BIT)
      ensures flags == QueueWord(f.(plugged := false)) && !FlagTest(flags, WORK_QUEUE_PLUGGED_BIT)
    {
      QueueTests(f);
      QueueTests(f.(plugged := false));
      QueueClears(f);
      was := FlagTest(flags, WORK_QUEUE_PLUGGED_BIT);
      flags := FlagClear(flags, WORK_QUEUE_PLUGGED_BIT);
    }

    method FlusherLocked(work: Work, flusher: WorkFlusher)
      requires FlagTest(work.flags, WORK_QUEUED_BIT) ==> work in pending
      requires work != flusher.work
      modifies this`pending, flusher.work`flags
      ensures flusher.work.flags == FlagSet(old(flusher.work.flags), WORK_FLUSHING_BIT)
      ensures pending == Joined(old(pending), work, flusher.work, FlagTest(work.flags, WORK_QUEUED_BIT))
    {
      flusher.work.flags := FlagSet(flusher.work.flags, WORK_FLUSHING_BIT);
      if FlagTest(work.flags, WORK_QUEUED_BIT) {
        pending := InsertAfter(pending, work, flusher.work);
      } else {
        pending := [flusher.work] + pending;
      }
    }

    method RemoveLocked(work: Work)
      modifies this`pending, work`flags
      ensures work.flags == FlagClear(old(work.flags), WORK_QUEUED_BIT)
      ensures pending ==
              if FlagTest(old(work.flags), WORK_QUEUED_BIT) then Without(old(pending), work) else old(pending)
    {
      var queued := FlagTest(work.flags, WORK_QUEUED_BIT);
      work.flags := FlagClear(work.flags, WORK_QUEUED_BIT);
      if queued {
        pending := Without(pending, work);
      }
    }
  }

  /** The item and the queue that a step moves. */
  datatype Spot = Spot(w: nat, h: nat)

  /** Everything the global spin lock protects. */
  class Kernel {
    const works: seq<Work>
    const queues: seq<WorkQ>
    var pendingCancels: seq<WorkCanceller>
    ghost var flushers: seq<WorkFlusher>
    /** The state of the protocol that the objects represent. */
    ghost var model: State

    /** Any number of items and queues, nothing submitted and nothing started. */
    constructor (works: seq<Work>, queues: seq<WorkQ>)
      requires NoDup(works) && forall k :: 0 <= k < |queues| ==> queues[k].id == k
      requires forall i :: 0 <= i < |works| ==>
                 works[i].flags == 0 && works[i].queue == null && works[i].flusher == null
      requires forall k :: 0 <= k < |queues| ==>
                 queues[k].flags == 0 && queues[k].pending == [] && queues[k].notifyq == [] && queues[k].drainq == []
      ensures Valid() && Init(model) && this.works == works && this.queues == queues
    {
      this.works, this.queues := works, queues;
      pendingCancels, flushers := [], [];
      model := State(seq(|works|, _ => Item(NoWorkFlags, None, 0, 0)),
                     seq(|queues|, _ => Queue(NoQueueFlags, [], [], [], NotStarted, 0)), [], [], 0, []);
      new;
      InitInv(model);
    }

    ghost predicate Separate()
      reads this`flushers, this`pendingCancels
    {
      && (forall k :: 0 <= k < |queues| ==> queues[k].id == k)
      && NoDup(works) && NoDup(flushers) && NoDup(pendingCancels)
      && (forall i, j :: 0 <= i < |works| && 0 <= j < |flushers| ==> works[i] != flushers[j].work)
      && (forall i, j :: 0 <= i < j < |flushers| ==> flushers[i].work != flushers[j].work)
    }

    /** The Work objects that stand for items and flushers. */
    ghost function Ours(): Objects<Work>
      reads this`flushers
    {
      Objects(works, WorksOf(flushers))
    }

    lemma OursDistinct()
      requires Separate()
      ensures Distinct(Ours())
    {
    }

    ghost function WorksOf(fls: seq<WorkFlusher>): seq<Work> {
      seq(|fls|, f requires 0 <= f < |fls| => fls[f].work)
    }

    ghost predicate ItemCoupled(i: nat)
      reads this`model, works
      requires i < |works|
    {
      && i < |model.items|
      && works[i].flags == WorkWord(model.items[i].flags)
      && (model.items[i].owner.None? ==> works[i].queue == null)
      && (model.items[i].owner.Some? ==>
            model.items[i].owner.value < |queues| && works[i].queue == queues[model.items[i].owner.value])
      && works[i].flusher == null
    }

    ghost predicate QueueCoupled(k: nat)
      reads this`model, this`flushers, queues
      requires k < |queues|
    {
      && k < |model.queues|
      && var qq := model.queues[k];
      && queues[k].flags == QueueWord(qq.flags)
      && queues[k].notifyq == qq.notifyq && queues[k].drainq == qq.drainq
      && Linked(queues[k].pending, qq.pending)
    }

    /** The list links the objects that the nodes of p stand for. */
    ghost predicate Linked(c: seq<Work>, p: seq<Node>)
      reads this`flushers
    {
      InStep(Ours(), c, p)
    }

    ghost predicate Stands(x: Work, n: Node)
      reads this`flushers
    {
      StandsFor(Ours(), x, n)
    }

    ghost predicate FlusherCoupled(f: nat)
      reads this`model, this`flushers, flushers, set i | 0 <= i < |flushers| :: flushers[i].work
      requires f < |flushers|
    {
      && f < |model.flushers|
      && var running := model.flushers[f].home < |model.queues|
                        && model.queues[model.flushers[f].home].pc == Running(FlushNode(f));
      && flushers[f].work.flags ==
         (if model.flushers[f].released then 0 else WorkWord(NoWorkFlags.(flushing := true, running := running)))
      && flushers[f].work.flusher == flushers[f]
      && flushers[f].sem == (if model.flushers[f].released then 1 else 0)
    }

    ghost predicate CancellerCoupled(i: nat)
      reads this`model, this`pendingCancels, pendingCancels
      requires i < |pendingCancels|
    {
      && i < |model.cancels| && model.cancels[i].w < |works|
      && pendingCancels[i].work == works[model.cancels[i].w] && pendingCancels[i].id == model.cancels[i].id
      && pendingCancels[i].sem == 0
    }

    ghost function FlusherWorks(): set<Work>
      reads this`flushers
    {
      set i | 0 <= i < |flushers| :: flushers[i].work
    }

    /** The objects represent the model. */
    ghost predicate Coupled()
      reads this, works, queues, flushers, FlusherWorks(), pendingCancels
    {
      && Separate()
      && |works| == |model.items| && |queues| == |model.queues|
      && |flushers| == |model.flushers| && |pendingCancels| == |model.cancels|
      && (forall i :: 0 <= i < |works| ==> ItemCoupled(i))
      && (forall k :: 0 <= k < |queues| ==> QueueCoupled(k))
      && (forall f :: 0 <= f < |flushers| ==> FlusherCoupled(f))
      && (forall i :: 0 <= i < |pendingCancels| ==> CancellerCoupled(i))
    }

    ghost predicate Valid()
      reads this, works, queues, flushers, FlusherWorks(), pendingCancels
    {
      Coupled() && Inv(model)
    }

    /** What a step needs to see of the state before it. */
    ghost predicate Ready(a: Action)
      reads this, works, queues, flushers, FlusherWorks(), pendingCancels
    {
      Valid() && WellFormed(model) && Enabled(model, a)
    }

    /** Items other than w and queues other than h, and all flushers and cancellers, are as they were. */
    twostate predicate OnlyChanged(w: nat, h: nat)
      reads this, works, queues, flushers, FlusherWorks(), pendingCancels
    {
      && flushers == old(flushers) && pendingCancels == old(pendingCancels)
      && (forall i :: 0 <= i < |works| && i != w ==> unchanged(works[i]))
      && (forall k :: 0 <= k < |queues| && k != h ==> unchanged(queues[k]))
      && (forall f :: 0 <= f < |flushers| ==> unchanged(flushers[f]) && unchanged(flushers[f].work))
      && (forall i :: 0 <= i < |pendingCancels| ==> unchanged(pendingCancels[i]))
    }

    ghost predicate OnlyMoved(s: State, w: nat, h: nat)
      reads this`model
    {
      && |model.items| == |s.items| && |model.queues| == |s.queues|
      && model.flushers == s.flushers && model.cancels == s.cancels
      && (forall i :: 0 <= i < |s.items| && i != w ==> model.items[i] == s.items[i])
      && (forall k :: 0 <= k < |s.queues| && k != h ==> model.queues[k] == s.queues[k])
      && (h < |s.queues| ==>
            (!Flushing(model.queues[h]) && !Flushing(s.queues[h])) || model.queues[h].pc == s.queues[h].pc)
    }

    ghost predicate Flushing(qq: Queue) {
      qq.pc.Running? && qq.pc.node.FlushNode?
    }

    ghost predicate Here(w: nat, h: nat)
      reads this`model, this`flushers, works, queues
    {
      (w < |works| ==> ItemCoupled(w)) && (h < |queues| ==> QueueCoupled(h))
    }

    /** A step that moves one item and one queue, in the objects and in the model, keeps the two coupled. */
    twostate lemma Recouple(at: Spot)
      requires old(Coupled()) && OnlyChanged(at.w, at.h) && OnlyMoved(old(model), at.w, at.h)
      requires Here(at.w, at.h)
      ensures Coupled()
    {
      forall i | 0 <= i < |works|
        ensures ItemCoupled(i)
      {
        assert old(ItemCoupled(i));
      }
      forall k | 0 <= k < |queues|
        ensures QueueCoupled(k)
      {
        assert old(QueueCoupled(k));
      }
      forall f | 0 <= f < |flushers|
        ensures FlusherCoupled(f)
      {
        assert old(FlusherCoupled(f));
      }
      forall i | 0 <= i < |pendingCancels|
        ensures CancellerCoupled(i)
      {
        assert old(CancellerCoupled(i));
      }
    }

    // ---------------------------------------------------------------- submission

    twostate lemma LinkCouples(at: Spot)
      requires old(Coupled()) && at.w < |works| && at.h < |queues| && OnlyChanged(at.w, at.h)
      requires model == Enqueue(old(model), at.h, at.w)
      requires works[at.w].flags == FlagSet(old(works[at.w].flags), WORK_QUEUED_BIT)
      requires works[at.w].queue == queues[at.h] && works[at.w].flusher == old(works[at.w].flusher)
      requires queues[at.h].pending == old(queues[at.h].pending) + [works[at.w]]
      requires queues[at.h].notifyq == Ring.Put(1, true, old(queues[at.h].notifyq), 0)
      requires queues[at.h].flags == old(queues[at.h].flags) && queues[at.h].drainq == old(queues[at.h].drainq)
      ensures Coupled()
    {
      assert old(ItemCoupled(at.w)) && old(QueueCoupled(at.h));
      WorkUpdates(old(model).items[at.w].flags);
      Recouple(at);
    }

    /** The queue's own submit_locked, and the update of the item when the queue takes it. */
    method Link(work: Work, queue: WorkQ, caller: Caller, ghost w: nat, ghost home: nat) returns (rc: int)
      requires Coupled() && w < |works| && work == works[w] && home < |queues| && queue == queues[home]
      modifies this`model, work`flags, work`queue, queue
      ensures Coupled()
      ensures rc == Admission(old(model), home, caller)
      ensures rc < 0 ==> model == old(model) && work.queue == old(work.queue)
      ensures rc >= 0 ==> model == Enqueue(old(model), home, w)
      ensures rc >= 0 ==> work.queue == queue && queue.pending == old(queue.pending) + [work]
    {
      assert QueueCoupled(home);
      QueueTests(model.queues[home].flags);
      rc := queue.SubmitNode(work, caller == WorkerOf(queue.id));
      if rc >= 0 {
        work.flags := FlagSet(work.flags, WORK_QUEUED_BIT);
        work.queue := queue;
        model := Enqueue(model, home, w);
        LinkCouples(Spot(w, home));
      }
    }

    /** The static submit_locked. A null target means the queue of the most recent submission. */
    method SubmitLocked(work: Work, target: WorkQ?, caller: Caller, ghost w: nat, ghost k: nat) returns (ret: int)
      requires Valid() && w < |works| && work == works[w] && k < |queues|
      requires if target != null then target == queues[k] else work.queue == queues[k]
      modifies this`model, work`flags, work`queue, queues
      ensures Valid()
      ensures old(model.items[w].flags.running) ==>
              old(model.items[w].owner.Some?) && old(model.items[w].owner.value) < |queues|
      ensures Outcome(model, Code(ret)) == M.SubmitLocked(old(model), w, k, caller)
      ensures ret == 1 && target != null ==> work.queue == target && target.pending == old(target.pending) + [work]
      ensures ret == 2 || target == null ==> work.queue == old(work.queue)
    {
      ret := 0;
      ghost var x := model.items[w];
      assert ItemCoupled(w) && ItemLocal(model, w);
      WorkTests(x.flags);
      SubmitKeeps(model, w, k, caller);
      if FlagTest(work.flags, WORK_CANCELING_BIT) {
        ret := -EBUSY;
      } else if !FlagTest(work.flags, WORK_QUEUED_BIT) {
        ret := 1;
        var queue := target;
        if queue == null {
          queue := work.queue;
        }
        if FlagTest(work.flags, WORK_RUNNING_BIT) {
          queue := work.queue;
          ret := 2;
        }
        var rc := Link(work, queue, caller, w, if x.flags.running then x.owner.value else k);
        if rc < 0 {
          ret := rc;
        }
      }
    }

    /** WorkQ::submit; work_submit_to_queue with a queue. */
    method Submit(q: WorkQ, work: Work?, caller: Caller, ghost w: nat, ghost k: nat) returns (ret: int)
      requires k < |queues| && q == queues[k] && Valid()
      requires work != null ==> Ready(M.Submit(w, k, caller)) && work == works[w]
      modifies this`model, works, queues
      ensures Valid()
      ensures work == null ==> ret == -EINVAL && model == old(model)
      ensures work != null ==> Outcome(model, Code(ret)) == Next(old(model), M.Submit(w, k, caller))
      ensures work != null && ret == 1 ==> work.queue == q && q.pending == old(q.pending) + [work]
      ensures work != null && ret == 2 ==> work.queue == old(work.queue)
    {
      if work == null {
        return -EINVAL;
      }
      ret := SubmitLocked(work, q, caller, w, k);
    }

    /** Work::resubmit; work_submit_to_queue without a queue. */
    method Resubmit(work: Work, caller: Caller, ghost w: nat) returns (ret: int)
      requires Ready(M.Resubmit(w, caller)) && work == works[w]
      modifies this`model, work`flags, work`queue, queues
      ensures Valid()
      ensures Outcome(model, Code(ret)) == Next(old(model), M.Resubmit(w, caller))
      ensures work.queue == old(work.queue) && (ret == -EINVAL <==> work.queue == null)
    {
      assert ItemCoupled(w);
      if work.queue == null {
        return -EINVAL;
      }
      ret := SubmitLocked(work, null, caller, w, model.items[w].owner.value);
    }

    // ---------------------------------------------------------------- flush

    /** A flusher that belongs to no other call. */
    ghost predicate Unused(fl: WorkFlusher)
      reads this`flushers
    {
      fl !in flushers && fl.work !in works && fl.work !in FlusherWorks()
    }

    /** The step added a flusher and changed the list and the channel of queue h, nothing else. */
    twostate predicate FlusherAdded(h: nat)
      reads this, works, queues, flushers, FlusherWorks(), pendingCancels
      requires h < |queues|
    {
      && |flushers| == |old(flushers)| + 1 && flushers[..|old(flushers)|] == old(flushers)
      && pendingCancels == old(pendingCancels)
      && (forall i :: 0 <= i < |works| ==> unchanged(works[i]))
      && (forall k :: 0 <= k < |queues| && k != h ==> unchanged(queues[k]))
      && (forall f :: 0 <= f < |old(flushers)| ==> unchanged(flushers[f]) && unchanged(flushers[f].work))
      && (forall i :: 0 <= i < |pendingCancels| ==> unchanged(pendingCancels[i]))
    }

    /** Objects keep standing for their nodes. */
    twostate lemma LinkedKept(k: nat)
      requires k < |queues| && k < |old(model).queues|
      requires old(Linked(queues[k].pending, model.queues[k].pending))
      requires |old(flushers)| <= |flushers| && flushers[..|old(flushers)|] == old(flushers)
      ensures Linked(old(queues[k].pending), old(model.queues[k].pending))
    {
      forall f | 0 <= f < |old(flushers)|
        ensures flushers[f] == old(flushers)[f]
      {
        assert flushers[f] == flushers[..|old(flushers)|][f];
      }
      GrowInStep(old(Ours()), Ours(), old(queues[k].pending), old(model.queues[k].pending));
    }

    twostate lemma FlushCouples(at: Spot)
      requires old(Coupled()) && at.w < |works| && at.h < |queues| && FlusherAdded(at.h)
      requires FlushDefined(old(model), at.w) && model == FlushLocked(old(model), at.w).s
      requires old(model).items[at.w].owner == Some(at.h) && |model.flushers| == |flushers|
      requires Separate() && QueueCoupled(at.h) && FlusherCoupled(|old(flushers)|)
      ensures Coupled()
    {
      forall i | 0 <= i < |works|
        ensures ItemCoupled(i)
      {
        assert old(ItemCoupled(i));
      }
      forall k | 0 <= k < |queues|
        ensures QueueCoupled(k)
      {
        assert old(QueueCoupled(k));
        LinkedKept(k);
      }
      forall f | 0 <= f < |flushers|
        ensures FlusherCoupled(f)
      {
        if f < |old(flushers)| {
          assert flushers[f] == flushers[..|old(flushers)|][f];
          assert old(FlusherCoupled(f));
        }
      }
      forall i | 0 <= i < |pendingCancels|
        ensures CancellerCoupled(i)
      {
        assert old(CancellerCoupled(i));
      }
    }

    /** The newest flusher's Work joins the list as its node does. */
    lemma JoinLinks(c: seq<Work>, p: seq<Node>, w: nat, queued: bool)
      requires Separate() && Linked(c, p) && w < |works| && |flushers| > 0
      requires queued ==> ItemNode(w) in p
      ensures queued ==> works[w] in c
      ensures var f := |flushers| - 1;
              Linked(Joined(c, works[w], flushers[f].work, queued), Joined(p, ItemNode(w), FlushNode(f), queued))
    {
      var f := |flushers| - 1;
      OursDistinct();
      JoinInStep(Ours(), c, p, w, works[w], f, flushers[f].work, queued);
    }

    /** What a flush of a busy item does to the queue of the item. */
    lemma FlushedQueue(s: State, w: nat, h: nat)
      requires FlushDefined(s, w) && s.items[w].owner == Some(h) && h < |s.queues|
      requires s.items[w].flags.queued || s.items[w].flags.running
      ensures var t, p, n := FlushLocked(s, w).s, s.queues[h].pending, FlushNode(|s.flushers|);
              && |t.queues| == |s.queues|
              && t.queues[h] == s.queues[h].(
                   pending := Joined(p, ItemNode(w), n, s.items[w].flags.queued),
                   notifyq := Ring.Put(1, true, s.queues[h].notifyq, 0))
    {
    }

    /** The objects' side of AddFlusher. */
    method LinkFlusher(work: Work, flusher: WorkFlusher, ghost w: nat, ghost h: nat)
      requires Separate() && w < |works| && work == works[w] && h < |queues| && ItemCoupled(w) && QueueCoupled(h)
      requires FlushDefined(model, w) && model.items[w].owner == Some(h)
      requires model.items[w].flags.queued || model.items[w].flags.running
      requires Unused(flusher) && flusher.work.flags == 0 && |flushers| == |model.flushers|
      modifies this`model, this`flushers, queues[h], flusher.work`flags
      ensures flushers == old(flushers) + [flusher] && model == FlushLocked(old(model), w).s
      ensures flusher.work.flags == WorkWord(NoWorkFlags.(flushing := true))
      ensures QueueCoupled(h)
    {
      ghost var queued := model.items[w].flags.queued;
      WorkTests(model.items[w].flags);
      WorkUpdates(NoWorkFlags);
      ghost var c, p := queues[h].pending, model.queues[h].pending;
      flushers := flushers + [flusher];
      LinkedKept(h);
      JoinLinks(c, p, w, queued);
      work.queue.FlusherLocked(work, flusher);
      assert queues[h].pending == Joined(c, work, flusher.work, queued);
      work.queue.NotifyLocked();
      FlushedQueue(model, w, h);
      model := FlushLocked(model, w).s;
    }

    /** work_flush_locked, when the item is busy: the flusher joins the list of the item's queue, which is notified. */
    method AddFlusher(work: Work, flusher: WorkFlusher, ghost w: nat, ghost h: nat)
      requires Coupled() && w < |works| && work == works[w] && h < |queues|
      requires FlushDefined(model, w) && model.items[w].owner == Some(h)
      requires model.items[w].flags.queued || model.items[w].flags.running
      requires model.queues[h].pc != Running(FlushNode(|flushers|))
      requires Unused(flusher)
      requires flusher.work.flags == 0 && flusher.work.flusher == flusher && flusher.sem == 0
      modifies this`model, this`flushers, queues[h], flusher.work`flags
      ensures Coupled() && flushers == old(flushers) + [flusher]
      ensures model == FlushLocked(old(model), w).s
    {
      assert ItemCoupled(w) && QueueCoupled(h);
      LinkFlusher(work, flusher, w, h);
      FlushCouples(Spot(w, h));
    }

    /** The critical section of work_flush; the caller goes on to take flusher.sem when need is true. */
    method WorkFlush(work: Work, ghost w: nat) returns (need: bool, flusher: WorkFlusher)
      requires Ready(M.Flush(w)) && work == works[w]
      modifies this`model, this`flushers, queues
      ensures Valid()
      ensures Outcome(model, Reply.Flag(need)) == Next(old(model), M.Flush(w))
      ensures need ==> flushers == old(flushers) + [flusher] && flusher.sem == 0
    {
      flusher := new WorkFlusher();
      StepKeepsInv(model, M.Flush(w));
      assert ItemCoupled(w);
      WorkTests(model.items[w].flags);
      need := work.flags & (4 | 1) != 0;
      if need {
        ghost var h := model.items[w].owner.value;
        assert WorkerOk(model, h);
        AddFlusher(work, flusher, w, h);
      }
    }

    // ---------------------------------------------------------------- cancel

    /** remove_locked, seen from the model. */
    method Remove(work: Work, ghost w: nat)
      requires Coupled() && w < |works| && work == works[w] && CancelDefined(model, w)
      requires model.items[w].flags.queued ==> ItemNode(w) in model.queues[model.items[w].owner.value].pending
      modifies this`model, work`flags, queues
      ensures Coupled() && model == Unqueue(old(model), w) && work.queue == old(work.queue)
    {
      ghost var h := model.items[w].owner.value;
      assert ItemCoupled(w) && QueueCoupled(h);
      WorkTests(model.items[w].flags);
      WorkUpdates(model.items[w].flags);
      if model.items[w].flags.queued {
        OursDistinct();
        WithoutInStep(Ours(), queues[h].pending, model.queues[h].pending, w);
      }
      work.queue.RemoveLocked(work);
      Unqueued(model, w, h);
      model := Unqueue(model, w);
      assert ItemCoupled(w) && QueueCoupled(h);
      Recouple(Spot(w, h));
    }

    /** What a removal does to the item and to its queue. */
    lemma Unqueued(s: State, w: nat, h: nat)
      requires CancelDefined(s, w) && s.items[w].owner == Some(h)
      ensures var t, x, qq := Unqueue(s, w), s.items[w], s.queues[h];
              var p' := if x.flags.queued then Without(qq.pending, ItemNode(w)) else qq.pending;
              && t.items == s.items[w := x.(flags := x.flags.(queued := false))]
              && t.queues == s.queues[h := qq.(pending := p')]
              && t.flushers == s.flushers && t.cancels == s.cancels
    {
    }

    /** Setting CANCELING on an item that is still busy. */
    method MarkCanceling(work: Work, ghost w: nat)
      requires Coupled() && w < |works| && work == works[w]
      modifies this`model, work`flags
      ensures Coupled()
      ensures var x := old(model).items[w]; model == SetItem(old(model), w, x.(flags := x.flags.(canceling := true)))
    {
      assert ItemCoupled(w);
      WorkUpdates(model.items[w].flags);
      work.flags := FlagSet(work.flags, WORK_CANCELING_BIT);
      model := SetItem(model, w, model.items[w].(flags := model.items[w].flags.(canceling := true)));
      Recouple(Spot(w, |queues|));
    }

    method CancelAsyncLocked(work: Work, ghost w: nat) returns (ret: bv32)
      requires Valid() && w < |works| && work == works[w] && CancelDefined(model, w)
      modifies this`model, work`flags, queues
      ensures Valid()
      ensures model == CancelAsync(old(model), w).s && ret == WorkWord(model.items[w].flags) == work.flags
    {
      assert ItemCoupled(w) && ItemLocal(model, w) && ItemPlaced(model, w);
      WorkTests(model.items[w].flags);
      CancelKeeps(model, w);
      if !FlagTest(work.flags, WORK_CANCELING_BIT) {
        Remove(work, w);
      }
      assert ItemCoupled(w);
      WorkTests(model.items[w].flags);
      ret := work.flags & WORK_MASK;
      if ret != 0 {
        MarkCanceling(work, w);
        assert ItemCoupled(w);
        WorkTests(model.items[w].flags);
        ret := work.flags & WORK_MASK;
      }
    }

    /** work_cancel: the answer is the flag word of the item. */
    method WorkCancel(work: Work, ghost w: nat) returns (ret: bv32)
      requires Ready(M.Cancel(w)) && work == works[w]
      modifies this`model, work`flags, queues
      ensures Valid()
      ensures ret == WorkWord(model.items[w].flags)
      ensures Outcome(model, Busy(model.items[w].flags)) == Next(old(model), M.Cancel(w))
    {
      ret := CancelAsyncLocked(work, w);
    }

    /** A step that only changes the waiting cancellers. */
    twostate lemma CancellersRecoupled()
      requires old(Coupled()) && NoDup(pendingCancels) && flushers == old(flushers)
      requires model == old(model).(cancels := model.cancels, cancellers := model.cancellers)
      requires |pendingCancels| == |model.cancels|
      requires forall i :: 0 <= i < |pendingCancels| ==> CancellerCoupled(i)
      requires forall i :: 0 <= i < |works| ==> unchanged(works[i])
      requires forall k :: 0 <= k < |queues| ==> unchanged(queues[k])
      requires forall f :: 0 <= f < |flushers| ==> unchanged(flushers[f]) && unchanged(flushers[f].work)
      ensures Coupled()
    {
      forall i | 0 <= i < |works|
        ensures ItemCoupled(i)
      {
        assert old(ItemCoupled(i));
      }
      forall k | 0 <= k < |queues|
        ensures QueueCoupled(k)
      {
        assert old(QueueCoupled(k));
      }
      forall f | 0 <= f < |flushers|
        ensures FlusherCoupled(f)
      {
        assert old(FlusherCoupled(f));
      }
    }

    /** cancel_sync_locked with init_canceller, when the item is being cancelled. */
    method InitCanceller(work: Work, ghost w: nat) returns (canceller: WorkCanceller)
      requires Coupled() && w < |works| && work == works[w]
      modifies this`model, this`pendingCancels
      ensures Coupled() && fresh(canceller) && pendingCancels == old(pendingCancels) + [canceller]
      ensures var s := old(model);
              model == s.(cancels := s.cancels + [Canceller(s.cancellers, w)], cancellers := s.cancellers + 1)
    {
      canceller := new WorkCanceller(work, model.cancellers);
      pendingCancels := pendingCancels + [canceller];
      model := model.(cancels := model.cancels + [Canceller(model.cancellers, w)], cancellers := model.cancellers + 1);
      forall i | 0 <= i < |pendingCancels|
        ensures CancellerCoupled(i)
      {
        assert i < |old(pendingCancels)| ==> old(CancellerCoupled(i));
      }
      CancellersRecoupled();
    }

    /** The critical section of work_cancel_sync; the caller goes on to take canceller.sem when it is not null. */
    method WorkCancelSync(work: Work, ghost w: nat) returns (pending: bool, canceller: WorkCanceller?)
      requires Ready(M.CancelSync(w)) && work == works[w]
      modifies this`model, this`pendingCancels, work`flags, queues
      ensures Valid()
      ensures Outcome(model, Reply.Flag(pending)) == Next(old(model), M.CancelSync(w))
      ensures canceller != null ==> pendingCancels == old(pendingCancels) + [canceller]
      ensures canceller == null ==> pendingCancels == old(pendingCancels)
    {
      StepKeepsInv(model, M.CancelSync(w));
      pending, canceller := CancelSyncBody(work, w);
    }

    method CancelSyncBody(work: Work, ghost w: nat) returns (pending: bool, canceller: WorkCanceller?)
      requires Valid() && w < |works| && work == works[w] && (!Idle(model.items[w].flags) ==> CancelDefined(model, w))
      modifies this`model, this`pendingCancels, work`flags, queues
      ensures Coupled()
      ensures Outcome(model, Reply.Flag(pending)) == CancelSyncLocked(old(model), w)
      ensures canceller != null ==> pendingCancels == old(pendingCancels) + [canceller]
      ensures canceller == null ==> pendingCancels == old(pendingCancels)
    {
      assert ItemCoupled(w);
      WorkTests(model.items[w].flags);
      pending := work.flags & WORK_MASK != 0;
      canceller := null;
      if pending {
        var _ := CancelAsyncLocked(work, w);
        WorkTests(model.items[w].flags);
        if FlagTest(work.flags, WORK_CANCELING_BIT) {
          canceller := InitCanceller(work, w);
        }
      }
    }

    // ---------------------------------------------------------------- queue control

    /** The queue of the model after a drain caller has raised its flags. */
    function Draining(qq: Queue, plug: bool): Queue {
      Notified(qq.(flags := qq.flags.(drain := true, plugged := plug || qq.flags.plugged), drainers := qq.drainers + 1))
    }

    /** The drain caller raises its flags, wakes the worker and goes on to wait. */
    method BeginDrain(q: WorkQ, plug: bool, ghost k: nat)
      requires Coupled() && k < |queues| && q == queues[k]
      modifies this`model, q
      ensures Coupled()
      ensures model == SetQueue(old(model), k, Draining(old(model).queues[k], plug))
    {
      ghost var qq := model.queues[k];
      assert QueueCoupled(k);
      q.RaiseDrain(plug, qq.flags);
      q.NotifyLocked();
      model := SetQueue(model, k, Draining(qq, plug));
      assert QueueCoupled(k);
      Recouple(Spot(|works|, k));
    }

    /** The critical section of queue_drain; ret is None when the caller goes on to wait in drainq.get. */
    method QueueDrain(q: WorkQ, plug: bool, ghost k: nat) returns (ret: Option<int>)
      requires Ready(M.Drain(k, plug)) && q == queues[k]
      modifies this`model, q
      ensures Valid()
      ensures Outcome(model, if ret.Some? then Code(ret.value) else M.Nothing) == Next(old(model), M.Drain(k, plug))
    {
      StepKeepsInv(model, M.Drain(k, plug));
      assert QueueCoupled(k) && QueueLocal(model.queues[k]);
      QueueTests(model.queues[k].flags);
      if !FlagTest(q.flags, WORK_QUEUE_STARTED_BIT) {
        return Some(-ENODEV);
      }
      if q.flags & (2 | 4) != 0 || plug || q.pending != [] {
        BeginDrain(q, plug, k);
        return None;
      }
      return Some(0);
    }

    /** drainq.get of a waiting drain caller, once there is a token. */
    method DrainGet(q: WorkQ, ghost k: nat) returns (ret: int)
      requires Ready(M.DrainReturn(k)) && q == queues[k]
      modifies this`model, q`drainq
      ensures Valid()
      ensures Outcome(model, Code(ret)) == Next(old(model), M.DrainReturn(k))
    {
      StepKeepsInv(model, M.DrainReturn(k));
      assert QueueCoupled(k);
      ret := q.drainq[0];
      q.drainq := q.drainq[1..];
      model := DrainReturned(model, k).s;
      assert QueueCoupled(k);
      Recouple(Spot(|works|, k));
    }

    method QueueUnplug(q: WorkQ, ghost k: nat) returns (ret: int)
      requires Ready(M.Unplug(k)) && q == queues[k]
      modifies this`model, q`flags
      ensures Valid()
      ensures Outcome(model, Code(ret)) == Next(old(model), M.Unplug(k))
      ensures ret == if FlagTest(old(q.flags), WORK_QUEUE_PLUGGED_BIT) then 0 else -EALREADY
      ensures !FlagTest(q.flags, WORK_QUEUE_PLUGGED_BIT)
    {
      StepKeepsInv(model, M.Unplug(k));
      assert QueueCoupled(k);
      ret := -EALREADY;
      var was := q.ClearPlugged(model.queues[k].flags);
      if was {
        ret := 0;
      }
      model := UnplugLocked(model, k).s;
      assert QueueCoupled(k);
      Recouple(Spot(|works|, k));
    }

    method BeginStop(q: WorkQ, ghost k: nat)
      requires Coupled() && k < |queues| && q == queues[k]
      modifies this`model, q`flags, q`notifyq
      ensures Coupled()
      ensures var qq := old(model).queues[k];
              model == SetQueue(old(model), k, Notified(qq.(flags := qq.flags.(stop := true))))
      ensures FlagTest(q.flags, WORK_QUEUE_STOP_BIT) && q.notifyq != []
    {
      assert QueueCoupled(k);
      QueueSets(model.queues[k].flags);
      QueueTests(model.queues[k].flags.(stop := true));
      q.flags := FlagSet(q.flags, WORK_QUEUE_STOP_BIT);
      q.NotifyLocked();
      model := SetQueue(model, k, Notified(model.queues[k].(flags := model.queues[k].flags.(stop := true))));
      assert QueueCoupled(k);
      Recouple(Spot(|works|, k));
    }

    /** The critical section of stop; ret is None when the caller goes on to join the worker thread. */
    method QueueStop(q: WorkQ, ghost k: nat) returns (ret: Option<int>)
      requires Ready(M.Stop(k)) && q == queues[k]
      modifies this`model, q`flags, q`notifyq
      ensures Valid()
      ensures Outcome(model, if ret.Some? then Code(ret.value) else M.Nothing) == Next(old(model), M.Stop(k))
      ensures ret == Some(-EALREADY) <==> !FlagTest(old(q.flags), WORK_QUEUE_STARTED_BIT)
      ensures ret == Some(-EBUSY) <==>
              FlagTest(old(q.flags), WORK_QUEUE_STARTED_BIT) && !FlagTest(old(q.flags), WORK_QUEUE_PLUGGED_BIT)
      ensures ret.None? ==> FlagTest(q.flags, WORK_QUEUE_STOP_BIT) && q.notifyq != []
      ensures ret.Some? ==> ret.value in {-EALREADY, -EBUSY} && q.flags == old(q.flags) && q.notifyq == old(q.notifyq)
    {
      StepKeepsInv(model, M.Stop(k));
      assert QueueCoupled(k);
      QueueTests(model.queues[k].flags);
      if !FlagTest(q.flags, WORK_QUEUE_STARTED_BIT) {
        return Some(-EALREADY);
      }
      if !FlagTest(q.flags, WORK_QUEUE_PLUGGED_BIT) {
        return Some(-EBUSY);
      }
      BeginStop(q, k);
      return None;
    }

    method QueueStart(q: WorkQ, noYield: bool, ghost k: nat)
      requires Ready(M.Start(k, noYield)) && q == queues[k]
      modifies this`model, q
      ensures Valid()
      ensures model == Next(old(model), M.Start(k, noYield)).s
    {
      StepKeepsInv(model, M.Start(k, noYield));
      assert QueueCoupled(k);
      var flags := 1;
      q.pending, q.notifyq, q.drainq := [], [], [];
      if noYield {
        flags := flags | 256;
      }
      q.flags := flags;
      model := SetQueue(model, k, QueueStarted(model.queues[k], noYield));
      assert QueueCoupled(k);
      Recouple(Spot(|works|, k));
    }

    // ---------------------------------------------------------------- the worker

    /** notifyq.get of the waiting worker, once there is a token. */
    method WorkerGet(q: WorkQ, ghost k: nat)
      requires Ready(M.WorkerWake(k)) && q == queues[k]
      modifies this`model, q`notifyq
      ensures Valid()
      ensures model == Next(old(model), M.WorkerWake(k)).s
    {
      StepKeepsInv(model, M.WorkerWake(k));
      assert QueueCoupled(k);
      q.notifyq := q.notifyq[1..];
      model := WakeUp(model, k);
      assert QueueCoupled(k);
      Recouple(Spot(|works|, k));
    }

    /** A step that moves one flusher and its queue keeps the two coupled. */
    twostate lemma RecoupleFlusher(at: Spot)
      requires old(Coupled()) && at.w < |flushers| && at.h < |queues|
      requires flushers == old(flushers) && pendingCancels == old(pendingCancels)
      requires forall i :: 0 <= i < |works| ==> unchanged(works[i])
      requires forall k :: 0 <= k < |queues| && k != at.h ==> unchanged(queues[k])
      requires forall f :: 0 <= f < |flushers| && f != at.w ==> unchanged(flushers[f]) && unchanged(flushers[f].work)
      requires forall i :: 0 <= i < |pendingCancels| ==> unchanged(pendingCancels[i])
      requires model.items == old(model).items && model.cancels == old(model).cancels
      requires |model.queues| == |old(model).queues| && |model.flushers| == |old(model).flushers|
      requires forall k :: 0 <= k < |model.queues| && k != at.h ==> model.queues[k] == old(model).queues[k]
      requires forall f :: 0 <= f < |model.flushers| && f != at.w ==> model.flushers[f] == old(model).flushers[f]
      requires forall f :: 0 <= f < |model.flushers| && f != at.w ==>
                 (model.queues[at.h].pc == Running(FlushNode(f)) <==>
                  old(model).queues[at.h].pc == Running(FlushNode(f)))
      requires FlusherCoupled(at.w) && QueueCoupled(at.h)
      ensures Coupled()
    {
      forall i | 0 <= i < |works|
        ensures ItemCoupled(i)
      {
        assert old(ItemCoupled(i));
      }
      forall k | 0 <= k < |queues|
        ensures QueueCoupled(k)
      {
        assert old(QueueCoupled(k));
      }
      forall f | 0 <= f < |flushers|
        ensures FlusherCoupled(f)
      {
        assert old(FlusherCoupled(f));
      }
      forall i | 0 <= i < |pendingCancels|
        ensures CancellerCoupled(i)
      {
        assert old(CancellerCoupled(i));
      }
    }

    /** What the worker does to the words and the list when it takes the head. */
    method TakeHead(q: WorkQ, ghost f: WorkFlags, ghost g: QueueFlags) returns (work: Work)
      requires q.pending != [] && q.pending[0].flags == WorkWord(f) && q.flags == QueueWord(g)
      modifies q, q.pending[0]
      ensures work == old(q.pending[0]) && q.pending == old(q.pending)[1..]
      ensures q.notifyq == old(q.notifyq) && q.drainq == old(q.drainq)
      ensures work.queue == old(work.queue) && work.flusher == old(work.flusher)
      ensures work.flags == WorkWord(f.(running := true, queued := false)) && q.flags == QueueWord(g.(busy := true))
    {
      work := q.pending[0];
      q.pending := q.pending[1..];
      WorkUpdates(f);
      WorkUpdates(f.(running := true));
      QueueSets(g);
      q.flags := FlagSet(q.flags, WORK_QUEUE_BUSY_BIT);
      work.flags := FlagSet(work.flags, WORK_RUNNING_BIT);
      work.flags := FlagClear(work.flags, WORK_QUEUED_BIT);
    }

    ghost predicate CanPop(k: nat)
      reads this`model
    {
      && k < |model.queues| && model.queues[k].pc.LoopHead? && model.queues[k].pending != []
      && NodeOk(model.items, model.flushers, k, model.queues[k].pending[0])
    }

    /** The flags of the object that stands for a linked node. */
    ghost function NodeFlags(n: Node): WorkFlags
      reads this`model
    {
      if n.ItemNode? && n.w < |model.items| then model.items[n.w].flags else NoWorkFlags.(flushing := true)
    }

    /** The worker takes the head of the list, an item or a flusher alike. */
    method Take(q: WorkQ, ghost k: nat) returns (work: Work)
      requires Coupled() && CanPop(k) && q == queues[k]
      modifies this`model, q, works, FlusherWorks()
      ensures Coupled() && model == TurnLocked(old(model), k)
      ensures Stands(work, old(model).queues[k].pending[0])
    {
      assert QueueCoupled(k);
      ghost var n := model.queues[k].pending[0];
      assert Stands(q.pending[0], n);
      if n.ItemNode? {
        assert ItemCoupled(n.w);
      } else {
        assert FlusherCoupled(n.f);
      }
      TailInStep(Ours(), q.pending, model.queues[k].pending);
      work := TakeHead(q, NodeFlags(n), model.queues[k].flags);
      model := TurnLocked(model, k);
      if n.ItemNode? {
        assert ItemCoupled(n.w) && QueueCoupled(k);
        Recouple(Spot(n.w, k));
      } else {
        RecoupleFlusher(Spot(n.f, k));
      }
    }

    /** The branches of the worker's turn that find no node: serve the drain, exit, or go on to wait. */
    method IdleTurn(q: WorkQ, ghost k: nat) returns (exits: bool)
      requires Coupled() && k < |queues| && q == queues[k] && model.queues[k].pc.LoopHead?
      requires model.queues[k].pending == []
      modifies this`model, q
      ensures Coupled() && model == TurnLocked(old(model), k)
      ensures exits <==> model.queues[k].pc.Exited?
    {
      assert QueueCoupled(k);
      QueueTests(model.queues[k].flags);
      QueueClears(model.queues[k].flags);
      exits := false;
      if FlagTest(q.flags, WORK_QUEUE_DRAIN_BIT) {
        q.flags := FlagClear(q.flags, WORK_QUEUE_DRAIN_BIT);
        q.drainq := Ring.Put(1, true, q.drainq, 1);
      } else if FlagTest(q.flags, WORK_QUEUE_STOP_BIT) {
        q.flags := 0;
        exits := true;
      }
      model := TurnLocked(model, k);
      assert QueueCoupled(k);
      Recouple(Spot(|works|, k));
    }

    /** The critical section at the head of the worker's loop: the Work to run, or null to wait or to exit. */
    method Turn(q: WorkQ, ghost k: nat) returns (work: Work?, exits: bool)
      requires Ready(M.WorkerTurn(k)) && q == queues[k]
      modifies this`model, q, works, FlusherWorks()
      ensures Valid()
      ensures model == Next(old(model), M.WorkerTurn(k)).s
      ensures work != null <==> model.queues[k].pc.Running?
      ensures work != null ==> Stands(work, model.queues[k].pc.node)
      ensures exits <==> model.queues[k].pc.Exited?
    {
      StepKeepsInv(model, M.WorkerTurn(k));
      assert QueueCoupled(k);
      work, exits := null, false;
      if q.pending != [] {
        assert ListOk(model.items, model.flushers, k, model.queues[k].pending);
        assert NodeOk(model.items, model.flushers, k, model.queues[k].pending[0]);
        work := Take(q, k);
      } else {
        exits := IdleTurn(q, k);
      }
    }

    /**
     finalize_cancel_locked: CANCELING is cleared, and the first canceller in the list that waits for the item is
     unlinked and released. The answer is its position, or the length of the list when nobody waits.
     */
    method FinalizeCancelLocked(work: Work, ghost f: WorkFlags) returns (at: nat)
      requires work.flags == WorkWord(f) && NoDup(pendingCancels)
      modifies this`pendingCancels, pendingCancels, work`flags
      ensures work.flags == WorkWord(f.(canceling := false))
      ensures at <= |old(pendingCancels)| && forall j :: 0 <= j < at ==> old(pendingCancels[j].work) != work
      ensures at == |old(pendingCancels)| ==> pendingCancels == old(pendingCancels)
      ensures at < |old(pendingCancels)| ==>
              && old(pendingCancels[at].work) == work
              && pendingCancels == old(pendingCancels)[..at] + old(pendingCancels)[at + 1..]
              && old(pendingCancels)[at].sem == old(pendingCancels[at].sem) + 1
      ensures forall j :: 0 <= j < |old(pendingCancels)| && j != at ==> unchanged(old(pendingCancels)[j])
      ensures forall j :: 0 <= j < |old(pendingCancels)| ==> old(pendingCancels)[j].work == old(pendingCancels[j].work)
    {
      WorkUpdates(f);
      work.flags := FlagClear(work.flags, WORK_CANCELING_BIT);
      at := 0;
      while at < |pendingCancels|
        invariant at <= |pendingCancels| && forall j :: 0 <= j < at ==> pendingCancels[j].work != work
        modifies {}
      {
        if pendingCancels[at].work == work {
          break;
        }
        at := at + 1;
      }
      if at < |pendingCancels| {
        Release(pendingCancels[at], at);
      }
    }

    /** Unlinks the canceller at a position and gives its semaphore. */
    method Release(wc: WorkCanceller, at: nat)
      requires at < |pendingCancels| && wc == pendingCancels[at]
      modifies this`pendingCancels, wc`sem
      ensures pendingCancels == old(pendingCancels)[..at] + old(pendingCancels)[at + 1..]
      ensures wc.sem == old(wc.sem) + 1
    {
      pendingCancels := pendingCancels[..at] + pendingCancels[at + 1..];
      wc.sem := wc.sem + 1;
    }

    /** finalize_flush_locked. */
    method FinalizeFlushLocked(work: Work, ghost f: WorkFlags)
      requires work.flags == WorkWord(f) && work.flusher != null
      modifies work`flags, work.flusher`sem
      ensures work.flags == WorkWord(f.(flushing := false)) && work.flusher.sem == old(work.flusher.sem) + 1
    {
      WorkUpdates(f);
      var flusher := work.flusher;
      work.flags := FlagClear(work.flags, WORK_FLUSHING_BIT);
      flusher.sem := flusher.sem + 1;
    }

    /** The model after RUNNING is cleared and before anybody is released; BUSY is still set. */
    ghost function RunDone(s: State, k: nat): State
      requires k < |s.queues| && s.queues[k].pc.Running?
      requires s.queues[k].pc.node.ItemNode? ==> s.queues[k].pc.node.w < |s.items|
    {
      var s1 := SetQueue(s, k, s.queues[k].(pc := LoopHead));
      match s.queues[k].pc.node
      case ItemNode(w) =>
        var x := s.items[w];
        Log(SetItem(s1, w, x.(flags := x.flags.(running := false))), Finished(k, w, x.instance))
      case FlushNode(f) => s1
    }

    ghost function FlushDone(s: State, f: nat): State
      requires f < |s.flushers|
    {
      Log(s.(flushers := s.flushers[f := s.flushers[f].(released := true)]), FlushReleased(f))
    }

    ghost function NotBusy(s: State, k: nat): State
      requires k < |s.queues|
    {
      SetQueue(s, k, s.queues[k].(flags := s.queues[k].flags.(busy := false)))
    }

    /** The three stages together are the step of the model. */
    lemma FinishInStages(s: State, k: nat)
      requires WellFormed(s) && k < |s.queues| && s.queues[k].pc.Running?
      ensures var n := s.queues[k].pc.node; var s1 := RunDone(s, k);
              match n
              case ItemNode(w) =>
                FinishLocked(s, k) == NotBusy(if s.items[w].flags.canceling then M.FinalizeCancel(s1, w) else s1, k)
              case FlushNode(f) => FinishLocked(s, k) == NotBusy(FlushDone(s1, f), k)
    {
      var qq := s.queues[k];
      assert s.queues[k := qq.(pc := LoopHead)][k := qq.(flags := qq.flags.(busy := false), pc := LoopHead)]
          == s.queues[k := qq.(flags := qq.flags.(busy := false), pc := LoopHead)];
    }

    method ClearRunningBit(work: Work, ghost f: WorkFlags)
      requires work.flags == WorkWord(f)
      modifies work`flags
      ensures work.flags == WorkWord(f.(running := false))
    {
      WorkUpdates(f);
      work.flags := FlagClear(work.flags, WORK_RUNNING_BIT);
    }

    method ClearRunning(work: Work, ghost k: nat)
      requires Coupled() && k < |queues| && model.queues[k].pc.Running? && NodeHome(k)
      requires Stands(work, model.queues[k].pc.node)
      modifies this`model, work`flags
      ensures Coupled() && model == RunDone(old(model), k)
    {
      ghost var n := model.queues[k].pc.node;
      assert QueueCoupled(k);
      if n.ItemNode? {
        assert ItemCoupled(n.w);
      } else {
        assert FlusherCoupled(n.f);
      }
      ClearRunningBit(
        work, if n.ItemNode? then model.items[n.w].flags else NoWorkFlags.(flushing := true, running := true));
      model := RunDone(model, k);
      if n.ItemNode? {
        assert ItemCoupled(n.w) && QueueCoupled(k);
        Recouple(Spot(n.w, k));
      } else {
        RecoupleFlusher(Spot(n.f, k));
      }
    }

    /** The node that the worker runs is at home on its queue. */
    ghost predicate NodeHome(k: nat)
      reads this`model
    {
      && k < |model.queues| && model.queues[k].pc.Running?
      && match model.queues[k].pc.node
         case ItemNode(w) => w < |model.items|
         case FlushNode(f) => f < |model.flushers| && model.flushers[f].home == k && !model.flushers[f].released
    }

    method ReleaseFlusher(work: Work, ghost f: nat)
      requires Coupled() && f < |flushers| && work == flushers[f].work
      requires model.flushers[f].home < |queues| && !model.flushers[f].released
      requires model.queues[model.flushers[f].home].pc.LoopHead?
      modifies this`model, flushers[f], work`flags
      ensures Coupled() && model == FlushDone(old(model), f)
      ensures flushers[f].sem == old(flushers[f].sem) + 1 && work.flags == WorkWord(NoWorkFlags)
    {
      ghost var h := model.flushers[f].home;
      assert FlusherCoupled(f) && QueueCoupled(h);
      WorkTests(NoWorkFlags);
      FinalizeFlushLocked(work, NoWorkFlags.(flushing := true));
      model := FlushDone(model, f);
      RecoupleFlusher(Spot(f, h));
    }

    method ClearBusy(q: WorkQ, ghost k: nat)
      requires Coupled() && k < |queues| && q == queues[k]
      modifies this`model, q`flags
      ensures Coupled() && model == NotBusy(old(model), k)
    {
      assert QueueCoupled(k);
      QueueClears(model.queues[k].flags);
      q.flags := FlagClear(q.flags, WORK_CANCELING_BIT);
      model := NotBusy(model, k);
      assert QueueCoupled(k);
      Recouple(Spot(|works|, k));
    }

    /** The position the loop of finalize_cancel_locked stops at is that of the oldest canceller of the model. */
    lemma OldestIs(cancels: seq<M.Canceller>, w: nat, at: nat)
      requires at <= |cancels| && forall j :: 0 <= j < at ==> cancels[j].w != w
      requires at < |cancels| ==> cancels[at].w == w
      ensures Oldest(cancels, w) == at
    {
    }

    /** When canceller `at.h`, if there is one, is unlinked, the others stay coupled. */
    twostate lemma CancellersKept(at: Spot)
      requires |old(pendingCancels)| == |old(model).cancels| && |works| == |old(model).items|
      requires forall j :: 0 <= j < |old(pendingCancels)| ==> old(CancellerCoupled(j))
      requires at.h <= |old(pendingCancels)| && Dropped(old(pendingCancels), pendingCancels, at.h)
      requires Dropped(old(model).cancels, model.cancels, at.h)
      requires forall j :: 0 <= j < |old(pendingCancels)| && j != at.h ==> unchanged(old(pendingCancels)[j])
      ensures forall i :: 0 <= i < |pendingCancels| ==> CancellerCoupled(i)
    {
      forall i | 0 <= i < |pendingCancels|
        ensures CancellerCoupled(i)
      {
        assert old(CancellerCoupled(if i < at.h then i else i + 1));
      }
    }

    /** Item w is no longer being cancelled and canceller `at.h`, if there is one, is unlinked. */
    twostate lemma ReleaseCouples(at: Spot)
      requires old(Coupled()) && at.w < |works| && at.h <= |old(pendingCancels)|
      requires model.items == M.FinalizeCancel(old(model), at.w).items && model.queues == old(model).queues
      requires model.flushers == old(model).flushers && flushers == old(flushers) && ItemCoupled(at.w)
      requires NoDup(pendingCancels) && Dropped(old(pendingCancels), pendingCancels, at.h)
      requires Dropped(old(model).cancels, model.cancels, at.h)
      requires forall i :: 0 <= i < |old(pendingCancels)| && i != at.h ==> unchanged(old(pendingCancels)[i])
      requires forall i :: 0 <= i < |works| && i != at.w ==> unchanged(works[i])
      requires forall k :: 0 <= k < |queues| ==> unchanged(queues[k])
      requires forall f :: 0 <= f < |flushers| ==> unchanged(flushers[f]) && unchanged(flushers[f].work)
      ensures Coupled()
    {
      forall i | 0 <= i < |works|
        ensures ItemCoupled(i)
      {
        assert old(ItemCoupled(i));
      }
      forall k | 0 <= k < |queues|
        ensures QueueCoupled(k)
      {
        assert old(QueueCoupled(k));
      }
      forall f | 0 <= f < |flushers|
        ensures FlusherCoupled(f)
      {
        assert old(FlusherCoupled(f));
      }
      CancellersKept(at);
    }

    /** What FinalizeCancel does to the cancellers: the oldest that waits for w leaves. */
    lemma CancelsDropped(s: State, w: nat, at: nat)
      requires w < |s.items| && Oldest(s.cancels, w) == at
      ensures var t := M.FinalizeCancel(s, w);
              Dropped(s.cancels, t.cancels, at) && t.queues == s.queues && t.flushers == s.flushers
    {
      if at < |s.cancels| {
        RemovedAt(s.cancels, at);
      }
    }

    method ReleaseCanceller(work: Work, ghost w: nat)
      requires Coupled() && w < |works| && work == works[w]
      modifies this`model, this`pendingCancels, pendingCancels, work`flags
      ensures Coupled() && model == M.FinalizeCancel(old(model), w)
      ensures var i := Oldest(old(model).cancels, w);
              i < |old(pendingCancels)| ==> old(pendingCancels)[i].sem == old(pendingCancels[i].sem) + 1 == 1
    {
      assert ItemCoupled(w);
      forall j | 0 <= j < |pendingCancels|
        ensures pendingCancels[j].work == work <==> model.cancels[j].w == w
        ensures pendingCancels[j].sem == 0
      {
        assert CancellerCoupled(j);
      }
      ghost var was := pendingCancels;
      var at := FinalizeCancelLocked(work, model.items[w].flags);
      OldestIs(model.cancels, w, at);
      CancelsDropped(model, w, at);
      if at < |was| { RemovedAt(was, at); }
      model := M.FinalizeCancel(model, w);
      ReleaseCouples(Spot(w, at));
    }

    /** The critical section after the handler has returned. */
    method Finish(q: WorkQ, work: Work, ghost k: nat)
      requires Ready(M.WorkerFinish(k)) && q == queues[k] && Stands(work, model.queues[k].pc.node)
      modifies this`model, this`pendingCancels, pendingCancels, q`flags, work`flags, flushers
      ensures Valid()
      ensures model == Next(old(model), M.WorkerFinish(k)).s
      ensures var n := old(model).queues[k].pc.node;
              n.ItemNode? && old(model).items[n.w].flags.canceling ==>
                var i := Oldest(old(model).cancels, n.w);
                i < |old(pendingCancels)| ==> old(pendingCancels)[i].sem == old(pendingCancels[i].sem) + 1 == 1
    {
      StepKeepsInv(model, M.WorkerFinish(k));
      assert WorkerOk(model, k);
      assert model.queues[k].pc.node.ItemNode? ==> ItemLocal(model, model.queues[k].pc.node.w);
      FinishBody(q, work, k);
    }

    method FinishBody(q: WorkQ, work: Work, ghost k: nat)
      requires Coupled() && WellFormed(model) && k < |queues| && q == queues[k] && NodeHome(k)
      requires Stands(work, model.queues[k].pc.node)
      requires var n := model.queues[k].pc.node; n.ItemNode? ==> !model.items[n.w].flags.flushing
      modifies this`model, this`pendingCancels, pendingCancels, q`flags, work`flags, flushers
      ensures Coupled() && model == FinishLocked(old(model), k)
      ensures var n := old(model).queues[k].pc.node;
              n.ItemNode? && old(model).items[n.w].flags.canceling ==>
                var i := Oldest(old(model).cancels, n.w);
                i < |old(pendingCancels)| ==> old(pendingCancels)[i].sem == old(pendingCancels[i].sem) + 1 == 1
    {
      ghost var n := model.queues[k].pc.node;
      FinishInStages(model, k);
      ClearRunning(work, k);
      if n.ItemNode? {
        assert ItemCoupled(n.w);
        WorkTests(model.items[n.w].flags);
      } else {
        assert FlusherCoupled(n.f);
        WorkTests(NoWorkFlags.(flushing := true));
      }
      if FlagTest(work.flags, WORK_FLUSHING_BIT) {
        ReleaseFlusher(work, n.f);
        WorkTests(NoWorkFlags);
      }
      if FlagTest(work.flags, WORK_CANCELING_BIT) {
        ReleaseCanceller(work, n.w);
      }
      ClearBusy(q, k);
    }
  }
}
