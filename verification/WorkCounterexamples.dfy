/** Runs that show where the documentation promises too much. */
module WorkCounterexamples {
  import opened Lists
  import opened Flags
  import opened WorkModel
  import opened WorkInvariant
  import opened WorkSafety

  const FreshQueue := Queue(NoQueueFlags, [], [], [], NotStarted, 0)
  const FreshItem := Item(NoWorkFlags, None, 0, 0)

  lemma Extend(ss: seq<State>, acts: seq<Action>, a: Action) returns (ss': seq<State>, acts': seq<Action>)
    requires RunFromInit(ss, acts) && Enabled(ss[|acts|], a)
    ensures WellFormed(ss[|acts|])
    ensures RunFromInit(ss', acts') && acts' == acts + [a] && ss' == ss + [Next(ss[|acts|], a).s]
  {
    RunKeepsInv(ss, acts, |acts|);
    RunGoesOn(ss, acts, a);
    ss', acts' := ss + [Next(ss[|acts|], a).s], acts + [a];
  }

  function LiveQueue(flags: QueueFlags, pending: seq<Node>, notifyq: seq<int>, drainq: seq<int>, pc: Pc,
                     drainers: nat): Queue {
    Queue(flags.(started := true), pending, notifyq, drainq, pc, drainers)
  }

  // ---------------------------------------------------------------- a queue without items

  /** A worker waits, and a drain has been asked for. */
  lemma WaitingDrained() returns (ss: seq<State>, acts: seq<Action>)
    ensures RunFromInit(ss, acts) && acts == [Start(0, false), WorkerTurn(0), Drain(0, true)]
    ensures ss[3] == State([], [LiveQueue(NoQueueFlags.(drain := true, plugged := true), [], [0], [], Waiting, 1)],
                           [], [], 0, [])
  {
    ss, acts := [State([], [FreshQueue], [], [], 0, [])], [];
    ss, acts := Extend(ss, acts, Start(0, false));
    ss, acts := Extend(ss, acts, WorkerTurn(0));
    ss, acts := Extend(ss, acts, Drain(0, true));
    assert ss[3].queues[0].notifyq == [0];
    assert ss[3].queues == [LiveQueue(NoQueueFlags.(drain := true, plugged := true), [], [0], [], Waiting, 1)];
  }

  /** stop issued while a drain is under way: the worker serves the drain and then waits without a token, STOP set. */
  lemma StopDuringDrainStrandsWorker() returns (ss: seq<State>, acts: seq<Action>)
    ensures RunFromInit(ss, acts)
    ensures acts == [Start(0, false), WorkerTurn(0), Drain(0, true), Stop(0), WorkerWake(0), WorkerTurn(0)]
    ensures var s := ss[|acts|];
            && |s.queues| == 1 && s.queues[0].flags.stop && s.queues[0].pc.Waiting?
            && !Enabled(s, WorkerTurn(0)) && !Enabled(s, WorkerWake(0)) && !Enabled(s, WorkerFinish(0))
  {
    ss, acts := WaitingDrained();
    ss, acts := Extend(ss, acts, Stop(0));
    assert ss[4].queues[0].notifyq == [0];
    ss, acts := Extend(ss, acts, WorkerWake(0));
    assert ss[5].queues[0].notifyq == [];
    assert ss[5].queues ==
           [LiveQueue(NoQueueFlags.(drain := true, plugged := true, stop := true), [], [], [], LoopHead, 1)];
    ss, acts := Extend(ss, acts, WorkerTurn(0));
  }

  /** Two drain callers at once: one token for both, and DRAIN is already clear. */
  lemma SecondDrainCallerIsLeftBehind() returns (ss: seq<State>, acts: seq<Action>)
    ensures RunFromInit(ss, acts)
    ensures acts == [Start(0, false), WorkerTurn(0), Drain(0, true), Drain(0, true), WorkerWake(0), WorkerTurn(0),
                     DrainReturn(0)]
    ensures var s := ss[|acts|];
            && |s.queues| == 1 && s.queues[0].drainers == 1 && s.queues[0].drainq == []
            && !s.queues[0].flags.drain
  {
    ss, acts := TwoDrainers();
    ss, acts := Extend(ss, acts, WorkerTurn(0));
    ss, acts := Extend(ss, acts, DrainReturn(0));
  }

  lemma TwoDrainers() returns (ss: seq<State>, acts: seq<Action>)
    ensures RunFromInit(ss, acts)
    ensures acts == [Start(0, false), WorkerTurn(0), Drain(0, true), Drain(0, true), WorkerWake(0)]
    ensures ss[5].queues == [LiveQueue(NoQueueFlags.(drain := true, plugged := true), [], [], [], LoopHead, 2)]
  {
    ss, acts := WaitingDrained();
    ss, acts := Extend(ss, acts, Drain(0, true));
    assert ss[4].queues[0].notifyq == [0];
    ss, acts := Extend(ss, acts, WorkerWake(0));
    assert ss[5].queues[0].notifyq == [];
  }

  // ---------------------------------------------------------------- a queue with one item

  lemma Fresh() returns (ss: seq<State>, acts: seq<Action>)
    ensures RunFromInit(ss, acts) && acts == [Start(0, false)]
    ensures ss[1] == State([FreshItem], [LiveQueue(NoQueueFlags, [], [], [], LoopHead, 0)], [], [], 0, [])
  {
    ss, acts := [State([FreshItem], [FreshQueue], [], [], 0, [])], [];
    ss, acts := Extend(ss, acts, Start(0, false));
  }

  /** The item has been submitted and its handler runs. */
  lemma OneRuns() returns (ss: seq<State>, acts: seq<Action>)
    ensures RunFromInit(ss, acts) && acts == [Start(0, false), Submit(0, 0, Outside), WorkerTurn(0)]
    ensures ss[1].items == [FreshItem] && ss[2].items == [Item(NoWorkFlags.(queued := true), Some(0), 1, 0)]
    ensures ss[3] == State([Item(NoWorkFlags.(running := true), Some(0), 1, 1)],
                           [LiveQueue(NoQueueFlags.(busy := true), [], [0], [], Running(ItemNode(0)), 0)], [], [], 0,
                           [Accepted(0, 0, 1), Started(0, 0, 1)])
  {
    ss, acts := Fresh();
    ss, acts := Extend(ss, acts, Submit(0, 0, Outside));
    assert ss[2].queues[0].pending == [ItemNode(0)] && ss[2].queues[0].notifyq == [0];
    assert ss[2].queues == [LiveQueue(NoQueueFlags, [ItemNode(0)], [0], [], LoopHead, 0)];
    assert ss[2].log == [Accepted(0, 0, 1)];
    ss, acts := Extend(ss, acts, WorkerTurn(0));
    assert ss[3].queues[0].pending == [];
    assert ss[3].log == [Accepted(0, 0, 1), Started(0, 0, 1)];
  }

  /** All five combinations of item flags occur, in one run. */
  lemma FiveCombinationsOccur() returns (ss: seq<State>, acts: seq<Action>)
    ensures RunFromInit(ss, acts) && |acts| == 5
    ensures forall k :: 1 <= k <= 5 ==> |ss[k].items| == 1
    ensures ss[1].items[0].flags == NoWorkFlags
    ensures ss[2].items[0].flags == NoWorkFlags.(queued := true)
    ensures ss[3].items[0].flags == NoWorkFlags.(running := true)
    ensures ss[4].items[0].flags == NoWorkFlags.(running := true, queued := true)
    ensures ss[5].items[0].flags == NoWorkFlags.(running := true, canceling := true)
  {
    ss, acts := OneRuns();
    ss, acts := Extend(ss, acts, Submit(0, 0, WorkerOf(0)));
    assert ss[4].items == [Item(NoWorkFlags.(running := true, queued := true), Some(0), 2, 1)];
    ss, acts := Extend(ss, acts, Cancel(0));
  }

  /** Two synchronous cancellers of one running item are both registered. */
  lemma CancelTwice() returns (ss: seq<State>, acts: seq<Action>)
    ensures RunFromInit(ss, acts)
    ensures acts == [Start(0, false), Submit(0, 0, Outside), WorkerTurn(0), CancelSync(0), CancelSync(0)]
    ensures ss[5] == State([Item(NoWorkFlags.(running := true, canceling := true), Some(0), 1, 1)],
                           [LiveQueue(NoQueueFlags.(busy := true), [], [0], [], Running(ItemNode(0)), 0)], [],
                           [Canceller(0, 0), Canceller(1, 0)], 2, [Accepted(0, 0, 1), Started(0, 0, 1)])
  {
    ss, acts := OneRuns();
    ss, acts := Extend(ss, acts, CancelSync(0));
    ss, acts := Extend(ss, acts, CancelSync(0));
  }

  /** The second is still waiting when the item is idle. */
  lemma SecondCancellerIsLeftBehind() returns (ss: seq<State>, acts: seq<Action>)
    ensures RunFromInit(ss, acts)
    ensures acts == [Start(0, false), Submit(0, 0, Outside), WorkerTurn(0), CancelSync(0), CancelSync(0),
                     WorkerFinish(0)]
    ensures var s := ss[|acts|];
            |s.items| == 1 && s.items[0].flags == NoWorkFlags && s.cancels == [Canceller(1, 0)]
  {
    ss, acts := CancelTwice();
    assert Oldest(ss[5].cancels, 0) == 0;
    ss, acts := Extend(ss, acts, WorkerFinish(0));
  }

  /** A drain has left its token, its caller has not yet taken it, and the queue accepts work again. */
  lemma TokenNotTaken() returns (ss: seq<State>, acts: seq<Action>)
    ensures RunFromInit(ss, acts) && acts == [Start(0, false), Drain(0, true), WorkerTurn(0), Unplug(0)]
    ensures ss[4] == State([FreshItem], [LiveQueue(NoQueueFlags, [], [0], [1], Waiting, 1)], [], [], 0, [DrainDone(0)])
  {
    ss, acts := Fresh();
    ss, acts := Extend(ss, acts, Drain(0, true));
    assert ss[2].queues[0].notifyq == [0];
    assert ss[2].queues == [LiveQueue(NoQueueFlags.(drain := true, plugged := true), [], [0], [], LoopHead, 1)];
    ss, acts := Extend(ss, acts, WorkerTurn(0));
    assert ss[3].queues[0].drainq == [1];
    assert ss[3].queues == [LiveQueue(NoQueueFlags.(plugged := true), [], [0], [1], Waiting, 1)];
    ss, acts := Extend(ss, acts, Unplug(0));
    assert ss[4].log == [DrainDone(0)];
  }

  /**
   A second drain caller takes that token and returns 1 although its own drain has not begun and an item is linked.
   */
  lemma StaleTokenEndsDrainEarly() returns (ss: seq<State>, acts: seq<Action>)
    ensures RunFromInit(ss, acts)
    ensures acts == [Start(0, false), Drain(0, true), WorkerTurn(0), Unplug(0), Submit(0, 0, Outside), Drain(0, false),
                     DrainReturn(0)]
    ensures StepAt(ss, acts, 6) && Next(ss[6], acts[6]).reply == Code(1)
    ensures |ss[7].queues| == 1 && ss[7].queues[0].flags.drain && ss[7].queues[0].pending == [ItemNode(0)]
  {
    ss, acts := TokenNotTaken();
    ss, acts := Extend(ss, acts, Submit(0, 0, Outside));
    assert ss[5].queues[0].pending == [ItemNode(0)] && ss[5].queues[0].notifyq == [0];
    assert ss[5].queues == [LiveQueue(NoQueueFlags, [ItemNode(0)], [0], [1], Waiting, 1)];
    ss, acts := Extend(ss, acts, Drain(0, false));
    assert ss[6].queues[0].notifyq == [0];
    assert ss[6].queues == [LiveQueue(NoQueueFlags.(drain := true), [ItemNode(0)], [0], [1], Waiting, 2)];
    ss, acts := Extend(ss, acts, DrainReturn(0));
    assert StepAt(ss, acts, 6);
  }
}
