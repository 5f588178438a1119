/** The callers of work_cancel_sync: what they wait for, and who is left behind. */
module WorkCancel {
  import opened Lists
  import opened Flags
  import opened WorkModel
  import opened WorkInvariant
  import opened WorkSafety

  // ---------------------------------------------------------------- one canceller of an item at a time

  /** Nobody cancels item w synchronously while a canceller of w waits. */
  ghost predicate CancelsOneByOne(s: State, a: Action, w: nat) {
    a == CancelSync(w) ==> forall i :: 0 <= i < |s.cancels| ==> s.cancels[i].w != w
  }

  ghost predicate OneCanceller(ss: seq<State>, acts: seq<Action>, w: nat) {
    RunFromInit(ss, acts) && forall i :: 0 <= i < |acts| ==> CancelsOneByOne(ss[i], acts[i], w)
  }

  /** At most one canceller waits for w, and only while w is being cancelled. */
  ghost predicate CancelsOk(s: State, w: nat) {
    && (forall i :: 0 <= i < |s.cancels| && s.cancels[i].w == w ==> w < |s.items| && s.items[w].flags.canceling)
    && (forall i, j :: 0 <= i < j < |s.cancels| && s.cancels[i].w == w ==> s.cancels[j].w != w)
  }

  lemma CancelKeepsCancels(s: State, v: nat, w: nat)
    requires Inv(s) && CancelDefined(s, v) && CancelsOk(s, w)
    ensures CancelsOk(CancelAsync(s, v).s, w)
  {
    assert ItemLocal(s, v);
  }

  lemma CancelSyncKeepsCancels(s: State, v: nat, w: nat)
    requires Inv(s) && v < |s.items| && (!Idle(s.items[v].flags) ==> CancelDefined(s, v))
    requires CancelsOk(s, w) && CancelsOneByOne(s, CancelSync(v), w)
    ensures CancelsOk(CancelSyncLocked(s, v).s, w)
  {
    if !Idle(s.items[v].flags) {
      CancelKeepsCancels(s, v, w);
      assert CancelAsync(s, v).s.cancels == s.cancels;
    }
  }

  /** Steps that leave the cancellers and the CANCELING flags alone. */
  lemma OtherStepsKeepCancels(s: State, a: Action, w: nat)
    requires Inv(s) && WellFormed(s) && Enabled(s, a) && CancelsOk(s, w)
    requires !a.Cancel? && !a.CancelSync? && !a.WorkerFinish?
    ensures CancelsOk(Next(s, a).s, w)
  {
    var t := Next(s, a).s;
    assert t.cancels == s.cancels && |t.items| == |s.items|;
    assert w < |s.items| ==> t.items[w].flags.canceling == s.items[w].flags.canceling;
  }

  /** The end of a cancelled run takes the oldest canceller of the item out, and no other. */
  lemma FinishDrops(s: State, q: nat)
    requires WellFormed(s) && q < |s.queues| && s.queues[q].pc.Running?
    ensures var n, t := s.queues[q].pc.node, FinishLocked(s, q);
            && |t.items| == |s.items|
            && (forall w :: 0 <= w < |s.items| && n != ItemNode(w) ==> t.items[w] == s.items[w])
            && if n.ItemNode? && s.items[n.w].flags.canceling then Dropped(s.cancels, t.cancels, Oldest(s.cancels, n.w))
               else t.cancels == s.cancels && (n.ItemNode? ==> !t.items[n.w].flags.canceling)
  {
    var n := s.queues[q].pc.node;
    if n.ItemNode? && Oldest(s.cancels, n.w) < |s.cancels| {
      RemovedAt(s.cancels, Oldest(s.cancels, n.w));
    }
  }

  lemma FinishKeepsCancels(s: State, q: nat, w: nat)
    requires Inv(s) && WellFormed(s) && q < |s.queues| && s.queues[q].pc.Running? && CancelsOk(s, w)
    ensures CancelsOk(FinishLocked(s, q), w)
  {
    FinishDrops(s, q);
  }

  lemma StepKeepsCancels(s: State, a: Action, w: nat)
    requires Inv(s) && WellFormed(s) && Enabled(s, a) && CancelsOneByOne(s, a, w) && CancelsOk(s, w)
    ensures CancelsOk(Next(s, a).s, w)
  {
    match a
    case Cancel(v) => CancelKeepsCancels(s, v, w);
    case CancelSync(v) => CancelSyncKeepsCancels(s, v, w);
    case WorkerFinish(q) => FinishKeepsCancels(s, q, w);
    case _ => OtherStepsKeepCancels(s, a, w);
  }

  lemma {:induction false} RunKeepsCancels(ss: seq<State>, acts: seq<Action>, k: nat, w: nat)
    requires OneCanceller(ss, acts, w) && k <= |acts|
    ensures CancelsOk(ss[k], w)
  {
    if k > 0 {
      assert StepAt(ss, acts, k - 1);
      RunKeepsInv(ss, acts, k - 1);
      RunKeepsCancels(ss, acts, k - 1, w);
      StepKeepsCancels(ss[k - 1], acts[k - 1], w);
    }
  }

  /** A synchronous canceller waits for a run that is going on, and the end of that run releases it and only it. */
  lemma CancellerIsServed(ss: seq<State>, acts: seq<Action>, k: nat, i: nat)
    requires k <= |acts| && |ss| == |acts| + 1 && i < |ss[k].cancels| && OneCanceller(ss, acts, ss[k].cancels[i].w)
    ensures WellFormed(ss[k])
    ensures var s, c := ss[k], ss[k].cancels[i];
            && c.w < |s.items| && s.items[c.w].owner.Some?
            && var q := s.items[c.w].owner.value;
               && RunsOn(s, q, c.w) && Enabled(s, WorkerFinish(q))
               && Next(s, WorkerFinish(q)).s.cancels == s.cancels[..i] + s.cancels[i + 1..]
               && Next(s, WorkerFinish(q)).s.log ==
                  s.log + [Finished(q, c.w, s.items[c.w].instance), CancelReleased(c.id, c.w)]
  {
    var s, c := ss[k], ss[k].cancels[i];
    RunKeepsInv(ss, acts, k);
    RunKeepsCancels(ss, acts, k, c.w);
    assert ItemLocal(s, c.w) && ItemPlaced(s, c.w);
    var o := Oldest(s.cancels, c.w);
    assert o == i;
  }

  /**
   work_cancel_sync returns without waiting if and only if its item is then idle; it answers whether that was busy.
   */
  lemma CancelSyncReturnsIff(ss: seq<State>, acts: seq<Action>, k: nat)
    requires RunFromInit(ss, acts) && k < |acts| && acts[k].CancelSync?
    ensures WellFormed(ss[k]) && Enabled(ss[k], acts[k])
    ensures var s, t, w := ss[k], ss[k + 1], acts[k].w;
            && w < |t.items| && Next(s, acts[k]).reply == Flag(s.items[w].flags != NoWorkFlags)
            && (t.cancels == s.cancels <==> t.items[w].flags == NoWorkFlags)
            && (t.cancels != s.cancels ==>
                  && t.cancels == s.cancels + [Canceller(s.cancellers, w)]
                  && t.items[w].flags == NoWorkFlags.(running := true, canceling := true))
  {
    assert StepAt(ss, acts, k);
    RunKeepsInv(ss, acts, k);
    assert ItemLocal(ss[k], acts[k].w);
    var s, w := ss[k], acts[k].w;
    assert |s.cancels + [Canceller(s.cancellers, w)]| == |s.cancels| + 1;
  }

  // ---------------------------------------------------------------- several cancellers

  function Waiters(cancels: seq<Canceller>, w: nat): nat {
    if cancels == [] then 0 else (if cancels[0].w == w then 1 else 0) + Waiters(cancels[1..], w)
  }

  lemma {:induction false} WaitersSplit(a: seq<Canceller>, c: Canceller, b: seq<Canceller>, v: nat)
    ensures Waiters(a + [c] + b, v) == Waiters(a + b, v) + (if c.w == v then 1 else 0)
  {
    if a == [] {
      assert [] + [c] + b == [c] + b && [] + b == b;
    } else {
      WaitersSplit(a[1..], c, b, v);
      assert (a + [c] + b)[1..] == a[1..] + [c] + b;
      assert (a + b)[1..] == a[1..] + b;
    }
  }

  lemma {:induction false} NoWaiters(cancels: seq<Canceller>, w: nat)
    ensures Oldest(cancels, w) == |cancels| <==> Waiters(cancels, w) == 0
  {
    if cancels != [] {
      NoWaiters(cancels[1..], w);
    }
  }

  lemma WaitersWithoutOldest(cancels: seq<Canceller>, w: nat, v: nat)
    requires Oldest(cancels, w) < |cancels|
    ensures var i := Oldest(cancels, w);
            Waiters(cancels[..i] + cancels[i + 1..], v) == Waiters(cancels, v) - (if v == w then 1 else 0)
  {
    var i := Oldest(cancels, w);
    assert cancels == cancels[..i] + [cancels[i]] + cancels[i + 1..];
    WaitersSplit(cancels[..i], cancels[i], cancels[i + 1..], v);
  }

  /**
   The end of a cancelled run releases exactly one of the cancellers that wait for it, the oldest. Nobody is left behind
   if and only if at most one was waiting.
   */
  lemma CancellersLeftBehind(ss: seq<State>, acts: seq<Action>, k: nat, q: nat, w: nat)
    requires RunFromInit(ss, acts) && k < |acts| && acts[k] == WorkerFinish(q) && w < |ss[k].items|
    requires RunsOn(ss[k], q, w) && ss[k].items[w].flags.canceling
    ensures w < |ss[k + 1].items| && ss[k + 1].items[w].flags == NoWorkFlags
    ensures forall v: nat :: v != w ==> Waiters(ss[k + 1].cancels, v) == Waiters(ss[k].cancels, v)
    ensures Waiters(ss[k + 1].cancels, w) == 0 <==> Waiters(ss[k].cancels, w) <= 1
  {
    RunKeepsInv(ss, acts, k);
    assert StepAt(ss, acts, k);
    assert ItemLocal(ss[k], w);
    NoWaiters(ss[k].cancels, w);
    if Oldest(ss[k].cancels, w) < |ss[k].cancels| {
      forall v: nat
        ensures v != w ==> Waiters(ss[k + 1].cancels, v) == Waiters(ss[k].cancels, v)
      {
        WaitersWithoutOldest(ss[k].cancels, w, v);
      }
      WaitersWithoutOldest(ss[k].cancels, w, w);
    }
  }
}
