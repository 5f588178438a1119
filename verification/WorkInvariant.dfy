/** The inductive invariant of the protocol, and the proof that every step keeps it. */
module WorkInvariant {
  import opened Lists
  import opened Flags
  import opened WorkModel

  // ---------------------------------------------------------------- the invariant

  /** Every instance up to number n has left the queue and is not being run. */
  predicate Settled(x: Item, n: nat) {
    && (x.flags.queued ==> n < x.submitted)
    && (x.flags.running ==> n < x.instance)
  }

  /** The flags, owner and instance numbers of one item fit together. */
  predicate ItemLocal(s: State, w: nat)
    requires w < |s.items|
  {
    var x := s.items[w];
    && !x.flags.flushing
    && (x.flags.canceling ==> x.flags.running && !x.flags.queued)
    && (x.owner.Some? ==> x.owner.value < |s.queues|)
    && (x.flags.queued || x.flags.running ==> x.owner.Some?)
    && (x.flags.queued ==> x.submitted > 0)
    && (x.flags.running ==> 0 < x.instance <= x.submitted)
    && (x.flags.running && x.flags.queued ==> x.instance < x.submitted)
  }

  /** A queued item is linked in its owner's list; a running item is what its owner's worker runs. */
  ghost predicate ItemPlaced(s: State, w: nat)
    requires w < |s.items| && ItemLocal(s, w)
  {
    var x := s.items[w];
    && (x.flags.queued ==> ItemNode(w) in s.queues[x.owner.value].pending)
    && (x.flags.running ==> s.queues[x.owner.value].pc == Running(ItemNode(w)))
  }

  /** A node linked in the list of q belongs there. */
  predicate NodeOk(items: seq<Item>, flushers: seq<Flusher>, q: nat, n: Node) {
    match n
    case ItemNode(w) => w < |items| && items[w].flags.queued && items[w].owner == Some(q)
    case FlushNode(f) => f < |flushers| && flushers[f].home == q && !flushers[f].released
  }

  /** The flusher waits for the instance that is queued right now. */
  predicate Awaited(items: seq<Item>, flushers: seq<Flusher>, f: nat)
    requires f < |flushers|
  {
    var fl := flushers[f];
    fl.w < |items| && items[fl.w].flags.queued && items[fl.w].submitted == fl.target
  }

  /** The node before an awaited flusher is its item, or another flusher of the same instance. */
  predicate BehindItsItem(items: seq<Item>, flushers: seq<Flusher>, p: seq<Node>, i: nat)
    requires i < |p|
  {
    p[i].FlushNode? && p[i].f < |flushers| && Awaited(items, flushers, p[i].f) ==>
      && i > 0
      && (p[i - 1].ItemNode? ==> p[i - 1].w == flushers[p[i].f].w)
      && (p[i - 1].FlushNode? ==> SameInstance(flushers, p[i - 1].f, p[i].f))
  }

  predicate SameInstance(flushers: seq<Flusher>, f: nat, g: nat) {
    && f < |flushers| && g < |flushers|
    && flushers[f].w == flushers[g].w && flushers[f].target == flushers[g].target
  }

  predicate IsUrgent(flushers: seq<Flusher>, n: Node) {
    n.FlushNode? && n.f < |flushers| && flushers[n.f].urgent
  }

  /** p is a possible pending list of queue q. */
  ghost predicate ListOk(items: seq<Item>, flushers: seq<Flusher>, q: nat, p: seq<Node>) {
    && NoDup(p)
    && (forall i :: 0 <= i < |p| ==> NodeOk(items, flushers, q, p[i]))
    && (forall i :: 0 <= i < |p| ==> BehindItsItem(items, flushers, p, i))
    && (forall i :: 0 < i < |p| && IsUrgent(flushers, p[i]) ==> IsUrgent(flushers, p[i - 1]))
  }

  /** What the worker of q runs is marked as running here. */
  ghost predicate WorkerOk(s: State, q: nat)
    requires q < |s.queues|
  {
    var qq := s.queues[q];
    qq.pc.Running? ==>
      match qq.pc.node
      case ItemNode(w) => w < |s.items| && s.items[w].flags.running && s.items[w].owner == Some(q)
      case FlushNode(f) =>
        && f < |s.flushers| && s.flushers[f].home == q && !s.flushers[f].released
        && FlushNode(f) !in qq.pending
        && s.flushers[f].w < |s.items| && Settled(s.items[s.flushers[f].w], s.flushers[f].target)
  }

  /** The flag word, the channels and the program counter of one queue fit together. */
  predicate QueueLocal(qq: Queue) {
    && (qq.flags.busy <==> qq.pc.Running?)
    && (qq.flags.started <==> qq.pc.LoopHead? || qq.pc.Waiting? || qq.pc.Running?)
    && (!qq.flags.started ==> qq.flags == NoQueueFlags && qq.pending == [])
    && (qq.flags.plugged && !qq.flags.drain ==> qq.pending == [] && !qq.pc.Running?)
    && |qq.notifyq| <= 1 && |qq.drainq| <= 1
  }

  /** An unreleased flusher is linked or run at home, and until its instance settles the item stays at home too. */
  ghost predicate FlusherOk(s: State, f: nat)
    requires f < |s.flushers|
  {
    var fl := s.flushers[f];
    && fl.home < |s.queues| && fl.w < |s.items| && fl.target <= s.items[fl.w].submitted
    && (!fl.released ==> FlushNode(f) in s.queues[fl.home].pending || s.queues[fl.home].pc == Running(FlushNode(f)))
    && (!Settled(s.items[fl.w], fl.target) ==> !fl.released && s.items[fl.w].owner == Some(fl.home))
  }

  ghost predicate Inv(s: State) {
    && (forall w :: 0 <= w < |s.items| ==> ItemLocal(s, w) && ItemPlaced(s, w))
    && (forall q :: 0 <= q < |s.queues| ==> QueueLocal(s.queues[q]))
    && (forall q :: 0 <= q < |s.queues| ==> ListOk(s.items, s.flushers, q, s.queues[q].pending))
    && (forall q :: 0 <= q < |s.queues| ==> WorkerOk(s, q))
    && (forall f :: 0 <= f < |s.flushers| ==> FlusherOk(s, f))
  }

  lemma InvWellFormed(s: State)
    requires Inv(s)
    ensures WellFormed(s)
  {
    forall w | 0 <= w < |s.items|
      ensures s.items[w].owner.Some? ==> s.items[w].owner.value < |s.queues|
      ensures !Idle(s.items[w].flags) ==> s.items[w].owner.Some?
      ensures s.items[w].flags.queued ==> ItemNode(w) in s.queues[s.items[w].owner.value].pending
    {
      assert ItemLocal(s, w) && ItemPlaced(s, w);
    }
    forall q, i | 0 <= q < |s.queues| && 0 <= i < |s.queues[q].pending|
      ensures NodeInside(s, s.queues[q].pending[i])
    {
      assert ListOk(s.items, s.flushers, q, s.queues[q].pending);
      assert NodeOk(s.items, s.flushers, q, s.queues[q].pending[i]);
    }
    forall q | 0 <= q < |s.queues| && s.queues[q].pc.Running?
      ensures NodeInside(s, s.queues[q].pc.node)
    {
      assert WorkerOk(s, q);
    }
  }

  lemma InitInv(s: State)
    requires Init(s)
    ensures Inv(s)
  {
  }

  // ---------------------------------------------------------------- building blocks keep it

  lemma QueueControlKeeps(s: State, q: nat, qq: Queue)
    requires Inv(s) && q < |s.queues| && QueueLocal(qq)
    requires qq.pending == s.queues[q].pending
    requires qq.pc == s.queues[q].pc || (!qq.pc.Running? && !s.queues[q].pc.Running?)
    ensures Inv(SetQueue(s, q, qq))
  {
    var t := SetQueue(s, q, qq);
    forall k | 0 <= k < |t.queues|
      ensures ListOk(t.items, t.flushers, k, t.queues[k].pending) && WorkerOk(t, k)
    {
      assert ListOk(s.items, s.flushers, k, s.queues[k].pending) && WorkerOk(s, k);
    }
    forall f | 0 <= f < |t.flushers|
      ensures FlusherOk(t, f)
    {
      assert FlusherOk(s, f);
    }
    forall w | 0 <= w < |t.items|
      ensures ItemLocal(t, w) && ItemPlaced(t, w)
    {
      assert ItemLocal(s, w) && ItemPlaced(s, w);
    }
  }

  /** A list that a step leaves alone stays in order when no flusher becomes awaited. */
  lemma ListUntouched(s: State, items: seq<Item>, flushers: seq<Flusher>, q: nat, p: seq<Node>)
    requires ListOk(s.items, s.flushers, q, p)
    requires |s.flushers| <= |flushers| && forall f :: 0 <= f < |s.flushers| ==> SameFlusher(s.flushers[f], flushers[f])
    requires forall i :: 0 <= i < |p| ==> NodeOk(items, flushers, q, p[i])
    requires forall f :: 0 <= f < |s.flushers| && Awaited(items, flushers, f) ==> Awaited(s.items, s.flushers, f)
    ensures ListOk(items, flushers, q, p)
  {
    forall i | 0 <= i < |p|
      ensures BehindItsItem(items, flushers, p, i)
    {
      assert NodeOk(s.items, s.flushers, q, p[i]) && BehindItsItem(s.items, s.flushers, p, i);
    }
    forall i | 0 < i < |p| && IsUrgent(flushers, p[i])
      ensures IsUrgent(flushers, p[i - 1])
    {
      assert NodeOk(s.items, s.flushers, q, p[i]) && NodeOk(s.items, s.flushers, q, p[i - 1]);
      assert IsUrgent(s.flushers, p[i]);
    }
  }

  predicate SameFlusher(a: Flusher, b: Flusher) {
    a.w == b.w && a.target == b.target && a.urgent == b.urgent && a.home == b.home
  }

  ghost predicate CanEnqueue(s: State, q: nat, w: nat) {
    && q < |s.queues| && w < |s.items|
    && !s.items[w].flags.queued && !s.items[w].flags.canceling
    && (s.items[w].flags.running ==> s.items[w].owner == Some(q))
    && s.queues[q].flags.started && !(s.queues[q].flags.plugged && !s.queues[q].flags.drain)
  }

  lemma EnqueueLists(s: State, q: nat, w: nat, k: nat)
    requires Inv(s) && CanEnqueue(s, q, w) && k < |s.queues|
    ensures var t := Enqueue(s, q, w); ListOk(t.items, t.flushers, k, t.queues[k].pending)
  {
    var t := Enqueue(s, q, w);
    var p := s.queues[k].pending;
    assert ListOk(s.items, s.flushers, k, p);
    forall i | 0 <= i < |p|
      ensures NodeOk(t.items, t.flushers, k, p[i])
    {
      assert NodeOk(s.items, s.flushers, k, p[i]);
    }
    forall f | 0 <= f < |s.flushers| && Awaited(t.items, t.flushers, f)
      ensures Awaited(s.items, s.flushers, f)
    {
      assert FlusherOk(s, f);
    }
    ListUntouched(s, t.items, t.flushers, k, p);
    if k == q {
      var p' := t.queues[q].pending;
      forall i | 0 <= i < |p'|
        ensures NodeOk(t.items, t.flushers, q, p'[i]) && BehindItsItem(t.items, t.flushers, p', i)
      {
        if i < |p| {
          assert p'[i] == p[i] && BehindItsItem(t.items, t.flushers, p, i);
        }
      }
    }
  }

  lemma EnqueueKeeps(s: State, q: nat, w: nat)
    requires Inv(s) && CanEnqueue(s, q, w)
    ensures Inv(Enqueue(s, q, w))
  {
    var t := Enqueue(s, q, w);
    forall k | 0 <= k < |t.queues|
      ensures ListOk(t.items, t.flushers, k, t.queues[k].pending) && WorkerOk(t, k)
    {
      EnqueueLists(s, q, w, k);
      assert WorkerOk(s, k);
      var n := s.queues[k].pc;
      assert n.Running? && n.node.FlushNode? ==> FlusherOk(s, n.node.f);
    }
    forall f | 0 <= f < |t.flushers|
      ensures FlusherOk(t, f)
    {
      assert FlusherOk(s, f);
      assert FlushNode(f) in s.queues[s.flushers[f].home].pending ==>
               FlushNode(f) in t.queues[s.flushers[f].home].pending;
    }
    forall v | 0 <= v < |t.items|
      ensures ItemLocal(t, v) && ItemPlaced(t, v)
    {
      assert ItemLocal(s, v) && ItemPlaced(s, v);
    }
  }

  // A flusher is linked behind its queued item, or in front of everything.

  ghost predicate CanFlush(s: State, w: nat) {
    Inv(s) && w < |s.items| && (s.items[w].flags.queued || s.items[w].flags.running)
  }

  lemma FlushLists(s: State, w: nat, k: nat)
    requires CanFlush(s, w) && k < |s.queues| && FlushDefined(s, w)
    ensures var t := FlushLocked(s, w).s; ListOk(t.items, t.flushers, k, t.queues[k].pending)
  {
    var t := FlushLocked(s, w).s;
    var x := s.items[w];
    assert ItemLocal(s, w) && ItemPlaced(s, w);
    var p := s.queues[k].pending;
    assert ListOk(s.items, s.flushers, k, p);
    forall i | 0 <= i < |p|
      ensures NodeOk(t.items, t.flushers, k, p[i]) && p[i] != FlushNode(|s.flushers|)
    {
      assert NodeOk(s.items, s.flushers, k, p[i]);
    }
    ListUntouched(s, t.items, t.flushers, k, p);
    if k == x.owner.value {
      if x.flags.queued {
        InsertKeepsOrder(t.items, t.flushers, k, p, w, |s.flushers|);
      } else {
        PrependKeepsOrder(t.items, t.flushers, k, p, |s.flushers|);
      }
    }
  }

  lemma InsertKeepsOrder(items: seq<Item>, flushers: seq<Flusher>, q: nat, p: seq<Node>, w: nat, f: nat)
    requires ListOk(items, flushers, q, p) && ItemNode(w) in p && FlushNode(f) !in p
    requires NodeOk(items, flushers, q, FlushNode(f)) && w < |items|
    requires flushers[f].w == w && flushers[f].target == items[w].submitted && !flushers[f].urgent
    ensures ListOk(items, flushers, q, InsertAfter(p, ItemNode(w), FlushNode(f)))
  {
    var i := IndexOf(p, ItemNode(w));
    var p' := InsertAfter(p, ItemNode(w), FlushNode(f));
    InsertAfterMembers(p, ItemNode(w), FlushNode(f));
    forall j | 0 <= j < |p'|
      ensures NodeOk(items, flushers, q, p'[j]) && BehindItsItem(items, flushers, p', j)
      ensures j > 0 && IsUrgent(flushers, p'[j]) ==> IsUrgent(flushers, p'[j - 1])
    {
      if j <= i {
        assert p'[j] == p[j] && BehindItsItem(items, flushers, p, j);
      } else if j > i + 1 {
        assert p'[j] == p[j - 1] && NodeOk(items, flushers, q, p[j - 1]) && BehindItsItem(items, flushers, p, j - 1);
      }
    }
  }

  lemma PrependKeepsOrder(items: seq<Item>, flushers: seq<Flusher>, q: nat, p: seq<Node>, f: nat)
    requires ListOk(items, flushers, q, p) && FlushNode(f) !in p
    requires NodeOk(items, flushers, q, FlushNode(f)) && flushers[f].urgent && !Awaited(items, flushers, f)
    ensures ListOk(items, flushers, q, [FlushNode(f)] + p)
  {
    var p' := [FlushNode(f)] + p;
    forall j | 0 <= j < |p'|
      ensures NodeOk(items, flushers, q, p'[j]) && BehindItsItem(items, flushers, p', j)
      ensures j > 0 && IsUrgent(flushers, p'[j]) ==> IsUrgent(flushers, p'[j - 1])
    {
      if j > 0 {
        assert p'[j] == p[j - 1] && NodeOk(items, flushers, q, p[j - 1]) && BehindItsItem(items, flushers, p, j - 1);
      }
    }
  }

  lemma FlushMembers(s: State, w: nat)
    requires CanFlush(s, w) && FlushDefined(s, w)
    ensures var q := s.items[w].owner.value; var f := FlushNode(|s.flushers|);
            forall n :: n in FlushLocked(s, w).s.queues[q].pending <==> n in s.queues[q].pending || n == f
  {
    var q := s.items[w].owner.value;
    var p, f := s.queues[q].pending, FlushNode(|s.flushers|);
    assert ListOk(s.items, s.flushers, q, p);
    if s.items[w].flags.queued {
      assert f !in p by {
        assert forall i :: 0 <= i < |p| ==> NodeOk(s.items, s.flushers, q, p[i]);
      }
      InsertAfterMembers(p, ItemNode(w), f);
    }
  }

  lemma FlushQueues(s: State, w: nat, k: nat)
    requires CanFlush(s, w) && FlushDefined(s, w) && k < |s.queues|
    ensures var t := FlushLocked(s, w).s; WorkerOk(t, k) && QueueLocal(t.queues[k])
  {
    FlushMembers(s, w);
    assert ItemLocal(s, w) && ItemPlaced(s, w);
    assert WorkerOk(s, k) && QueueLocal(s.queues[k]);
  }

  lemma FlushKeeps(s: State, w: nat)
    requires CanFlush(s, w) && FlushDefined(s, w)
    ensures Inv(FlushLocked(s, w).s)
  {
    var t := FlushLocked(s, w).s;
    FlushMembers(s, w);
    forall k | 0 <= k < |t.queues|
      ensures ListOk(t.items, t.flushers, k, t.queues[k].pending) && WorkerOk(t, k) && QueueLocal(t.queues[k])
    {
      FlushLists(s, w, k);
      FlushQueues(s, w, k);
    }
    forall g | 0 <= g < |t.flushers|
      ensures FlusherOk(t, g)
    {
      if g < |s.flushers| {
        assert FlusherOk(s, g);
      } else {
        assert ItemLocal(s, w);
      }
    }
    forall v | 0 <= v < |t.items|
      ensures ItemLocal(t, v) && ItemPlaced(t, v)
    {
      assert ItemLocal(s, v) && ItemPlaced(s, v);
    }
  }

  // A queued item leaves its list, unlinked by a cancel.

  lemma UnqueueLists(s: State, w: nat, k: nat)
    requires Inv(s) && CancelDefined(s, w) && k < |s.queues|
    ensures var t := Unqueue(s, w); ListOk(t.items, t.flushers, k, t.queues[k].pending)
  {
    var t := Unqueue(s, w);
    var p := s.queues[k].pending;
    assert ListOk(s.items, s.flushers, k, p);
    if s.items[w].flags.queued {
      assert ItemLocal(s, w) && ItemPlaced(s, w);
      if k == s.items[w].owner.value {
        WithoutKeepsOrder(s, t.items, k, p, w);
      } else {
        forall i | 0 <= i < |p|
          ensures NodeOk(t.items, t.flushers, k, p[i])
        {
          assert NodeOk(s.items, s.flushers, k, p[i]);
        }
        ListUntouched(s, t.items, t.flushers, k, p);
      }
    }
  }

  /** Taking the item out of its list frees the flushers behind it from waiting for it. */
  lemma WithoutKeepsOrder(s: State, items: seq<Item>, q: nat, p: seq<Node>, w: nat)
    requires ListOk(s.items, s.flushers, q, p) && ItemNode(w) in p && w < |s.items|
    requires |items| == |s.items| && !items[w].flags.queued
    requires forall v :: 0 <= v < |items| && v != w ==> items[v] == s.items[v]
    ensures ListOk(items, s.flushers, q, Without(p, ItemNode(w)))
  {
    var i := IndexOf(p, ItemNode(w));
    var p' := Without(p, ItemNode(w));
    WithoutMembers(p, ItemNode(w));
    forall j | 0 <= j < |p'|
      ensures NodeOk(items, s.flushers, q, p'[j]) && BehindItsItem(items, s.flushers, p', j)
      ensures j > 0 && IsUrgent(s.flushers, p'[j]) ==> IsUrgent(s.flushers, p'[j - 1])
    {
      assert p'[j] in p';
      if j < i {
        assert p'[j] == p[j] && NodeOk(s.items, s.flushers, q, p[j]) && BehindItsItem(s.items, s.flushers, p, j);
      } else {
        assert p'[j] == p[j + 1] && NodeOk(s.items, s.flushers, q, p[j + 1]);
        assert BehindItsItem(s.items, s.flushers, p, j + 1);
        assert IsUrgent(s.flushers, p[j + 1]) ==> IsUrgent(s.flushers, p[j]);
      }
    }
  }

  lemma UnqueueKeeps(s: State, w: nat)
    requires Inv(s) && CancelDefined(s, w)
    ensures Inv(Unqueue(s, w)) && CancelDefined(Unqueue(s, w), w)
  {
    var t := Unqueue(s, w);
    if s.items[w].flags.queued {
      assert ItemLocal(s, w) && ItemPlaced(s, w);
      var q := s.items[w].owner.value;
      assert ListOk(s.items, s.flushers, q, s.queues[q].pending);
      WithoutMembers(s.queues[q].pending, ItemNode(w));
      forall k | 0 <= k < |t.queues|
        ensures ListOk(t.items, t.flushers, k, t.queues[k].pending) && WorkerOk(t, k) && QueueLocal(t.queues[k])
      {
        UnqueueLists(s, w, k);
        assert WorkerOk(s, k) && QueueLocal(s.queues[k]);
      }
      forall g | 0 <= g < |t.flushers|
        ensures FlusherOk(t, g)
      {
        assert FlusherOk(s, g);
      }
      forall v | 0 <= v < |t.items|
        ensures ItemLocal(t, v) && ItemPlaced(t, v)
      {
        assert ItemLocal(s, v) && ItemPlaced(s, v);
      }
    }
  }

  // An item's flags change while it keeps its place.

  lemma CancelingKeeps(s: State, w: nat, x: Item)
    requires Inv(s) && w < |s.items|
    requires x == s.items[w].(flags := x.flags) && x.flags == s.items[w].flags.(canceling := x.flags.canceling)
    requires x.flags.canceling ==> x.flags.running && !x.flags.queued
    ensures Inv(SetItem(s, w, x))
  {
    var t := SetItem(s, w, x);
    forall k | 0 <= k < |t.queues|
      ensures ListOk(t.items, t.flushers, k, t.queues[k].pending) && WorkerOk(t, k)
    {
      var p := s.queues[k].pending;
      assert ListOk(s.items, s.flushers, k, p) && WorkerOk(s, k);
      forall i | 0 <= i < |p|
        ensures NodeOk(t.items, t.flushers, k, p[i])
      {
        assert NodeOk(s.items, s.flushers, k, p[i]);
      }
      ListUntouched(s, t.items, t.flushers, k, p);
    }
    forall f | 0 <= f < |t.flushers|
      ensures FlusherOk(t, f)
    {
      assert FlusherOk(s, f);
    }
    forall v | 0 <= v < |t.items|
      ensures ItemLocal(t, v) && ItemPlaced(t, v)
    {
      assert ItemLocal(s, v) && ItemPlaced(s, v);
    }
  }

  /** The canceller list and the log play no part in the invariant. */
  lemma BookkeepingKeeps(s: State, t: State)
    requires Inv(s) && t.items == s.items && t.queues == s.queues && t.flushers == s.flushers
    ensures Inv(t)
  {
    forall q | 0 <= q < |t.queues|
      ensures WorkerOk(t, q)
    {
      assert WorkerOk(s, q);
    }
    forall f | 0 <= f < |t.flushers|
      ensures FlusherOk(t, f)
    {
      assert FlusherOk(s, f);
    }
    forall v | 0 <= v < |t.items|
      ensures ItemLocal(t, v) && ItemPlaced(t, v)
    {
      assert ItemLocal(s, v) && ItemPlaced(s, v);
    }
  }

  // The worker takes the head of its list.

  /** Popping the head leaves an ordered list: nobody behind it was waiting for anything but it. */
  lemma TailKeepsOrder(s: State, items: seq<Item>, q: nat, p: seq<Node>)
    requires ListOk(s.items, s.flushers, q, p) && p != []
    requires p[0].FlushNode? ==> items == s.items
    requires p[0].ItemNode? ==>
               && |items| == |s.items| && !items[p[0].w].flags.queued
               && forall v :: 0 <= v < |items| && v != p[0].w ==> items[v] == s.items[v]
    ensures ListOk(items, s.flushers, q, p[1..])
  {
    var p' := p[1..];
    forall j | 0 <= j < |p'|
      ensures NodeOk(items, s.flushers, q, p'[j]) && BehindItsItem(items, s.flushers, p', j)
      ensures j > 0 && IsUrgent(s.flushers, p'[j]) ==> IsUrgent(s.flushers, p'[j - 1])
    {
      assert p'[j] == p[j + 1] && NodeOk(s.items, s.flushers, q, p[j + 1]);
      assert BehindItsItem(s.items, s.flushers, p, j + 1) && BehindItsItem(s.items, s.flushers, p, 0);
      assert IsUrgent(s.flushers, p[j + 1]) ==> IsUrgent(s.flushers, p[j]);
    }
  }

  ghost predicate CanTake(s: State, q: nat) {
    Inv(s) && q < |s.queues| && s.queues[q].pc.LoopHead? && s.queues[q].pending != []
  }

  lemma TakeLists(s: State, q: nat, k: nat)
    requires CanTake(s, q) && WellFormed(s) && k < |s.queues|
    ensures var t := TurnLocked(s, q); ListOk(t.items, t.flushers, k, t.queues[k].pending)
  {
    var t := TurnLocked(s, q);
    var p := s.queues[k].pending;
    assert ListOk(s.items, s.flushers, k, p);
    assert ListOk(s.items, s.flushers, q, s.queues[q].pending);
    assert NodeOk(s.items, s.flushers, q, s.queues[q].pending[0]);
    if k == q {
      TailKeepsOrder(s, t.items, q, p);
    } else {
      forall i | 0 <= i < |p|
        ensures NodeOk(t.items, t.flushers, k, p[i])
      {
        assert NodeOk(s.items, s.flushers, k, p[i]);
      }
      ListUntouched(s, t.items, t.flushers, k, p);
    }
  }

  /** A flusher that reaches the head has nothing left to wait for. */
  lemma HeadFlusherSettled(s: State, q: nat)
    requires CanTake(s, q) && s.queues[q].pending[0].FlushNode?
    ensures var f := s.queues[q].pending[0].f;
            f < |s.flushers| && s.flushers[f].w < |s.items| && Settled(s.items[s.flushers[f].w], s.flushers[f].target)
  {
    var p := s.queues[q].pending;
    assert ListOk(s.items, s.flushers, q, p) && NodeOk(s.items, s.flushers, q, p[0]);
    assert BehindItsItem(s.items, s.flushers, p, 0);
    var fl := s.flushers[p[0].f];
    assert FlusherOk(s, p[0].f) && ItemLocal(s, fl.w) && ItemPlaced(s, fl.w);
  }

  lemma TakeQueues(s: State, q: nat, k: nat)
    requires CanTake(s, q) && WellFormed(s) && k < |s.queues|
    ensures var t := TurnLocked(s, q); WorkerOk(t, k) && QueueLocal(t.queues[k])
  {
    var p := s.queues[q].pending;
    assert ListOk(s.items, s.flushers, q, p) && NodeOk(s.items, s.flushers, q, p[0]);
    assert WorkerOk(s, k) && QueueLocal(s.queues[k]);
    if p[0].FlushNode? {
      HeadFlusherSettled(s, q);
    } else {
      var n := s.queues[k].pc;
      assert ItemLocal(s, p[0].w) && ItemPlaced(s, p[0].w);
      assert n.Running? && n.node.FlushNode? ==> FlusherOk(s, n.node.f);
    }
  }

  lemma TakeKeeps(s: State, q: nat)
    requires CanTake(s, q) && WellFormed(s)
    ensures Inv(TurnLocked(s, q))
  {
    var t := TurnLocked(s, q);
    var p := s.queues[q].pending;
    assert ListOk(s.items, s.flushers, q, p) && NodeOk(s.items, s.flushers, q, p[0]);
    forall k | 0 <= k < |t.queues|
      ensures ListOk(t.items, t.flushers, k, t.queues[k].pending) && WorkerOk(t, k) && QueueLocal(t.queues[k])
    {
      TakeLists(s, q, k);
      TakeQueues(s, q, k);
    }
    forall n | n in p && n != p[0]
      ensures n in p[1..]
    {
    }
    forall f | 0 <= f < |t.flushers|
      ensures FlusherOk(t, f)
    {
      assert FlusherOk(s, f);
      var v := s.flushers[f].w;
      assert ItemLocal(s, v) && ItemPlaced(s, v);
      if p[0] == FlushNode(f) {
        HeadFlusherSettled(s, q);
      }
    }
    forall v | 0 <= v < |t.items|
      ensures ItemLocal(t, v) && ItemPlaced(t, v)
    {
      assert ItemLocal(s, v) && ItemPlaced(s, v);
    }
  }

  // The handler has returned.

  ghost predicate CanFinish(s: State, q: nat) {
    Inv(s) && WellFormed(s) && q < |s.queues| && s.queues[q].pc.Running?
  }

  /** The state after RUNNING is cleared, before a cancellation is finalized. */
  function ItemDone(s: State, q: nat, w: nat): State
    requires q < |s.queues| && w < |s.items|
  {
    var x := s.items[w];
    SetItem(SetQueue(s, q, s.queues[q].(flags := s.queues[q].flags.(busy := false), pc := LoopHead)),
            w, x.(flags := x.flags.(running := false, canceling := false)))
  }

  lemma ItemDoneKeeps(s: State, q: nat)
    requires CanFinish(s, q) && s.queues[q].pc.node.ItemNode?
    ensures Inv(ItemDone(s, q, s.queues[q].pc.node.w))
  {
    var w := s.queues[q].pc.node.w;
    var t := ItemDone(s, q, w);
    assert WorkerOk(s, q);
    assert ItemLocal(s, w) && ItemPlaced(s, w);
    forall k | 0 <= k < |t.queues|
      ensures ListOk(t.items, t.flushers, k, t.queues[k].pending) && WorkerOk(t, k) && QueueLocal(t.queues[k])
    {
      var p := s.queues[k].pending;
      assert ListOk(s.items, s.flushers, k, p) && WorkerOk(s, k) && QueueLocal(s.queues[k]);
      forall i | 0 <= i < |p|
        ensures NodeOk(t.items, t.flushers, k, p[i])
      {
        assert NodeOk(s.items, s.flushers, k, p[i]);
      }
      ListUntouched(s, t.items, t.flushers, k, p);
    }
    forall f | 0 <= f < |t.flushers|
      ensures FlusherOk(t, f)
    {
      assert FlusherOk(s, f);
    }
    forall v | 0 <= v < |t.items|
      ensures ItemLocal(t, v) && ItemPlaced(t, v)
    {
      assert ItemLocal(s, v) && ItemPlaced(s, v);
    }
  }

  lemma FlusherDoneKeeps(s: State, q: nat)
    requires CanFinish(s, q) && s.queues[q].pc.node.FlushNode?
    ensures Inv(FinishLocked(s, q))
  {
    var f := s.queues[q].pc.node.f;
    var t := FinishLocked(s, q);
    assert WorkerOk(s, q);
    forall k | 0 <= k < |t.queues|
      ensures ListOk(t.items, t.flushers, k, t.queues[k].pending) && WorkerOk(t, k) && QueueLocal(t.queues[k])
    {
      var p := s.queues[k].pending;
      assert ListOk(s.items, s.flushers, k, p) && WorkerOk(s, k) && QueueLocal(s.queues[k]);
      forall i | 0 <= i < |p|
        ensures NodeOk(t.items, t.flushers, k, p[i])
      {
        assert NodeOk(s.items, s.flushers, k, p[i]);
      }
      ListUntouched(s, t.items, t.flushers, k, p);
    }
    forall g | 0 <= g < |t.flushers|
      ensures FlusherOk(t, g)
    {
      assert FlusherOk(s, g);
    }
    forall v | 0 <= v < |t.items|
      ensures ItemLocal(t, v) && ItemPlaced(t, v)
    {
      assert ItemLocal(s, v) && ItemPlaced(s, v);
    }
  }

  // ---------------------------------------------------------------- every step keeps it

  lemma SubmitKeeps(s: State, w: nat, q: nat, caller: Caller)
    requires Inv(s) && w < |s.items| && q < |s.queues|
    requires s.items[w].flags.running ==> s.items[w].owner.Some? && s.items[w].owner.value < |s.queues|
    ensures Inv(SubmitLocked(s, w, q, caller).s)
  {
    var x := s.items[w];
    assert ItemLocal(s, w);
    var home := if x.flags.running then x.owner.value else q;
    if !x.flags.canceling && !x.flags.queued && Admission(s, home, caller) == 1 {
      EnqueueKeeps(s, home, w);
    }
  }

  lemma CancelKeeps(s: State, w: nat)
    requires Inv(s) && CancelDefined(s, w)
    ensures Inv(CancelAsync(s, w).s)
  {
    assert ItemLocal(s, w);
    UnqueueKeeps(s, w);
    var s1 := if s.items[w].flags.canceling then s else Unqueue(s, w);
    assert ItemLocal(s1, w);
    var x := s1.items[w];
    if !Idle(x.flags) {
      CancelingKeeps(s1, w, x.(flags := x.flags.(canceling := true)));
    }
  }

  lemma TurnKeeps(s: State, q: nat)
    requires Inv(s) && WellFormed(s) && q < |s.queues| && s.queues[q].pc.LoopHead?
    ensures Inv(TurnLocked(s, q))
  {
    var qq := s.queues[q];
    assert QueueLocal(qq);
    if qq.pending != [] {
      TakeKeeps(s, q);
    } else if qq.flags.drain {
      var qq' := qq.(flags := qq.flags.(drain := false), drainq := Ring.Put(1, true, qq.drainq, 1), pc := Waiting);
      QueueControlKeeps(s, q, qq');
      BookkeepingKeeps(SetQueue(s, q, qq'), TurnLocked(s, q));
    } else if qq.flags.stop {
      QueueControlKeeps(s, q, qq.(flags := NoQueueFlags, pc := Exited));
    } else {
      QueueControlKeeps(s, q, qq.(pc := Waiting));
    }
  }

  lemma FinishKeeps(s: State, q: nat)
    requires CanFinish(s, q)
    ensures Inv(FinishLocked(s, q))
  {
    assert WorkerOk(s, q);
    match s.queues[q].pc.node
    case FlushNode(f) => FlusherDoneKeeps(s, q);
    case ItemNode(w) =>
      ItemDoneKeeps(s, q);
      assert ItemLocal(s, w);
      var t := FinishLocked(s, q);
      assert t.items == ItemDone(s, q, w).items;
      BookkeepingKeeps(ItemDone(s, q, w), t);
  }

  lemma ControlKeeps(s: State, a: Action)
    requires Inv(s) && WellFormed(s) && Enabled(s, a)
    requires a.Drain? || a.DrainReturn? || a.Unplug? || a.Stop? || a.Start? || a.WorkerWake?
    ensures Inv(Next(s, a).s)
  {
    var q := a.q;
    assert QueueLocal(s.queues[q]);
    var t := Next(s, a).s;
    if t != s {
      assert t == SetQueue(s, q, t.queues[q]);
      QueueControlKeeps(s, q, t.queues[q]);
    }
  }

  lemma StepKeepsInv(s: State, a: Action)
    requires Inv(s) && WellFormed(s) && Enabled(s, a)
    ensures Inv(Next(s, a).s)
  {
    match a
    case Submit(w, q, caller) => SubmitKeeps(s, w, q, caller);
    case Resubmit(w, caller) =>
      if s.items[w].owner.Some? { SubmitKeeps(s, w, s.items[w].owner.value, caller); }
    case Flush(w) =>
      if s.items[w].flags.queued || s.items[w].flags.running { FlushKeeps(s, w); }
    case Cancel(w) => CancelKeeps(s, w);
    case CancelSync(w) =>
      if !Idle(s.items[w].flags) {
        CancelKeeps(s, w);
        BookkeepingKeeps(CancelAsync(s, w).s, CancelSyncLocked(s, w).s);
      }
    case WorkerTurn(q) => TurnKeeps(s, q);
    case WorkerFinish(q) => FinishKeeps(s, q);
    case _ => ControlKeeps(s, a);
  }

  /** The invariant holds in every state of every run, whatever the clients do. */
  lemma {:induction false} RunKeepsInv(ss: seq<State>, acts: seq<Action>, i: nat)
    requires Run(ss, acts) && Init(ss[0]) && i <= |acts|
    ensures Inv(ss[i]) && WellFormed(ss[i])
  {
    if i == 0 {
      InitInv(ss[0]);
    } else {
      RunKeepsInv(ss, acts, i - 1);
      assert StepAt(ss, acts, i - 1);
      StepKeepsInv(ss[i - 1], acts[i - 1]);
    }
    InvWellFormed(ss[i]);
  }
}
