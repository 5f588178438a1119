/** What the log of a run says: every instance ends, the counts balance, the starts are in order. */
module WorkHistory {
  import opened Lists
  import opened Flags
  import opened WorkModel
  import opened WorkInvariant
  import opened WorkSteps

  // ---------------------------------------------------------------- one step, seen from one item

  predicate Concerns(e: Event, w: nat) {
    (e.Accepted? || e.Started? || e.Finished? || e.Removed?) && e.w == w
  }

  /** How item w goes from x to y when the step logs e about it. */
  predicate Moves(x: Item, y: Item, e: Event) {
    match e
    case Accepted(q, w, n) =>
      && !x.flags.queued && y.flags.queued && y.flags.running == x.flags.running
      && n == y.submitted == x.submitted + 1 && y.instance == x.instance && y.owner == Some(q)
    case Started(q, w, n) =>
      && x.flags.queued && !x.flags.running && !y.flags.queued && y.flags.running
      && n == y.instance == y.submitted == x.submitted && y.owner == x.owner == Some(q)
    case Finished(q, w, n) =>
      && x.flags.running && !y.flags.running && y.flags.queued == x.flags.queued
      && n == x.instance == y.instance && y.submitted == x.submitted && y.owner == x.owner == Some(q)
    case Removed(q, w, n) =>
      && x.flags.queued && !y.flags.queued && y.flags.running == x.flags.running
      && n == x.submitted == y.submitted && y.instance == x.instance && y.owner == x.owner == Some(q)
    case _ => false
  }

  predicate Rests(x: Item, y: Item) {
    && x.flags.queued == y.flags.queued && x.flags.running == y.flags.running
    && x.submitted == y.submitted && x.instance == y.instance && x.owner == y.owner
  }

  /** The step from s to t logs es; only the item that es[0] is about moves. */
  ghost predicate Follows(s: State, t: State, es: seq<Event>) {
    && t.log == s.log + es && |t.items| == |s.items|
    && |es| <= 2 && (|es| == 2 ==> es[0].Finished? && es[1].CancelReleased?)
    && (|es| > 0 && !es[0].FlushReleased? && !es[0].DrainDone? ==> es[0].w < |s.items| && Concerns(es[0], es[0].w))
    && forall w :: 0 <= w < |s.items| ==>
         if |es| > 0 && Concerns(es[0], w) then Moves(s.items[w], t.items[w], es[0])
         else Rests(s.items[w], t.items[w])
  }

  lemma SubmitFollows(s: State, w: nat, q: nat, caller: Caller) returns (es: seq<Event>)
    requires Inv(s) && w < |s.items| && q < |s.queues|
    requires s.items[w].flags.running ==> s.items[w].owner.Some? && s.items[w].owner.value < |s.queues|
    ensures Follows(s, SubmitLocked(s, w, q, caller).s, es)
  {
    assert ItemLocal(s, w);
    var x := s.items[w];
    var home := if x.flags.running then x.owner.value else q;
    if !x.flags.canceling && !x.flags.queued && Admission(s, home, caller) == 1 {
      es := [Accepted(home, w, x.submitted + 1)];
    } else {
      es := [];
    }
  }

  lemma CancelFollows(s: State, w: nat) returns (es: seq<Event>)
    requires Inv(s) && CancelDefined(s, w)
    ensures Follows(s, CancelAsync(s, w).s, es)
  {
    assert ItemLocal(s, w);
    var x := s.items[w];
    es := if x.flags.queued then [Removed(x.owner.value, w, x.submitted)] else [];
  }

  lemma TurnFollows(s: State, q: nat) returns (es: seq<Event>)
    requires Inv(s) && WellFormed(s) && q < |s.queues| && s.queues[q].pc.LoopHead?
    ensures Follows(s, TurnLocked(s, q), es)
  {
    var qq := s.queues[q];
    if qq.pending != [] {
      assert ListOk(s.items, s.flushers, q, qq.pending) && NodeOk(s.items, s.flushers, q, qq.pending[0]);
      match qq.pending[0]
      case ItemNode(w) =>
        assert ItemLocal(s, w) && ItemPlaced(s, w);
        es := [Started(q, w, s.items[w].submitted)];
      case FlushNode(f) => es := [];
    } else {
      es := if qq.flags.drain then [DrainDone(q)] else [];
    }
  }

  lemma FinishFollows(s: State, q: nat) returns (es: seq<Event>)
    requires Inv(s) && WellFormed(s) && q < |s.queues| && s.queues[q].pc.Running?
    ensures Follows(s, FinishLocked(s, q), es)
  {
    assert WorkerOk(s, q);
    match s.queues[q].pc.node
    case ItemNode(w) =>
      es := [Finished(q, w, s.items[w].instance)];
      var i := Oldest(s.cancels, w);
      if s.items[w].flags.canceling && i < |s.cancels| {
        es := es + [CancelReleased(s.cancels[i].id, w)];
      }
    case FlushNode(f) => es := [FlushReleased(f)];
  }

  /** Steps that neither log anything nor move an item. */
  lemma OthersFollow(s: State, a: Action)
    requires WellFormed(s) && Enabled(s, a)
    requires a.Flush? || (!IsItemCall(a) && !a.WorkerTurn? && !a.WorkerFinish?)
    ensures Follows(s, Next(s, a).s, [])
  {
    assert Next(s, a).s.items == s.items && Next(s, a).s.log == s.log;
  }

  lemma StepFollows(s: State, a: Action) returns (es: seq<Event>)
    requires Inv(s) && WellFormed(s) && Enabled(s, a)
    ensures Follows(s, Next(s, a).s, es)
  {
    match a
    case Submit(w, q, caller) => es := SubmitFollows(s, w, q, caller);
    case Resubmit(w, caller) =>
      if s.items[w].owner.Some? { es := SubmitFollows(s, w, s.items[w].owner.value, caller); } else { es := []; }
    case Cancel(w) => es := CancelFollows(s, w);
    case CancelSync(w) => if Idle(s.items[w].flags) { es := []; } else { es := CancelFollows(s, w); }
    case WorkerTurn(q) => es := TurnFollows(s, q);
    case WorkerFinish(q) => es := FinishFollows(s, q);
    case _ =>
      OthersFollow(s, a);
      es := [];
  }

  // ---------------------------------------------------------------- every instance ends

  predicate Ends(e: Event, w: nat, n: nat) {
    (e.Finished? || e.Removed?) && e.w == w && e.n == n
  }

  /** One of the first k events says that instance n of w completed or was cancelled. */
  ghost predicate EndedBy(log: seq<Event>, k: nat, w: nat, n: nat)
    requires k <= |log|
  {
    exists j :: 0 <= j < k && Ends(log[j], w, n)
  }

  predicate Live(x: Item, n: nat) {
    (x.flags.queued && n == x.submitted) || (x.flags.running && n == x.instance)
  }

  ghost predicate InstancesOk(s: State) {
    forall w, n :: 0 <= w < |s.items| && 1 <= n <= s.items[w].submitted && !Live(s.items[w], n) ==>
      EndedBy(s.log, |s.log|, w, n)
  }

  /** When a flusher is released, all instances accepted before its flush have already ended. */
  ghost predicate ReleasesOk(s: State) {
    && (forall k :: 0 <= k < |s.log| && s.log[k].FlushReleased? ==> ReleaseOk(s, k))
    && (forall j, k :: 0 <= j < k < |s.log| && s.log[j].FlushReleased? ==> s.log[j] != s.log[k])
  }

  ghost predicate ReleaseOk(s: State, k: nat)
    requires k < |s.log| && s.log[k].FlushReleased?
  {
    && s.log[k].f < |s.flushers| && s.flushers[s.log[k].f].released
    && var fl := s.flushers[s.log[k].f];
       forall n :: 1 <= n <= fl.target ==> EndedBy(s.log, k, fl.w, n)
  }

  lemma EndedByGrows(log: seq<Event>, log': seq<Event>, k: nat, k': nat, w: nat, n: nat)
    requires k <= |log| <= |log'| && log'[..|log|] == log && k <= k' <= |log'|
    requires EndedBy(log, k, w, n)
    ensures EndedBy(log', k', w, n)
  {
    var j :| 0 <= j < k && Ends(log[j], w, n);
    assert log'[j] == log'[..|log|][j];
  }

  lemma StepKeepsInstances(s: State, a: Action)
    requires Inv(s) && WellFormed(s) && Enabled(s, a) && InstancesOk(s)
    ensures InstancesOk(Next(s, a).s)
  {
    var t := Next(s, a).s;
    var es := StepFollows(s, a);
    forall w, n | 0 <= w < |t.items| && 1 <= n <= t.items[w].submitted && !Live(t.items[w], n)
      ensures EndedBy(t.log, |t.log|, w, n)
    {
      assert ItemLocal(s, w);
      if n <= s.items[w].submitted && !Live(s.items[w], n) {
        EndedByGrows(s.log, t.log, |s.log|, |t.log|, w, n);
      } else {
        assert t.log[|s.log|] == es[0];
        assert Ends(t.log[|s.log|], w, n);
      }
    }
  }

  /** What a flusher waits for is fixed when it is created. */
  lemma FlusherFixed(s: State, a: Action, f: nat)
    requires WellFormed(s) && Enabled(s, a) && f < |s.flushers|
    ensures var t := Next(s, a).s;
            && f < |t.flushers| && SameFlusher(s.flushers[f], t.flushers[f])
            && (s.flushers[f].released ==> t.flushers[f].released)
  {
  }

  lemma StepKeepsReleases(s: State, a: Action)
    requires Inv(s) && WellFormed(s) && Enabled(s, a) && InstancesOk(s) && ReleasesOk(s)
    ensures ReleasesOk(Next(s, a).s)
  {
    var t := Next(s, a).s;
    var es := StepFollows(s, a);
    forall k | 0 <= k < |t.log| && t.log[k].FlushReleased?
      ensures ReleaseOk(t, k) && forall j :: 0 <= j < k ==> t.log[j] != t.log[k]
    {
      if k < |s.log| {
        OldRelease(s, a, k);
      } else {
        NewRelease(s, a, k);
      }
    }
  }

  lemma OldRelease(s: State, a: Action, k: nat)
    requires Inv(s) && WellFormed(s) && Enabled(s, a) && ReleasesOk(s)
    requires k < |s.log| <= |Next(s, a).s.log| && Next(s, a).s.log[..|s.log|] == s.log && s.log[k].FlushReleased?
    ensures var t := Next(s, a).s;
            t.log[k].FlushReleased? && ReleaseOk(t, k) && forall j :: 0 <= j < k ==> t.log[j] != t.log[k]
  {
    var t := Next(s, a).s;
    assert forall j :: 0 <= j < |s.log| ==> t.log[j] == t.log[..|s.log|][j];
    assert ReleaseOk(s, k);
    FlusherFixed(s, a, s.log[k].f);
    var fl := s.flushers[s.log[k].f];
    forall n | 1 <= n <= fl.target
      ensures EndedBy(t.log, k, fl.w, n)
    {
      EndedByGrows(s.log, t.log, k, k, fl.w, n);
    }
  }

  lemma NotReleasedBefore(s: State, f: nat, j: nat)
    requires ReleasesOk(s) && f < |s.flushers| && !s.flushers[f].released && j < |s.log|
    ensures s.log[j] != FlushReleased(f)
  {
    assert s.log[j].FlushReleased? ==> ReleaseOk(s, j);
  }

  lemma OtherStepsReleaseNone(s: State, a: Action, k: nat)
    requires Inv(s) && WellFormed(s) && Enabled(s, a) && !a.WorkerFinish?
    requires |s.log| <= k < |Next(s, a).s.log|
    ensures !Next(s, a).s.log[k].FlushReleased?
  {
    var es := StepFollows(s, a);
    assert Next(s, a).s.log[k] == es[k - |s.log|];
  }

  /** Only the end of a flusher's own run releases it. */
  lemma ReleasedBy(s: State, a: Action, k: nat) returns (f: nat)
    requires Inv(s) && WellFormed(s) && Enabled(s, a)
    requires |s.log| <= k < |Next(s, a).s.log| && Next(s, a).s.log[k].FlushReleased?
    ensures a.WorkerFinish? && s.queues[a.q].pc == Running(FlushNode(f)) && f < |s.flushers|
    ensures k == |s.log| && Next(s, a).s.log == s.log + [FlushReleased(f)]
    ensures var fls := Next(s, a).s.flushers; f < |fls| && fls[f] == s.flushers[f].(released := true)
  {
    if !a.WorkerFinish? {
      OtherStepsReleaseNone(s, a, k);
    }
    assert s.queues[a.q].pc.node.FlushNode?;
    f := s.queues[a.q].pc.node.f;
    assert WorkerOk(s, a.q);
  }

  lemma NewRelease(s: State, a: Action, k: nat)
    requires Inv(s) && WellFormed(s) && Enabled(s, a) && InstancesOk(s) && ReleasesOk(s)
    requires |s.log| <= k < |Next(s, a).s.log| && Next(s, a).s.log[k].FlushReleased?
    ensures var t := Next(s, a).s; ReleaseOk(t, k) && forall j :: 0 <= j < k ==> t.log[j] != t.log[k]
  {
    var t := Next(s, a).s;
    var f := ReleasedBy(s, a, k);
    var fl := s.flushers[f];
    assert WorkerOk(s, a.q) && FlusherOk(s, f) && ItemLocal(s, fl.w);
    forall j | 0 <= j < k
      ensures t.log[j] != t.log[k]
    {
      NotReleasedBefore(s, f, j);
    }
    forall n | 1 <= n <= fl.target
      ensures EndedBy(t.log, k, fl.w, n)
    {
      assert !Live(s.items[fl.w], n);
      EndedByGrows(s.log, t.log, |s.log|, k, fl.w, n);
    }
  }

  // ---------------------------------------------------------------- the counts balance

  datatype Kind = Accepts | Starts | Finishes | Removals

  predicate IsKind(e: Event, kind: Kind, w: nat) {
    match kind
    case Accepts => e.Accepted? && e.w == w
    case Starts => e.Started? && e.w == w
    case Finishes => e.Finished? && e.w == w
    case Removals => e.Removed? && e.w == w
  }

  /** How many events of one kind the log holds about item w. */
  function Count(log: seq<Event>, kind: Kind, w: nat): nat {
    if log == [] then 0
    else Count(log[..|log| - 1], kind, w) + (if IsKind(log[|log| - 1], kind, w) then 1 else 0)
  }

  lemma CountAppend(log: seq<Event>, e: Event, kind: Kind, w: nat)
    ensures Count(log + [e], kind, w) == Count(log, kind, w) + (if IsKind(e, kind, w) then 1 else 0)
  {
    assert (log + [e])[..|log|] == log;
  }

  ghost predicate CountsOk(s: State) {
    forall w :: 0 <= w < |s.items| ==> Balanced(s, w)
  }

  predicate Balanced(s: State, w: nat)
    requires w < |s.items|
  {
    Balances(s.items[w], Count(s.log, Accepts, w), Count(s.log, Starts, w), Count(s.log, Finishes, w),
             Count(s.log, Removals, w))
  }

  /** The events of one step add to a count what their first event says. */
  lemma CountStep(log: seq<Event>, es: seq<Event>, kind: Kind, w: nat)
    requires |es| <= 2 && (|es| == 2 ==> es[1].CancelReleased?)
    ensures Count(log + es, kind, w) == Count(log, kind, w) + (if |es| > 0 && IsKind(es[0], kind, w) then 1 else 0)
  {
    if |es| == 0 {
      assert log + es == log;
    } else if |es| == 1 {
      assert log + es == log + [es[0]];
      CountAppend(log, es[0], kind, w);
    } else {
      assert log + es == (log + [es[0]]) + [es[1]];
      CountAppend(log, es[0], kind, w);
      CountAppend(log + [es[0]], es[1], kind, w);
    }
  }

  /** Four counts that balance, for an item with these flags. */
  predicate Balances(x: Item, accepts: nat, starts: nat, finishes: nat, removals: nat) {
    && accepts == x.submitted == starts + removals + (if x.flags.queued then 1 else 0)
    && starts == finishes + (if x.flags.running then 1 else 0)
  }

  /** An event adds to one count what it adds to the flags. */
  lemma MoveBalances(x: Item, y: Item, e: Event, w: nat, c: (nat, nat, nat, nat))
    requires Concerns(e, w) && Moves(x, y, e) && Balances(x, c.0, c.1, c.2, c.3)
    ensures Balances(y, c.0 + (if e.Accepted? then 1 else 0), c.1 + (if e.Started? then 1 else 0),
                     c.2 + (if e.Finished? then 1 else 0), c.3 + (if e.Removed? then 1 else 0))
  {
  }

  lemma BalanceMoves(s: State, t: State, es: seq<Event>, w: nat)
    requires Follows(s, t, es) && w < |s.items| && Balanced(s, w)
    ensures Balanced(t, w)
  {
    CountStep(s.log, es, Accepts, w);
    CountStep(s.log, es, Starts, w);
    CountStep(s.log, es, Finishes, w);
    CountStep(s.log, es, Removals, w);
    if |es| > 0 && Concerns(es[0], w) {
      MoveBalances(s.items[w], t.items[w], es[0], w,
                   (Count(s.log, Accepts, w), Count(s.log, Starts, w), Count(s.log, Finishes, w),
                    Count(s.log, Removals, w)));
    } else {
      assert Rests(s.items[w], t.items[w]);
    }
  }

  lemma StepKeepsCounts(s: State, a: Action)
    requires Inv(s) && WellFormed(s) && Enabled(s, a) && CountsOk(s)
    ensures CountsOk(Next(s, a).s)
  {
    var t := Next(s, a).s;
    var es := StepFollows(s, a);
    forall w | 0 <= w < |t.items|
      ensures Balanced(t, w)
    {
      BalanceMoves(s, t, es, w);
    }
  }

  // ---------------------------------------------------------------- the starts are in order

  /** An accepted submission: the item and the number of the instance. */
  type Label = (nat, nat)

  /**
   The specification of a queue: a FIFO with deletion. An accepted submission joins at the back, a removal takes out one
   entry wherever it is, a start may only take the front. None means that the log is not the log of such a FIFO.
   */
  function Fifo(log: seq<Event>, q: nat): Option<seq<Label>> {
    if log == [] then Some([])
    else
      var rest := Fifo(log[..|log| - 1], q);
      if rest.None? then None else FifoStep(rest.value, log[|log| - 1], q)
  }

  function FifoStep(line: seq<Label>, e: Event, q: nat): Option<seq<Label>> {
    match e
    case Accepted(k, w, n) => Some(if k == q then line + [(w, n)] else line)
    case Removed(k, w, n) =>
      if k != q then Some(line) else if (w, n) in line then Some(Without(line, (w, n))) else None
    case Started(k, w, n) =>
      if k != q then Some(line) else if line != [] && line[0] == (w, n) then Some(line[1..]) else None
    case _ => Some(line)
  }

  /** The pending list with the flushers erased, each item labelled with its last accepted submission. */
  function Labels(items: seq<Item>, p: seq<Node>): seq<Label> {
    if p == [] then []
    else (if p[0].ItemNode? && p[0].w < |items| then [(p[0].w, items[p[0].w].submitted)] else [])
         + Labels(items, p[1..])
  }

  ghost predicate OrderOk(s: State) {
    forall q :: 0 <= q < |s.queues| ==> LineOk(s, q)
  }

  predicate LineOk(s: State, q: nat)
    requires q < |s.queues|
  {
    Fifo(s.log, q) == Some(Labels(s.items, s.queues[q].pending))
  }

  lemma LabelsConcat(items: seq<Item>, a: seq<Node>, b: seq<Node>)
    ensures Labels(items, a + b) == Labels(items, a) + Labels(items, b)
  {
    if a == [] {
      assert a + b == b;
    } else {
      assert (a + b)[1..] == a[1..] + b;
    }
  }

  lemma LabelsOne(items: seq<Item>, n: Node)
    ensures Labels(items, [n]) ==
            if n.ItemNode? && n.w < |items| then [(n.w, items[n.w].submitted)] else []
  {
    assert [n][1..] == [];
  }

  lemma LabelsFrame(items: seq<Item>, items': seq<Item>, p: seq<Node>)
    requires |items'| == |items|
    requires forall w :: 0 <= w < |items| && ItemNode(w) in p ==> items'[w].submitted == items[w].submitted
    ensures Labels(items', p) == Labels(items, p)
  {
  }

  lemma LabelComesFromNode(items: seq<Item>, p: seq<Node>, w: nat, n: nat)
    requires (w, n) in Labels(items, p)
    ensures ItemNode(w) in p
  {
    if (w, n) in Labels(items, p[1..]) {
      LabelComesFromNode(items, p[1..], w, n);
    } else {
      assert p[0] == ItemNode(w);
    }
  }

  lemma LabelsInsert(items: seq<Item>, p: seq<Node>, w: nat, f: nat)
    requires ItemNode(w) in p
    ensures Labels(items, InsertAfter(p, ItemNode(w), FlushNode(f))) == Labels(items, p)
  {
    var i := IndexOf(p, ItemNode(w));
    assert p == p[..i + 1] + p[i + 1..];
    LabelsConcat(items, p[..i + 1], p[i + 1..]);
    LabelsConcat(items, p[..i + 1] + [FlushNode(f)], p[i + 1..]);
    LabelsConcat(items, p[..i + 1], [FlushNode(f)]);
  }

  lemma LabelsAround(items: seq<Item>, a: seq<Node>, w: nat, b: seq<Node>)
    requires w < |items|
    ensures Labels(items, (a + [ItemNode(w)]) + b) == Labels(items, a) + [(w, items[w].submitted)] + Labels(items, b)
    ensures Labels(items, a + b) == Labels(items, a) + Labels(items, b)
  {
    LabelsConcat(items, a + [ItemNode(w)], b);
    LabelsConcat(items, a, [ItemNode(w)]);
    LabelsOne(items, ItemNode(w));
    LabelsConcat(items, a, b);
  }

  lemma LabelsWithout(items: seq<Item>, p: seq<Node>, w: nat)
    requires ItemNode(w) in p && w < |items|
    ensures var l := (w, items[w].submitted);
            l in Labels(items, p) && Labels(items, Without(p, ItemNode(w))) == Without(Labels(items, p), l)
  {
    var i := IndexOf(p, ItemNode(w));
    var l := (w, items[w].submitted);
    var a, b := p[..i], p[i + 1..];
    assert p == (a + [ItemNode(w)]) + b;
    LabelsAround(items, a, w, b);
    if l in Labels(items, a) {
      LabelComesFromNode(items, a, w, items[w].submitted);
    }
    var la, lb := Labels(items, a), Labels(items, b);
    assert (la + [l] + lb)[|la|] == l;
    IndexOfSplit(la, l, lb);
  }

  lemma IndexOfSplit<T>(a: seq<T>, x: T, b: seq<T>)
    requires x !in a
    ensures IndexOf(a + [x] + b, x) == |a| && Without(a + [x] + b, x) == a + b
  {
    var s := a + [x] + b;
    assert s[|a|] == x && s[..|a|] == a && s[|a| + 1..] == b;
    FirstIs(s, x, |a|);
  }

  lemma FifoAppend(log: seq<Event>, e: Event, q: nat)
    ensures Fifo(log + [e], q) == if Fifo(log, q).None? then None else FifoStep(Fifo(log, q).value, e, q)
  {
    assert (log + [e])[..|log|] == log;
  }

  predicate Touches(e: Event, q: nat) {
    (e.Accepted? || e.Removed? || e.Started?) && e.q == q
  }

  /** Only the first event of a step can move the line of a queue. */
  lemma FifoStepOnce(log: seq<Event>, es: seq<Event>, q: nat)
    requires |es| <= 2 && (|es| == 2 ==> es[1].CancelReleased?) && Fifo(log, q).Some?
    ensures Fifo(log + es, q) ==
            if |es| > 0 && Touches(es[0], q) then FifoStep(Fifo(log, q).value, es[0], q) else Fifo(log, q)
  {
    if |es| == 0 {
      assert log + es == log;
    } else if |es| == 1 {
      assert log + es == log + [es[0]];
      FifoAppend(log, es[0], q);
    } else {
      assert log + es == (log + [es[0]]) + [es[1]];
      FifoAppend(log, es[0], q);
      FifoAppend(log + [es[0]], es[1], q);
    }
  }

  lemma EnqueueLine(s: State, home: nat, w: nat, k: nat)
    requires home < |s.queues| && w < |s.items| && k < |s.queues| && LineOk(s, k)
    requires ItemNode(w) !in s.queues[k].pending
    ensures LineOk(Enqueue(s, home, w), k)
  {
    var t := Enqueue(s, home, w);
    var p := s.queues[k].pending;
    FifoAppend(s.log, Accepted(home, w, t.items[w].submitted), k);
    LabelsFrame(s.items, t.items, p);
    LabelsConcat(t.items, p, [ItemNode(w)]);
    LabelsOne(t.items, ItemNode(w));
  }

  lemma SubmitLine(s: State, w: nat, target: nat, caller: Caller, k: nat)
    requires Inv(s) && w < |s.items| && target < |s.queues| && k < |s.queues| && LineOk(s, k)
    requires s.items[w].flags.running ==> s.items[w].owner.Some? && s.items[w].owner.value < |s.queues|
    ensures LineOk(SubmitLocked(s, w, target, caller).s, k)
  {
    var t := SubmitLocked(s, w, target, caller).s;
    var es := SubmitFollows(s, w, target, caller);
    if es != [] {
      var p := s.queues[k].pending;
      assert ItemNode(w) !in p by {
        assert ListOk(s.items, s.flushers, k, p);
        assert forall i :: 0 <= i < |p| ==> NodeOk(s.items, s.flushers, k, p[i]);
      }
      var home := if s.items[w].flags.running then s.items[w].owner.value else target;
      assert t == Enqueue(s, home, w);
      EnqueueLine(s, home, w, k);
    }
  }

  lemma FlushLine(s: State, w: nat, k: nat)
    requires Inv(s) && FlushDefined(s, w) && k < |s.queues| && LineOk(s, k)
    ensures LineOk(FlushLocked(s, w).s, k)
  {
    var x, t := s.items[w], FlushLocked(s, w).s;
    if x.flags.queued || x.flags.running {
      var q := x.owner.value;
      LabelsJoined(s.items, s.queues[q].pending, w, |s.flushers|, x.flags.queued);
      assert t.items == s.items && t.log == s.log;
      assert k == q ==>
               t.queues[k].pending == Joined(s.queues[q].pending, ItemNode(w), FlushNode(|s.flushers|), x.flags.queued);
    }
  }

  lemma LabelsJoined(items: seq<Item>, p: seq<Node>, w: nat, f: nat, behind: bool)
    requires behind ==> ItemNode(w) in p
    ensures Labels(items, Joined(p, ItemNode(w), FlushNode(f), behind)) == Labels(items, p)
  {
    if behind {
      LabelsInsert(items, p, w, f);
    } else {
      LabelsOne(items, FlushNode(f));
      LabelsConcat(items, [FlushNode(f)], p);
    }
  }

  lemma UnqueueLine(s: State, w: nat, k: nat)
    requires Inv(s) && CancelDefined(s, w) && k < |s.queues| && LineOk(s, k)
    ensures LineOk(Unqueue(s, w), k)
  {
    var x := s.items[w];
    if x.flags.queued {
      var t := Unqueue(s, w);
      assert ItemLocal(s, w) && ItemPlaced(s, w);
      FifoStepOnce(s.log, [Removed(x.owner.value, w, x.submitted)], k);
      LabelsFrame(s.items, t.items, t.queues[k].pending);
      if k == x.owner.value {
        LabelsWithout(s.items, s.queues[k].pending, w);
      }
    }
  }

  /** Steps that only change CANCELING or cancellers. */
  lemma SameLine(s: State, t: State, k: nat)
    requires k < |s.queues| && LineOk(s, k) && t.queues == s.queues && t.log == s.log && |t.items| == |s.items|
    requires forall w :: 0 <= w < |s.items| ==> t.items[w].submitted == s.items[w].submitted
    ensures LineOk(t, k)
  {
    LabelsFrame(s.items, t.items, s.queues[k].pending);
  }

  lemma CancelLine(s: State, w: nat, k: nat)
    requires Inv(s) && CancelDefined(s, w) && k < |s.queues| && LineOk(s, k)
    ensures LineOk(CancelAsync(s, w).s, k)
  {
    UnqueueLine(s, w, k);
    var s1 := if s.items[w].flags.canceling then s else Unqueue(s, w);
    SameLine(s1, CancelAsync(s, w).s, k);
  }

  lemma LabelsHead(items: seq<Item>, p: seq<Node>)
    requires p != []
    ensures Labels(items, p) ==
            (if p[0].ItemNode? && p[0].w < |items| then [(p[0].w, items[p[0].w].submitted)] else [])
            + Labels(items, p[1..])
  {
  }

  lemma TakeLine(s: State, q: nat)
    requires CanTake(s, q) && WellFormed(s) && LineOk(s, q)
    ensures LineOk(TurnLocked(s, q), q)
  {
    var t := TurnLocked(s, q);
    var p := s.queues[q].pending;
    LabelsFrame(s.items, t.items, p[1..]);
    LabelsHead(s.items, p);
    assert NodeInside(s, p[0]);
    if p[0].ItemNode? {
      var w := p[0].w;
      var l := (w, s.items[w].submitted);
      assert t.log == s.log + [Started(q, w, s.items[w].submitted)];
      FifoAppend(s.log, Started(q, w, s.items[w].submitted), q);
      assert Labels(s.items, p)[1..] == Labels(s.items, p[1..]);
    } else {
      assert Labels(s.items, p) == Labels(s.items, p[1..]);
    }
  }

  /** A turn that takes nothing from line k moves it neither in the list nor in the log. */
  lemma TurnFrame(s: State, q: nat, k: nat)
    requires Inv(s) && WellFormed(s) && q < |s.queues| && s.queues[q].pc.LoopHead? && k < |s.queues|
    requires k != q || s.queues[q].pending == []
    ensures var t := TurnLocked(s, q);
            && |t.queues| == |s.queues| && t.queues[k].pending == s.queues[k].pending && |t.items| == |s.items|
            && (forall w :: 0 <= w < |s.items| ==> t.items[w].submitted == s.items[w].submitted)
    ensures var t := TurnLocked(s, q); t.log == s.log || (|t.log| > |s.log| && !Touches(t.log[|s.log|], k))
  {
  }

  lemma TurnLine(s: State, q: nat, k: nat)
    requires Inv(s) && WellFormed(s) && q < |s.queues| && s.queues[q].pc.LoopHead? && k < |s.queues| && LineOk(s, k)
    ensures LineOk(TurnLocked(s, q), k)
  {
    if k == q && s.queues[q].pending != [] {
      TakeLine(s, q);
    } else {
      var t := TurnLocked(s, q);
      var es := TurnFollows(s, q);
      TurnFrame(s, q, k);
      FifoStepOnce(s.log, es, k);
      LabelsFrame(s.items, t.items, s.queues[k].pending);
      assert |es| > 0 ==> es[0] == t.log[|s.log|];
    }
  }

  /** The end of a run moves no line, and its first event touches none. */
  lemma FinishFrame(s: State, q: nat, k: nat)
    requires Inv(s) && WellFormed(s) && q < |s.queues| && s.queues[q].pc.Running? && k < |s.queues|
    ensures var t := FinishLocked(s, q);
            && |t.queues| == |s.queues| && t.queues[k].pending == s.queues[k].pending && |t.items| == |s.items|
            && (forall w :: 0 <= w < |s.items| ==> t.items[w].submitted == s.items[w].submitted)
    ensures var t := FinishLocked(s, q); |t.log| > |s.log| && !Touches(t.log[|s.log|], k)
  {
    assert WorkerOk(s, q);
  }

  lemma FinishLine(s: State, q: nat, k: nat)
    requires Inv(s) && WellFormed(s) && q < |s.queues| && s.queues[q].pc.Running? && k < |s.queues| && LineOk(s, k)
    ensures LineOk(FinishLocked(s, q), k)
  {
    var t := FinishLocked(s, q);
    var es := FinishFollows(s, q);
    FinishFrame(s, q, k);
    FifoStepOnce(s.log, es, k);
    assert es[0] == t.log[|s.log|];
    LabelsFrame(s.items, t.items, s.queues[k].pending);
  }

  lemma StepLine(s: State, a: Action, k: nat)
    requires Inv(s) && WellFormed(s) && Enabled(s, a) && k < |s.queues| && LineOk(s, k)
    ensures LineOk(Next(s, a).s, k)
  {
    match a
    case Submit(w, q, caller) => SubmitLine(s, w, q, caller, k);
    case Resubmit(w, caller) =>
      if s.items[w].owner.Some? { SubmitLine(s, w, s.items[w].owner.value, caller, k); }
    case Flush(w) => FlushLine(s, w, k);
    case Cancel(w) => CancelLine(s, w, k);
    case CancelSync(w) =>
      if !Idle(s.items[w].flags) {
        CancelLine(s, w, k);
        SameLine(CancelAsync(s, w).s, Next(s, a).s, k);
      }
    case WorkerTurn(q) => TurnLine(s, q, k);
    case WorkerFinish(q) => FinishLine(s, q, k);
    case _ => ControlLine(s, a, k);
  }

  lemma ControlLine(s: State, a: Action, k: nat)
    requires Inv(s) && WellFormed(s) && Enabled(s, a) && k < |s.queues| && LineOk(s, k)
    requires !IsItemCall(a) && !a.WorkerTurn? && !a.WorkerFinish?
    ensures LineOk(Next(s, a).s, k)
  {
    var t := Next(s, a).s;
    ControlStep(s, a);
    assert QueueLocal(s.queues[a.q]);
    assert t.items == s.items && t.log == s.log && t.queues[k].pending == s.queues[k].pending;
  }

  lemma StepKeepsOrder(s: State, a: Action)
    requires Inv(s) && WellFormed(s) && Enabled(s, a) && OrderOk(s)
    ensures OrderOk(Next(s, a).s)
  {
    var t := Next(s, a).s;
    QueuesStay(s, a);
    forall k | 0 <= k < |t.queues|
      ensures LineOk(t, k)
    {
      StepLine(s, a, k);
    }
  }

  // ---------------------------------------------------------------- all runs

  ghost predicate HistoryOk(s: State) {
    InstancesOk(s) && ReleasesOk(s) && CountsOk(s) && OrderOk(s)
  }

  lemma {:induction false} RunKeepsHistory(ss: seq<State>, acts: seq<Action>, i: nat)
    requires Run(ss, acts) && Init(ss[0]) && i <= |acts|
    ensures Inv(ss[i]) && WellFormed(ss[i]) && HistoryOk(ss[i])
  {
    RunKeepsInv(ss, acts, i);
    if i > 0 {
      RunKeepsHistory(ss, acts, i - 1);
      assert StepAt(ss, acts, i - 1);
      var s, a := ss[i - 1], acts[i - 1];
      StepKeepsInstances(s, a);
      StepKeepsReleases(s, a);
      StepKeepsCounts(s, a);
      StepKeepsOrder(s, a);
    }
  }
}
