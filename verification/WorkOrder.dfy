/** The FIFO of WorkHistory read as a statement about order: starts = submissions minus removals. */
module WorkOrder {
  import opened Lists
  import opened WorkModel
  import opened WorkInvariant
  import opened WorkHistory

  /** The accepted submissions to queue q, oldest first. */
  function Submissions(log: seq<Event>, q: nat): seq<Label> {
    if log == [] then []
    else
      var e, rest := log[|log| - 1], Submissions(log[..|log| - 1], q);
      if e.Accepted? && e.q == q then rest + [(e.w, e.n)] else rest
  }

  /** The handler starts on queue q, oldest first. */
  function HandlerStarts(log: seq<Event>, q: nat): seq<Label> {
    if log == [] then []
    else
      var e, rest := log[|log| - 1], HandlerStarts(log[..|log| - 1], q);
      if e.Started? && e.q == q then rest + [(e.w, e.n)] else rest
  }

  /** The submissions that a cancel took out of queue q. */
  function Cancelled(log: seq<Event>, q: nat): set<Label> {
    if log == [] then {}
    else
      var e, rest := log[|log| - 1], Cancelled(log[..|log| - 1], q);
      if e.Removed? && e.q == q then rest + {(e.w, e.n)} else rest
  }

  /** s without the members of r, in the same order. */
  function Minus(s: seq<Label>, r: set<Label>): seq<Label> {
    if s == [] then []
    else Minus(s[..|s| - 1], r) + (if s[|s| - 1] in r then [] else [s[|s| - 1]])
  }

  lemma MinusMembers(s: seq<Label>, r: set<Label>)
    ensures forall l :: l in Minus(s, r) <==> l in s && l !in r
  {
    if s != [] {
      MinusMembers(s[..|s| - 1], r);
      assert s == s[..|s| - 1] + [s[|s| - 1]];
    }
  }

  lemma MinusNoDup(s: seq<Label>, r: set<Label>)
    requires NoDup(s)
    ensures NoDup(Minus(s, r))
  {
    if s != [] {
      MinusNoDup(s[..|s| - 1], r);
      MinusMembers(s[..|s| - 1], r);
    }
  }

  lemma WithoutLast(s: seq<Label>, l: Label)
    requires l !in s
    ensures Without(s + [l], l) == s
  {
    IndexOfSplit(s, l, []);
    assert s + [l] == s + [l] + [] && s == s + [];
  }

  lemma MinusOneMore(s: seq<Label>, r: set<Label>, l: Label)
    requires NoDup(s) && l in s && l !in r
    ensures Minus(s, r + {l}) == Without(Minus(s, r), l)
  {
    var h, x := s[..|s| - 1], s[|s| - 1];
    MinusMembers(h, r);
    MinusMembers(s, r);
    if x == l {
      MinusSame(h, r, l);
      WithoutLast(Minus(h, r), l);
    } else {
      assert s == h + [x];
      MinusOneMore(h, r, l);
      WithoutAppend(Minus(h, r), l, if x in r then [] else [x]);
    }
  }

  lemma MinusSame(s: seq<Label>, r: set<Label>, l: Label)
    requires l !in s
    ensures Minus(s, r + {l}) == Minus(s, r)
  {
    if s != [] {
      var h := s[..|s| - 1];
      assert s == h + [s[|s| - 1]];
      MinusSame(h, r, l);
    }
  }

  lemma WithoutAppend(a: seq<Label>, l: Label, b: seq<Label>)
    requires l in a
    ensures l in a + b && Without(a + b, l) == Without(a, l) + b
  {
    var i := IndexOf(a, l);
    assert (a + b)[i] == l;
    assert a + b == a[..i] + [l] + (a[i + 1..] + b);
    IndexOfSplit(a[..i], l, a[i + 1..] + b);
    assert a[..i] + (a[i + 1..] + b) == (a[..i] + a[i + 1..]) + b;
  }

  lemma Shifted(a: seq<Label>, b: seq<Label>, i: nat)
    requires i < |b|
    ensures (a + b)[|a| + i] == b[i] && (a + b)[..|a| + i] == a + b[..i]
    ensures (a + b)[..|a| + i] + (a + b)[|a| + i + 1..] == a + (b[..i] + b[i + 1..])
  {
    assert (a + b)[|a| + i + 1..] == b[i + 1..];
  }

  lemma WithoutPrepend(a: seq<Label>, l: Label, b: seq<Label>)
    requires l !in a && l in b
    ensures Without(a + b, l) == a + Without(b, l)
  {
    var i := IndexOf(b, l);
    Shifted(a, b, i);
    FirstIs(a + b, l, |a| + i);
  }

  lemma AcceptedJoins(a: seq<Label>, r: set<Label>, st: seq<Label>, line: seq<Label>, l: Label)
    requires st + line == Minus(a, r) && NoDup(a + [l]) && forall x :: x in r ==> x in a
    ensures st + (line + [l]) == Minus(a + [l], r)
  {
    var al := a + [l];
    assert al[..|a|] == a;
    assert l !in a by {
      assert forall i :: 0 <= i < |a| ==> al[i] != al[|a|];
    }
    assert st + (line + [l]) == (st + line) + [l];
  }

  lemma RemovedLeaves(a: seq<Label>, r: set<Label>, st: seq<Label>, line: seq<Label>, l: Label)
    requires st + line == Minus(a, r) && NoDup(a) && l in line
    ensures st + Without(line, l) == Minus(a, r + {l}) && l in a
  {
    MinusMembers(a, r);
    MinusNoDup(a, r);
    var all := st + line;
    assert l in all;
    var j :| 0 <= j < |line| && line[j] == l;
    assert all[|st| + j] == l;
    assert forall i :: 0 <= i < |st| ==> st[i] == all[i] != all[|st| + j];
    WithoutPrepend(st, l, line);
    MinusOneMore(a, r, l);
  }

  lemma FifoStartsStep(log0: seq<Event>, e: Event, q: nat)
    requires Fifo(log0 + [e], q).Some? && NoDup(Submissions(log0 + [e], q)) && NoDup(Submissions(log0, q))
    requires Fifo(log0, q).Some?
    requires HandlerStarts(log0, q) + Fifo(log0, q).value == Minus(Submissions(log0, q), Cancelled(log0, q))
    requires forall l :: l in Cancelled(log0, q) ==> l in Submissions(log0, q)
    ensures var log := log0 + [e];
            HandlerStarts(log, q) + Fifo(log, q).value == Minus(Submissions(log, q), Cancelled(log, q))
    ensures forall l :: l in Cancelled(log0 + [e], q) ==> l in Submissions(log0 + [e], q)
  {
    var log := log0 + [e];
    assert log[..|log| - 1] == log0;
    var a, r, line, st := Submissions(log0, q), Cancelled(log0, q), Fifo(log0, q).value, HandlerStarts(log0, q);
    FifoAppend(log0, e, q);
    if e.Accepted? && e.q == q {
      AcceptedJoins(a, r, st, line, (e.w, e.n));
    } else if e.Removed? && e.q == q {
      RemovedLeaves(a, r, st, line, (e.w, e.n));
    } else if e.Started? && e.q == q {
      assert (st + [line[0]]) + line[1..] == st + line;
    }
  }

  /**
   Any log that a FIFO with deletion can produce starts its handlers in submission order: what has started, followed by
   what still waits, is what was submitted without what was cancelled.
   */
  lemma {:induction false} FifoStartsInOrder(log: seq<Event>, q: nat)
    requires Fifo(log, q).Some? && NoDup(Submissions(log, q))
    ensures HandlerStarts(log, q) + Fifo(log, q).value == Minus(Submissions(log, q), Cancelled(log, q))
    ensures forall l :: l in Cancelled(log, q) ==> l in Submissions(log, q)
  {
    if log != [] {
      var log0, e := log[..|log| - 1], log[|log| - 1];
      assert NoDup(Submissions(log0, q)) by {
        assert Submissions(log0, q) == Submissions(log, q)[..|Submissions(log0, q)|];
      }
      FifoStartsInOrder(log0, q);
      FifoStartsStep(log0, e, q);
      assert log == log0 + [e];
    }
  }

  // ---------------------------------------------------------------- submissions carry distinct labels

  ghost predicate LabelsDistinct(s: State) {
    forall q :: NoDup(Submissions(s.log, q)) && LabelsInside(s, q)
  }

  ghost predicate LabelsInside(s: State, q: nat) {
    forall l :: l in Submissions(s.log, q) ==> l.0 < |s.items| && l.1 <= s.items[l.0].submitted
  }

  lemma SubmissionsStep(log: seq<Event>, es: seq<Event>, q: nat)
    requires |es| <= 2 && (|es| == 2 ==> es[0].Finished? && es[1].CancelReleased?)
    ensures Submissions(log + es, q) ==
            Submissions(log, q) + (if |es| > 0 && es[0].Accepted? && es[0].q == q then [(es[0].w, es[0].n)] else [])
  {
    if |es| == 0 {
      assert log + es == log;
    } else if |es| == 1 {
      assert (log + es)[..|log|] == log;
    } else {
      assert (log + es)[..|log| + 1] == log + [es[0]];
      assert (log + [es[0]])[..|log|] == log;
    }
  }

  lemma StepKeepsLabels(s: State, a: Action)
    requires Inv(s) && WellFormed(s) && Enabled(s, a) && LabelsDistinct(s)
    ensures LabelsDistinct(Next(s, a).s)
  {
    var t := Next(s, a).s;
    var es := StepFollows(s, a);
    forall q: nat
      ensures NoDup(Submissions(t.log, q)) && LabelsInside(t, q)
    {
      SubmissionsStep(s.log, es, q);
      assert NoDup(Submissions(s.log, q)) && LabelsInside(s, q);
      assert forall w :: 0 <= w < |s.items| ==> s.items[w].submitted <= t.items[w].submitted;
    }
  }

  lemma {:induction false} RunKeepsLabels(ss: seq<State>, acts: seq<Action>, i: nat)
    requires Run(ss, acts) && Init(ss[0]) && i <= |acts|
    ensures LabelsDistinct(ss[i])
  {
    if i > 0 {
      RunKeepsLabels(ss, acts, i - 1);
      RunKeepsInv(ss, acts, i - 1);
      assert StepAt(ss, acts, i - 1);
      StepKeepsLabels(ss[i - 1], acts[i - 1]);
    }
  }

  /** On every queue the handlers start in the order of the accepted submissions, minus those cancelled. */
  lemma StartsFollowSubmissions(ss: seq<State>, acts: seq<Action>, i: nat, q: nat)
    requires Run(ss, acts) && Init(ss[0]) && i <= |acts| && q < |ss[i].queues|
    ensures var s := ss[i];
            HandlerStarts(s.log, q) + Labels(s.items, s.queues[q].pending)
            == Minus(Submissions(s.log, q), Cancelled(s.log, q))
  {
    RunKeepsHistory(ss, acts, i);
    RunKeepsLabels(ss, acts, i);
    assert LineOk(ss[i], q);
    FifoStartsInOrder(ss[i].log, q);
  }
}
