/**
 Lists of objects that stand for lists of nodes: the objects of the items and those of the flushers, each in the order
 of their numbers. Linking and unlinking keep the two sides in step.
 */
module WorkLinks {
  import opened Lists
  import opened WorkModel

  /** What has an object: the items and the flushers. */
  datatype Objects<T> = Objects(items: seq<T>, flushers: seq<T>)

  /** No object stands for two nodes. */
  ghost predicate Distinct<T>(o: Objects<T>) {
    && NoDup(o.items) && NoDup(o.flushers)
    && forall i, j :: 0 <= i < |o.items| && 0 <= j < |o.flushers| ==> o.items[i] != o.flushers[j]
  }

  predicate StandsFor<T(==)>(o: Objects<T>, x: T, n: Node) {
    match n
    case ItemNode(w) => w < |o.items| && x == o.items[w]
    case FlushNode(f) => f < |o.flushers| && x == o.flushers[f]
  }

  /** The list c links the objects that the nodes of p stand for. */
  predicate InStep<T(==)>(o: Objects<T>, c: seq<T>, p: seq<Node>) {
    |c| == |p| && forall i :: 0 <= i < |p| ==> StandsFor(o, c[i], p[i])
  }

  /** An item's object stands where its node stands. */
  lemma SamePlace<T>(o: Objects<T>, c: seq<T>, p: seq<Node>, w: nat)
    requires Distinct(o) && InStep(o, c, p) && w < |o.items| && ItemNode(w) in p
    ensures o.items[w] in c && IndexOf(c, o.items[w]) == IndexOf(p, ItemNode(w))
  {
    forall j | 0 <= j < |p|
      ensures c[j] == o.items[w] <==> p[j] == ItemNode(w)
    {
      assert StandsFor(o, c[j], p[j]);
    }
    IndexOfMatch(c, p, o.items[w], ItemNode(w));
  }

  lemma InsertInStep<T>(o: Objects<T>, c: seq<T>, p: seq<Node>, w: nat, f: nat)
    requires Distinct(o) && InStep(o, c, p) && w < |o.items| && ItemNode(w) in p && f < |o.flushers|
    ensures o.items[w] in c
    ensures InStep(o, InsertAfter(c, o.items[w], o.flushers[f]), InsertAfter(p, ItemNode(w), FlushNode(f)))
  {
    SamePlace(o, c, p, w);
    assert forall i :: 0 <= i < |p| ==> StandsFor(o, c[i], p[i]);
  }

  lemma PrependInStep<T>(o: Objects<T>, c: seq<T>, p: seq<Node>, f: nat)
    requires InStep(o, c, p) && f < |o.flushers|
    ensures InStep(o, [o.flushers[f]] + c, [FlushNode(f)] + p)
  {
    assert forall i :: 0 <= i < |p| ==> StandsFor(o, c[i], p[i]);
  }

  /** The object y of a flusher joins the list, behind the object x of an item or in front. */
  lemma JoinInStep<T>(o: Objects<T>, c: seq<T>, p: seq<Node>, w: nat, x: T, f: nat, y: T, behind: bool)
    requires Distinct(o) && InStep(o, c, p) && (behind ==> ItemNode(w) in p)
    requires StandsFor(o, x, ItemNode(w)) && StandsFor(o, y, FlushNode(f))
    ensures behind ==> x in c
    ensures InStep(o, Joined(c, x, y, behind), Joined(p, ItemNode(w), FlushNode(f), behind))
  {
    if behind {
      InsertInStep(o, c, p, w, f);
    } else {
      PrependInStep(o, c, p, f);
    }
  }

  lemma WithoutInStep<T>(o: Objects<T>, c: seq<T>, p: seq<Node>, w: nat)
    requires Distinct(o) && InStep(o, c, p) && w < |o.items| && ItemNode(w) in p
    ensures InStep(o, Without(c, o.items[w]), Without(p, ItemNode(w)))
  {
    SamePlace(o, c, p, w);
    assert forall i :: 0 <= i < |p| ==> StandsFor(o, c[i], p[i]);
  }

  lemma TailInStep<T>(o: Objects<T>, c: seq<T>, p: seq<Node>)
    requires InStep(o, c, p) && p != []
    ensures StandsFor(o, c[0], p[0]) && InStep(o, c[1..], p[1..])
  {
    assert forall i :: 0 <= i < |p| ==> StandsFor(o, c[i], p[i]);
  }

  /** New flushers change nothing for the others. */
  lemma GrowInStep<T>(o: Objects<T>, o': Objects<T>, c: seq<T>, p: seq<Node>)
    requires InStep(o, c, p) && o'.items == o.items
    requires |o.flushers| <= |o'.flushers| && forall f :: 0 <= f < |o.flushers| ==> o'.flushers[f] == o.flushers[f]
    ensures InStep(o', c, p)
  {
    forall i | 0 <= i < |p|
      ensures StandsFor(o', c[i], p[i])
    {
      assert StandsFor(o, c[i], p[i]);
    }
  }
}
