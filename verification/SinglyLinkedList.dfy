/** The intrusive singly linked list: nodes live inside other objects, the list holds a head and a tail. */
module SinglyLinkedList {
  import opened Lists

  class SNode {
    var next: SNode?

    constructor ()
      ensures next == null
    {
      next := null;
    }
  }

  /** The nodes of c in order, each pointing to the one behind it, the last to nothing. */
  ghost predicate Chain(c: seq<SNode>)
    reads c
  {
    && NoDup(c)
    && (forall i :: 0 <= i < |c| - 1 ==> c[i].next == c[i + 1])
    && (c != [] ==> c[|c| - 1].next == null)
  }

  /** A node linked behind c[i]. */
  lemma ChainInserted(c: seq<SNode>, i: nat, n: SNode)
    requires NoDup(c) && n !in c && i + 1 < |c|
    requires forall j :: 0 <= j < |c| - 1 && j != i ==> c[j].next == c[j + 1]
    requires c[i].next == n && n.next == c[i + 1] && c[|c| - 1].next == null
    ensures Chain(c[..i + 1] + [n] + c[i + 1..])
  {
    var d := c[..i + 1] + [n] + c[i + 1..];
    assert forall j :: 0 <= j < |d| ==> d[j] == if j <= i then c[j] else if j == i + 1 then n else c[j - 1];
  }

  function First(c: seq<SNode>): SNode? {
    if c == [] then null else c[0]
  }

  function Last(c: seq<SNode>): SNode? {
    if c == [] then null else c[|c| - 1]
  }

  function Nodes(n: SNode?): set<SNode> {
    if n == null then {} else {n}
  }

  class SList {
    var head: SNode?
    var tail: SNode?
    /** The linked nodes, first to last. */
    ghost var nodes: seq<SNode>

    ghost predicate Valid()
      reads this, nodes
    {
      Chain(nodes) && head == First(nodes) && tail == Last(nodes)
    }

    constructor ()
      ensures Valid() && nodes == []
    {
      head, tail, nodes := null, null, [];
    }

    /** Forgets all nodes; whatever was linked keeps its stale pointers. */
    method Init()
      modifies this
      ensures Valid() && nodes == []
    {
      head, tail, nodes := null, null, [];
    }

    method IsEmpty() returns (empty: bool)
      requires Valid()
      ensures empty <==> nodes == []
    {
      empty := head == null;
    }

    method Prepend(node: SNode)
      requires Valid() && node !in nodes
      modifies this, node
      ensures Valid() && nodes == [node] + old(nodes)
    {
      node.next := head;
      head := node;
      if tail == null {
        tail := head;
      }
      nodes := [node] + nodes;
    }

    method Append(node: SNode)
      requires Valid() && node !in nodes
      modifies this, node, Nodes(tail)
      ensures Valid() && nodes == old(nodes) + [node]
    {
      node.next := null;
      if tail == null {
        tail := node;
        head := node;
      } else {
        tail.next := node;
        tail := node;
      }
      nodes := nodes + [node];
    }

    /** Links the chain c, given by its first and last node, behind the list. */
    method AppendList(first: SNode?, last: SNode?, ghost c: seq<SNode>)
      requires Valid() && Chain(c) && first == First(c) && last == Last(c)
      requires forall n :: n in c ==> n !in nodes
      modifies this, Nodes(tail)
      ensures Valid() && nodes == old(nodes) + c
    {
      forall i, j | 0 <= i < |nodes| && 0 <= j < |c|
        ensures nodes[i] != c[j]
      {
        assert c[j] in c && nodes[i] in nodes;
      }
      if first != null && last != null {
        if tail == null {
          head := first;
        } else {
          tail.next := first;
        }
        tail := last;
      }
      nodes := nodes + c;
    }

    /** Moves all nodes of a disjoint list behind this one. */
    method Merge(other: SList)
      requires Valid() && other.Valid() && other != this
      requires forall n :: n in other.nodes ==> n !in nodes
      modifies this, other, Nodes(tail)
      ensures Valid() && nodes == old(nodes) + old(other.nodes)
      ensures other.Valid() && other.nodes == []
    {
      var first, last := other.head, other.tail;
      AppendList(first, last, other.nodes);
      other.Init();
    }

    method LinkBehind(prev: SNode, node: SNode, ghost i: nat)
      requires Valid() && node !in nodes && i + 1 < |nodes| && nodes[i] == prev
      modifies this`nodes, node, prev
      ensures Valid() && nodes == old(nodes)[..i + 1] + [node] + old(nodes)[i + 1..]
    {
      assert nodes[i].next == nodes[i + 1];
      node.next := prev.next;
      prev.next := node;
      ChainInserted(nodes, i, node);
      nodes := nodes[..i + 1] + [node] + nodes[i + 1..];
    }

    /** Links node behind prev, or in front when prev is null. */
    method Insert(prev: SNode?, node: SNode)
      requires Valid() && node !in nodes && (prev != null ==> prev in nodes)
      modifies this, node, Nodes(prev)
      ensures Valid()
      ensures nodes == if prev == null then [node] + old(nodes) else InsertAfter(old(nodes), prev, node)
    {
      if prev == null {
        Prepend(node);
      } else {
        ghost var i := IndexOf(nodes, prev);
        assert i < |nodes| - 1 ==> nodes[i].next == nodes[i + 1];
        if prev.next == null {
          assert i == |nodes| - 1;
          Append(node);
        } else {
          LinkBehind(prev, node, i);
        }
      }
    }

    /** Unlinks the first node. Its own next pointer is left as it was. */
    method GetNotEmpty() returns (node: SNode)
      requires Valid() && nodes != []
      modifies this
      ensures Valid() && node == old(nodes)[0] && nodes == old(nodes)[1..]
    {
      node := head;
      head := node.next;
      if tail == node {
        tail := head;
      }
      nodes := nodes[1..];
    }

    method Get() returns (node: SNode?)
      requires Valid()
      modifies this
      ensures Valid() && node == First(old(nodes))
      ensures nodes == if old(nodes) == [] then [] else old(nodes)[1..]
    {
      var empty := IsEmpty();
      if empty {
        node := null;
      } else {
        node := GetNotEmpty();
      }
    }

    /** Unlinks node, whose predecessor is prev; null stands for the head's missing predecessor. */
    method Remove(prev: SNode?, node: SNode, ghost i: nat)
      requires Valid() && i < |nodes| && nodes[i] == node && prev == (if i == 0 then null else nodes[i - 1])
      modifies this, node, Nodes(prev)
      ensures Valid() && nodes == old(nodes)[..i] + old(nodes)[i + 1..] && node.next == null
    {
      if prev == null {
        head := node.next;
        if tail == node {
          tail := head;
        }
      } else {
        prev.next := node.next;
        if tail == node {
          tail := prev;
        }
      }
      node.next := null;
      nodes := nodes[..i] + nodes[i + 1..];
    }

    /** Whether node is linked, and its predecessor; for a node that is not linked, prev is the last node. */
    method Find(node: SNode) returns (found: bool, prev: SNode?)
      requires Valid()
      ensures found <==> node in nodes
      ensures found ==> prev == (var i := IndexOf(nodes, node); if i == 0 then null else nodes[i - 1])
      ensures !found ==> prev == Last(nodes)
    {
      prev := null;
      var current := head;
      ghost var i := 0;
      while current != null
        invariant i <= |nodes| && current == (if i < |nodes| then nodes[i] else null)
        invariant prev == (if i == 0 then null else nodes[i - 1])
        invariant node !in nodes[..i]
        decreases |nodes| - i
      {
        if current == node {
          IndexOfUnique(nodes, i);
          return true, prev;
        }
        prev := current;
        current := current.next;
        i := i + 1;
      }
      found := false;
    }

    method FindAndRemove(node: SNode) returns (removed: bool)
      requires Valid()
      modifies this, nodes
      ensures Valid()
      ensures removed <==> node in old(nodes)
      ensures nodes == Without(old(nodes), node)
      ensures removed ==> node.next == null
    {
      var prev: SNode? := null;
      var test := head;
      ghost var i := 0;
      while test != null
        invariant Valid() && nodes == old(nodes)
        invariant i <= |nodes| && test == (if i < |nodes| then nodes[i] else null)
        invariant prev == (if i == 0 then null else nodes[i - 1])
        invariant node !in nodes[..i]
        decreases |nodes| - i
      {
        if test == node {
          IndexOfUnique(nodes, i);
          Remove(prev, node, i);
          return true;
        }
        prev := test;
        test := test.next;
        i := i + 1;
      }
      removed := false;
    }

    method Len() returns (len: nat)
      requires Valid()
      ensures len == |nodes|
    {
      len := 0;
      var node := head;
      while node != null
        invariant len <= |nodes| && node == (if len < |nodes| then nodes[len] else null)
        decreases |nodes| - len
      {
        len := len + 1;
        node := node.next;
      }
    }
  }

  /** A list is determined by where it starts: two lists with the same head hold the same nodes. */
  lemma {:induction false} ChainsFromSameNode(a: seq<SNode>, b: seq<SNode>, i: nat)
    requires Chain(a) && Chain(b) && First(a) == First(b) && i <= |a|
    ensures i <= |b| && a[..i] == b[..i]
  {
    if i > 0 {
      ChainsFromSameNode(a, b, i - 1);
      if i >= 2 {
        assert a[i - 2] == a[..i - 1][i - 2] == b[..i - 1][i - 2] == b[i - 2];
        assert a[i - 2].next == a[i - 1];
      }
      assert a[..i] == a[..i - 1] + [a[i - 1]];
      assert b[..i] == b[..i - 1] + [b[i - 1]];
    }
  }

  lemma SameHeadSameNodes(a: SList, b: SList)
    requires a.Valid() && b.Valid() && a.head == b.head
    ensures a.nodes == b.nodes && a.tail == b.tail
  {
    ChainsFromSameNode(a.nodes, b.nodes, |a.nodes|);
    ChainsFromSameNode(b.nodes, a.nodes, |b.nodes|);
  }
}
