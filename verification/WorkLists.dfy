/**
 The linked lists and ring buffers of all queues together, on nodes that move from list to list: what each step of the
 protocol does to them, on the heap. A node must not be linked twice; here the invariant of the protocol says that it
 is not.
 */
module WorkLists {
  import opened Lists
  import opened Flags
  import opened M = WorkModel
  import opened WorkInvariant
  import opened WorkLinks
  import opened SinglyLinkedList
  import opened BoundedQueue
  import Ring

  /** A list, and a node that may join it, wrapped for two-state lemmas. */
  datatype At = At(h: nat, node: SNode)

  /** Several lists that share no node. */
  class ListHeap {
    const lists: seq<SList>

    constructor (lists: seq<SList>)
      requires NoDup(lists) && forall k :: 0 <= k < |lists| ==> lists[k].Valid() && lists[k].nodes == []
      ensures this.lists == lists && Valid()
    {
      this.lists := lists;
    }

    ghost function Nodes(): set<SNode>
      reads lists
    {
      set k, i | 0 <= k < |lists| && 0 <= i < |lists[k].nodes| :: lists[k].nodes[i]
    }

    ghost predicate Apart(h: nat, k: nat)
      reads lists
      requires h < |lists| && k < |lists|
    {
      forall i, j :: 0 <= i < |lists[h].nodes| && 0 <= j < |lists[k].nodes| ==> lists[h].nodes[i] != lists[k].nodes[j]
    }

    ghost predicate Valid()
      reads lists, Nodes()
    {
      && NoDup(lists) && (forall k :: 0 <= k < |lists| ==> lists[k].Valid())
      && forall h, k :: 0 <= h < |lists| && 0 <= k < |lists| && h != k ==> Apart(h, k)
    }

    /** The node is in none of the lists. */
    ghost predicate Free(node: SNode)
      reads lists
    {
      forall k :: 0 <= k < |lists| ==> node !in lists[k].nodes
    }

    twostate predicate Kept(k: nat)
      reads lists, Nodes()
      requires k < |lists|
    {
      unchanged(lists[k]) && forall i :: 0 <= i < |lists[k].nodes| ==> unchanged(lists[k].nodes[i])
    }

    /** A change to one list, which a free node may have joined, leaves the others as they were. */
    twostate lemma OthersStay(at: At)
      requires old(Valid()) && at.h < |lists| && lists[at.h].Valid()
      requires forall k :: 0 <= k < |lists| && k != at.h ==> Kept(k)
      requires forall x :: x in lists[at.h].nodes ==>
                 x in old(lists[at.h].nodes) || (x == at.node && old(Free(at.node)))
      ensures Valid()
    {
      forall k | 0 <= k < |lists|
        ensures lists[k].Valid()
        ensures k != at.h ==> Apart(at.h, k) && Apart(k, at.h)
      {
        if k != at.h {
          assert Kept(k) && old(lists[k].Valid());
          forall i, j | 0 <= i < |lists[at.h].nodes| && 0 <= j < |lists[k].nodes|
            ensures lists[at.h].nodes[i] != lists[k].nodes[j]
          {
            var x := lists[at.h].nodes[i];
            assert x in lists[at.h].nodes && lists[k].nodes[j] in lists[k].nodes;
            if x in old(lists[at.h].nodes) {
              assert old(Apart(at.h, k));
            } else {
              assert old(Free(at.node));
            }
          }
        }
      }
      forall h, k | 0 <= h < |lists| && 0 <= k < |lists| && h != k && h != at.h && k != at.h
        ensures Apart(h, k)
      {
        assert old(Apart(h, k)) && Kept(h) && Kept(k);
      }
    }

    method Append(h: nat, node: SNode)
      requires Valid() && h < |lists| && Free(node)
      modifies lists[h], node, SinglyLinkedList.Nodes(lists[h].tail)
      ensures Valid() && lists[h].nodes == old(lists[h].nodes) + [node]
      ensures forall k :: 0 <= k < |lists| && k != h ==> lists[k].nodes == old(lists[k].nodes)
    {
      TailElsewhere(h);
      lists[h].Append(node);
      OthersStay(At(h, node));
    }

    /** What is linked in one list is not linked in another. */
    lemma TailElsewhere(h: nat)
      requires Valid() && h < |lists|
      ensures forall k, j :: 0 <= k < |lists| && k != h && 0 <= j < |lists[k].nodes| ==>
                lists[k].nodes[j] !in lists[h].nodes && lists[k].nodes[j] != lists[h].tail
    {
      forall k, j | 0 <= k < |lists| && k != h && 0 <= j < |lists[k].nodes|
        ensures lists[k].nodes[j] !in lists[h].nodes && lists[k].nodes[j] != lists[h].tail
      {
        assert Apart(h, k);
        if lists[h].nodes != [] {
          assert lists[h].tail == lists[h].nodes[|lists[h].nodes| - 1];
        }
      }
    }

    method Prepend(h: nat, node: SNode)
      requires Valid() && h < |lists| && Free(node)
      modifies lists[h], node
      ensures Valid() && lists[h].nodes == [node] + old(lists[h].nodes)
      ensures forall k :: 0 <= k < |lists| && k != h ==> lists[k].nodes == old(lists[k].nodes)
    {
      lists[h].Prepend(node);
      OthersStay(At(h, node));
    }

    method InsertBehind(h: nat, prev: SNode, node: SNode)
      requires Valid() && h < |lists| && Free(node) && prev in lists[h].nodes
      modifies lists[h], node, prev
      ensures Valid() && lists[h].nodes == InsertAfter(old(lists[h].nodes), prev, node)
      ensures forall k :: 0 <= k < |lists| && k != h ==> lists[k].nodes == old(lists[k].nodes)
    {
      TailElsewhere(h);
      InsertAfterMembers(lists[h].nodes, prev, node);
      InsertIn(lists[h], prev, node);
      OthersStay(At(h, node));
    }

    method InsertIn(list: SList, prev: SNode, node: SNode)
      requires list.Valid() && node !in list.nodes && prev in list.nodes
      modifies list, node, prev
      ensures list.Valid() && list.nodes == InsertAfter(old(list.nodes), prev, node)
    {
      list.Insert(prev, node);
    }

    method Get(h: nat) returns (node: SNode?)
      requires Valid() && h < |lists|
      modifies lists[h]
      ensures Valid() && node == First(old(lists[h].nodes))
      ensures lists[h].nodes == if old(lists[h].nodes) == [] then [] else old(lists[h].nodes)[1..]
      ensures forall k :: 0 <= k < |lists| && k != h ==> lists[k].nodes == old(lists[k].nodes)
    {
      var empty := lists[h].IsEmpty();
      node := null;
      if !empty {
        ghost var was := lists[h].nodes;
        node := lists[h].GetNotEmpty();
        assert forall x :: x in was[1..] ==> x in was;
        OthersStay(At(h, node));
      }
    }

    method FindAndRemove(h: nat, node: SNode) returns (removed: bool)
      requires Valid() && h < |lists|
      modifies lists[h], lists[h].nodes
      ensures Valid() && lists[h].nodes == Without(old(lists[h].nodes), node)
      ensures removed <==> node in old(lists[h].nodes)
      ensures forall k :: 0 <= k < |lists| && k != h ==> lists[k].nodes == old(lists[k].nodes)
    {
      TailElsewhere(h);
      ghost var was := lists[h].nodes;
      removed := lists[h].FindAndRemove(node);
      WithoutMembers(was, node);
      OthersStay(At(h, node));
    }

    method Init(h: nat)
      requires Valid() && h < |lists| && lists[h].nodes == []
      modifies lists[h]
      ensures Valid() && lists[h].nodes == []
      ensures forall k :: 0 <= k < |lists| && k != h ==> lists[k].nodes == old(lists[k].nodes)
    {
      lists[h].Init();
      forall k | 0 <= k < |lists|
        ensures lists[k].Valid() && lists[k].nodes == old(lists[k].nodes)
      {
        assert old(lists[k].Valid());
      }
      forall i, k | 0 <= i < |lists| && 0 <= k < |lists| && i != k
        ensures Apart(i, k)
      {
        assert old(Apart(i, k));
      }
    }
  }

  /** Several one-slot overwriting channels that share no memory. */
  class ChannelHeap {
    const slots: seq<BoundedQueue<int>>

    constructor (slots: seq<BoundedQueue<int>>)
      requires forall k :: 0 <= k < |slots| ==>
                 slots[k].Valid() && slots[k].maxSize == 1 && slots[k].overwrite && slots[k].Contents() == []
      requires forall h, k :: 0 <= h < k < |slots| ==> slots[h] != slots[k] && slots[h].buffer != slots[k].buffer
      ensures this.slots == slots && Valid()
    {
      this.slots := slots;
    }

    ghost function Buffers(): set<array<int>> {
      set k | 0 <= k < |slots| :: slots[k].buffer
    }

    ghost predicate Valid()
      reads slots
    {
      && (forall k :: 0 <= k < |slots| ==> slots[k].Valid() && slots[k].maxSize == 1 && slots[k].overwrite)
      && forall h, k :: 0 <= h < k < |slots| ==> slots[h] != slots[k] && slots[h].buffer != slots[k].buffer
    }

    method Put(k: nat, x: int)
      requires Valid() && k < |slots|
      modifies slots[k], slots[k].buffer
      ensures Valid() && slots[k].Contents() == Ring.Put(1, true, old(slots[k].Contents()), x)
      ensures forall j :: 0 <= j < |slots| && j != k ==> slots[j].Contents() == old(slots[j].Contents())
    {
      var _ := slots[k].PutNonblocking(x);
    }

    method Get(k: nat) returns (x: int)
      requires Valid() && k < |slots| && slots[k].Contents() != []
      modifies slots[k], slots[k].buffer
      ensures Valid() && [x] + slots[k].Contents() == old(slots[k].Contents())
      ensures forall j :: 0 <= j < |slots| && j != k ==> slots[j].Contents() == old(slots[j].Contents())
    {
      x := slots[k].Get();
    }

    method Clear(k: nat)
      requires Valid() && k < |slots|
      modifies slots[k]
      ensures Valid() && slots[k].Contents() == []
      ensures forall j :: 0 <= j < |slots| && j != k ==> slots[j].Contents() == old(slots[j].Contents())
    {
      slots[k].Clear();
    }
  }

  /** All queues: a list each, and two channels, notifyq in the slots below |lists| and drainq in those above. */
  class QueueLists {
    /** The node inside the Work of each item. */
    const nodes: seq<SNode>
    const heap: ListHeap
    const channels: ChannelHeap
    /** The node inside the Work of each flusher. */
    ghost var flushNodes: seq<SNode>
    ghost var model: State

    /** Any number of items and queues, with empty lists and channels. */
    constructor (nodes: seq<SNode>, heap: ListHeap, channels: ChannelHeap)
      requires NoDup(nodes) && heap.Valid() && (forall k :: 0 <= k < |heap.lists| ==> heap.lists[k].nodes == [])
      requires channels.Valid() && |channels.slots| == 2 * |heap.lists|
      requires forall k :: 0 <= k < |channels.slots| ==> channels.slots[k].Contents() == []
      ensures Valid() && Init(model) && this.nodes == nodes && this.heap == heap && this.channels == channels
    {
      this.nodes, this.heap, this.channels := nodes, heap, channels;
      flushNodes := [];
      model := State(seq(|nodes|, _ => Item(NoWorkFlags, None, 0, 0)),
                     seq(|heap.lists|, _ => Queue(NoQueueFlags, [], [], [], NotStarted, 0)), [], [], 0, []);
      new;
      InitInv(model);
    }

    /** The nodes that stand for items and flushers. */
    ghost function Ours(): Objects<SNode>
      reads this`flushNodes
    {
      Objects(nodes, flushNodes)
    }

    ghost predicate Stands(x: SNode, n: Node)
      reads this`flushNodes
    {
      StandsFor(Ours(), x, n)
    }

    ghost predicate Linked(c: seq<SNode>, p: seq<Node>)
      reads this`flushNodes
    {
      InStep(Ours(), c, p)
    }

    ghost predicate Separate()
      reads this`flushNodes
    {
      Distinct(Ours()) && |channels.slots| == 2 * |heap.lists|
    }

    ghost predicate ListCoupled(k: nat)
      reads this`model, this`flushNodes, heap.lists
      requires k < |heap.lists|
    {
      k < |model.queues| && Linked(heap.lists[k].nodes, model.queues[k].pending)
    }

    ghost predicate ChannelsCoupled(k: nat)
      reads this`model, channels.slots, channels.Buffers()
      requires channels.Valid() && |channels.slots| == 2 * |heap.lists| && k < |heap.lists|
    {
      && k < |model.queues| && channels.slots[k].Contents() == model.queues[k].notifyq
      && channels.slots[|heap.lists| + k].Contents() == model.queues[k].drainq
    }

    ghost predicate Coupled()
      reads this`model, this`flushNodes, heap.lists, heap.Nodes(), channels.slots, channels.Buffers()
    {
      && Separate() && heap.Valid() && channels.Valid()
      && |heap.lists| == |model.queues| && |nodes| == |model.items| && |flushNodes| == |model.flushers|
      && (forall k :: 0 <= k < |heap.lists| ==> ListCoupled(k))
      && (forall k :: 0 <= k < |heap.lists| ==> ChannelsCoupled(k))
    }

    /** The lists and channels represent a state that satisfies the invariant. */
    ghost predicate Valid()
      reads this`model, this`flushNodes, heap.lists, heap.Nodes(), channels.slots, channels.Buffers()
    {
      Coupled() && Inv(model)
    }

    /** The node of an item that is not QUEUED is in no list, whatever its next pointer says. */
    lemma Unlinked(w: nat)
      requires Valid() && w < |nodes| && !model.items[w].flags.queued
      ensures heap.Free(nodes[w])
    {
      forall k | 0 <= k < |heap.lists|
        ensures nodes[w] !in heap.lists[k].nodes
      {
        assert ListCoupled(k);
        var p := model.queues[k].pending;
        assert ListOk(model.items, model.flushers, k, p);
        forall i | 0 <= i < |p|
          ensures heap.lists[k].nodes[i] != nodes[w]
        {
          assert Stands(heap.lists[k].nodes[i], p[i]) && NodeOk(model.items, model.flushers, k, p[i]);
        }
      }
    }

    /** Nodes go on standing for what they stood for when flushers join. */
    twostate lemma StillLinked(k: nat)
      requires k < |heap.lists| && k < |old(model).queues|
      requires old(Linked(heap.lists[k].nodes, model.queues[k].pending))
      requires |old(flushNodes)| <= |flushNodes| && flushNodes[..|old(flushNodes)|] == old(flushNodes)
      ensures Linked(old(heap.lists[k].nodes), old(model).queues[k].pending)
    {
      forall f | 0 <= f < |old(flushNodes)|
        ensures flushNodes[f] == old(flushNodes)[f]
      {
        assert flushNodes[f] == flushNodes[..|old(flushNodes)|][f];
      }
      GrowInStep(old(Ours()), Ours(), old(heap.lists[k].nodes), old(model).queues[k].pending);
    }

    /** A change to one list leaves the others, and all channels, coupled. */
    twostate lemma OtherLists(h: nat)
      requires old(Coupled()) && h < |heap.lists| && Separate() && heap.Valid()
      requires unchanged(channels.slots) && unchanged(channels.Buffers())
      requires flushNodes == old(flushNodes) && ListCoupled(h)
      requires model == WithPending(old(model), h, model.queues[h].pending)
      requires forall k :: 0 <= k < |heap.lists| && k != h ==> heap.lists[k].nodes == old(heap.lists[k].nodes)
      ensures Coupled()
    {
      forall k | 0 <= k < |heap.lists|
        ensures ListCoupled(k)
      {
        if k != h {
          assert old(ListCoupled(k));
        }
      }
      forall k | 0 <= k < |heap.lists|
        ensures ChannelsCoupled(k)
      {
        assert old(ChannelsCoupled(k));
      }
    }

    /** A change to the channels of one queue leaves the others, and all lists, coupled. */
    twostate lemma OtherChannels(h: nat)
      requires old(Coupled()) && h < |heap.lists| && channels.Valid()
      requires unchanged(heap.lists) && unchanged(heap.Nodes())
      requires |model.queues| == |heap.lists|
      requires flushNodes == old(flushNodes) && model == SetQueue(old(model), h, model.queues[h])
      requires model.queues[h].pending == old(model).queues[h].pending
      requires forall k :: 0 <= k < |channels.slots| && k != h && k != |heap.lists| + h ==>
                 channels.slots[k].Contents() == old(channels.slots[k].Contents())
      requires ChannelsCoupled(h)
      ensures Coupled()
    {
      forall k | 0 <= k < |heap.lists|
        ensures ListCoupled(k)
      {
        assert old(ListCoupled(k));
      }
      forall k | 0 <= k < |heap.lists|
        ensures ChannelsCoupled(k)
      {
        assert old(ChannelsCoupled(k));
      }
    }

    ghost predicate SameLine(x: Queue, y: Queue) {
      x.pending == y.pending && x.notifyq == y.notifyq && x.drainq == y.drainq
    }

    /** The lists and channels represent any state with the same lines. */
    ghost method Relabel(t: State)
      requires Coupled()
      requires |t.queues| == |model.queues| && |t.items| == |model.items| && |t.flushers| == |model.flushers|
      requires forall k :: 0 <= k < |t.queues| ==> SameLine(t.queues[k], model.queues[k])
      modifies this`model
      ensures Coupled() && model == t
    {
      ghost var s := model;
      model := t;
      forall k | 0 <= k < |heap.lists|
        ensures ListCoupled(k) && ChannelsCoupled(k)
      {
        assert old(ListCoupled(k)) && old(ChannelsCoupled(k));
        assert SameLine(t.queues[k], s.queues[k]);
      }
    }

    // ---------------------------------------------------------------- one list or channel at a time

    ghost function WithPending(s: State, h: nat, p: seq<Node>): State
      requires h < |s.queues|
    {
      SetQueue(s, h, s.queues[h].(pending := p))
    }

    method Push(h: nat, w: nat)
      requires Coupled() && h < |heap.lists| && w < |nodes| && heap.Free(nodes[w])
      modifies this`model, heap.lists[h], nodes[w], Nodes(heap.lists[h].tail)
      ensures Coupled() && model == WithPending(old(model), h, old(model).queues[h].pending + [ItemNode(w)])
    {
      assert ListCoupled(h);
      heap.Append(h, nodes[w]);
      model := WithPending(model, h, model.queues[h].pending + [ItemNode(w)]);
      OtherLists(h);
    }

    method Notify(h: nat)
      requires Coupled() && h < |heap.lists|
      modifies this`model, channels.slots[h], channels.slots[h].buffer
      ensures Coupled() && model == SetQueue(old(model), h, Notified(old(model).queues[h]))
    {
      assert ChannelsCoupled(h);
      channels.Put(h, 0);
      model := SetQueue(model, h, Notified(model.queues[h]));
      OtherChannels(h);
    }

    /** A new flusher whose node is in no list yet. */
    ghost method Adopt(node: SNode, fl: Flusher)
      requires Coupled() && node !in nodes && node !in flushNodes
      modifies this`model, this`flushNodes
      ensures Coupled() && flushNodes == old(flushNodes) + [node]
      ensures model == old(model).(flushers := old(model).flushers + [fl])
    {
      flushNodes := flushNodes + [node];
      model := model.(flushers := model.flushers + [fl]);
      forall k | 0 <= k < |heap.lists|
        ensures ListCoupled(k) && ChannelsCoupled(k)
      {
        assert old(ListCoupled(k)) && old(ChannelsCoupled(k));
        StillLinked(k);
      }
    }

    method InsertLinked(h: nat, w: nat, node: SNode, ghost p: seq<Node>)
      requires Separate() && heap.Valid() && h < |heap.lists| && w < |nodes| && heap.Free(node)
      requires flushNodes != [] && node == flushNodes[|flushNodes| - 1]
      requires ItemNode(w) in p && Linked(heap.lists[h].nodes, p)
      modifies heap.lists[h], node, nodes[w]
      ensures heap.Valid() && Linked(heap.lists[h].nodes, InsertAfter(p, ItemNode(w), FlushNode(|flushNodes| - 1)))
      ensures forall k :: 0 <= k < |heap.lists| && k != h ==> heap.lists[k].nodes == old(heap.lists[k].nodes)
    {
      InsertInStep(Ours(), heap.lists[h].nodes, p, w, |flushNodes| - 1);
      heap.InsertBehind(h, nodes[w], node);
    }

    /** The newest flusher's node goes behind the item's node. */
    method LinkBehind(h: nat, w: nat, node: SNode)
      requires Coupled() && h < |heap.lists| && w < |nodes| && heap.Free(node)
      requires flushNodes != [] && node == flushNodes[|flushNodes| - 1] && ItemNode(w) in model.queues[h].pending
      modifies this`model, heap.lists[h], node, nodes[w]
      ensures Coupled()
      ensures var p := old(model).queues[h].pending;
              model == WithPending(old(model), h, InsertAfter(p, ItemNode(w), FlushNode(|flushNodes| - 1)))
    {
      assert ListCoupled(h);
      ghost var p := model.queues[h].pending;
      InsertLinked(h, w, node, p);
      model := WithPending(model, h, InsertAfter(p, ItemNode(w), FlushNode(|flushNodes| - 1)));
      OtherLists(h);
    }

    method PrependLinked(h: nat, node: SNode, ghost p: seq<Node>)
      requires heap.Valid() && h < |heap.lists| && heap.Free(node) && Linked(heap.lists[h].nodes, p)
      requires flushNodes != [] && node == flushNodes[|flushNodes| - 1]
      modifies heap.lists[h], node
      ensures heap.Valid() && Linked(heap.lists[h].nodes, [FlushNode(|flushNodes| - 1)] + p)
      ensures forall k :: 0 <= k < |heap.lists| && k != h ==> heap.lists[k].nodes == old(heap.lists[k].nodes)
    {
      PrependInStep(Ours(), heap.lists[h].nodes, p, |flushNodes| - 1);
      heap.Prepend(h, node);
    }

    /** The newest flusher's node goes in front of the list. */
    method LinkInFront(h: nat, node: SNode)
      requires Coupled() && h < |heap.lists| && heap.Free(node)
      requires flushNodes != [] && node == flushNodes[|flushNodes| - 1]
      modifies this`model, heap.lists[h], node
      ensures Coupled()
      ensures model == WithPending(old(model), h, [FlushNode(|flushNodes| - 1)] + old(model).queues[h].pending)
    {
      assert ListCoupled(h);
      ghost var p := model.queues[h].pending;
      PrependLinked(h, node, p);
      model := WithPending(model, h, [FlushNode(|flushNodes| - 1)] + p);
      OtherLists(h);
    }

    /** Behind the item's node when that is queued, or else in front. */
    method LinkFlusher(h: nat, w: nat, queued: bool, node: SNode)
      requires Coupled() && h < |heap.lists| && w < |nodes| && heap.Free(node)
      requires flushNodes != [] && node == flushNodes[|flushNodes| - 1]
      requires queued ==> ItemNode(w) in model.queues[h].pending
      modifies this`model, heap.lists[h], node, nodes[w]
      ensures Coupled()
      ensures var p := old(model).queues[h].pending;
              model == WithPending(old(model), h, Joined(p, ItemNode(w), FlushNode(|flushNodes| - 1), queued))
    {
      if queued {
        LinkBehind(h, w, node);
      } else {
        LinkInFront(h, node);
      }
    }

    method RemoveLinked(h: nat, w: nat, ghost p: seq<Node>)
      requires Separate() && heap.Valid() && h < |heap.lists| && w < |nodes|
      requires ItemNode(w) in p && Linked(heap.lists[h].nodes, p)
      modifies heap.lists[h], heap.lists[h].nodes
      ensures heap.Valid() && Linked(heap.lists[h].nodes, Without(p, ItemNode(w)))
      ensures forall k :: 0 <= k < |heap.lists| && k != h ==> heap.lists[k].nodes == old(heap.lists[k].nodes)
    {
      WithoutInStep(Ours(), heap.lists[h].nodes, p, w);
      var _ := heap.FindAndRemove(h, nodes[w]);
    }

    /** sys_slist_find_and_remove of an item's node. */
    method Unlink(h: nat, w: nat)
      requires Coupled() && h < |heap.lists| && w < |nodes| && ItemNode(w) in model.queues[h].pending
      modifies this`model, heap.lists[h], heap.lists[h].nodes
      ensures Coupled() && model == WithPending(old(model), h, Without(old(model).queues[h].pending, ItemNode(w)))
    {
      assert ListCoupled(h);
      ghost var p := model.queues[h].pending;
      RemoveLinked(h, w, p);
      model := WithPending(model, h, Without(p, ItemNode(w)));
      OtherLists(h);
    }

    method GetLinked(h: nat, ghost p: seq<Node>) returns (node: SNode)
      requires heap.Valid() && h < |heap.lists| && p != [] && Linked(heap.lists[h].nodes, p)
      modifies heap.lists[h]
      ensures heap.Valid() && Stands(node, p[0]) && Linked(heap.lists[h].nodes, p[1..])
      ensures forall k :: 0 <= k < |heap.lists| && k != h ==> heap.lists[k].nodes == old(heap.lists[k].nodes)
    {
      TailInStep(Ours(), heap.lists[h].nodes, p);
      node := heap.Get(h);
    }

    /** sys_slist_get of a list that is not empty. */
    method PopHead(h: nat) returns (node: SNode)
      requires Coupled() && h < |heap.lists| && model.queues[h].pending != []
      modifies this`model, heap.lists[h]
      ensures Coupled() && Stands(node, old(model).queues[h].pending[0])
      ensures model == WithPending(old(model), h, old(model).queues[h].pending[1..])
    {
      assert ListCoupled(h);
      ghost var p := model.queues[h].pending;
      node := GetLinked(h, p);
      model := WithPending(model, h, p[1..]);
      OtherLists(h);
    }

    /** sys_slist_get at the head of the worker's loop. */
    method Pop(h: nat) returns (node: SNode?)
      requires Coupled() && h < |heap.lists|
      modifies this`model, heap.lists[h]
      ensures Coupled()
      ensures old(model).queues[h].pending == [] ==> node == null && model == old(model)
      ensures old(model).queues[h].pending != [] ==>
                node != null && Stands(node, old(model).queues[h].pending[0])
                && model == WithPending(old(model), h, old(model).queues[h].pending[1..])
    {
      assert ListCoupled(h);
      if heap.lists[h].head == null {
        node := null;
      } else {
        node := PopHead(h);
      }
    }

    /** drainq.put_nonblocking(1). */
    method PutDrained(h: nat)
      requires Coupled() && h < |heap.lists|
      modifies this`model, channels.slots[|heap.lists| + h], channels.slots[|heap.lists| + h].buffer
      ensures Coupled()
      ensures var qq := old(model).queues[h];
              model == SetQueue(old(model), h, qq.(drainq := Ring.Put(1, true, qq.drainq, 1)))
    {
      assert ChannelsCoupled(h);
      channels.Put(|heap.lists| + h, 1);
      model := SetQueue(model, h, model.queues[h].(drainq := Ring.Put(1, true, model.queues[h].drainq, 1)));
      OtherChannels(h);
    }

    method ClearList(h: nat)
      requires Coupled() && h < |heap.lists| && model.queues[h].pending == []
      modifies heap.lists[h]
      ensures Coupled()
    {
      assert ListCoupled(h);
      heap.Init(h);
      OtherLists(h);
    }

    method ClearChannels(h: nat)
      requires Coupled() && h < |heap.lists|
      modifies this`model, channels.slots[h], channels.slots[|heap.lists| + h]
      ensures Coupled() && model == SetQueue(old(model), h, old(model).queues[h].(notifyq := [], drainq := []))
    {
      assert ChannelsCoupled(h);
      channels.Clear(h);
      channels.Clear(|heap.lists| + h);
      model := SetQueue(model, h, model.queues[h].(notifyq := [], drainq := []));
      OtherChannels(h);
    }

    // ---------------------------------------------------------------- the steps

    /** submit_locked: the node joins the list behind, and the worker is notified. */
    method Submit(h: nat, w: nat)
      requires Valid() && CanEnqueue(model, h, w)
      modifies this`model, heap.lists[h], nodes[w], Nodes(heap.lists[h].tail)
      modifies channels.slots[h], channels.slots[h].buffer
      ensures Valid() && model == Enqueue(old(model), h, w)
    {
      ghost var s := model;
      EnqueueKeeps(s, h, w);
      Unlinked(w);
      Push(h, w);
      Notify(h);
      Relabel(Enqueue(s, h, w));
    }

    /** A new flusher joins list h, whose worker is notified. */
    method AddFlusher(h: nat, w: nat, queued: bool, node: SNode, ghost fl: Flusher)
      requires Coupled() && h < |heap.lists| && w < |nodes| && heap.Free(node) && node !in nodes && node !in flushNodes
      requires queued ==> ItemNode(w) in model.queues[h].pending
      modifies this`model, this`flushNodes, heap.lists[h], node, nodes[w], channels.slots[h], channels.slots[h].buffer
      ensures Coupled() && flushNodes == old(flushNodes) + [node]
      ensures |model.items| == |old(model).items| && |model.flushers| == |old(model).flushers| + 1
      ensures var qq, n := old(model).queues[h], FlushNode(|old(model).flushers|);
              model.queues ==
              old(model).queues[h := Notified(qq.(pending := Joined(qq.pending, ItemNode(w), n, queued)))]
    {
      Adopt(node, fl);
      LinkFlusher(h, w, queued, node);
      Notify(h);
    }

    lemma Flushed(s: State, h: nat, w: nat)
      requires FlushDefined(s, w) && s.items[w].owner == Some(h)
      requires s.items[w].flags.queued || s.items[w].flags.running
      ensures var t, p, n := FlushLocked(s, w).s, s.queues[h].pending, FlushNode(|s.flushers|);
              var p' := Joined(p, ItemNode(w), n, s.items[w].flags.queued);
              && t.queues == s.queues[h := Notified(s.queues[h].(pending := p'))]
              && |t.items| == |s.items| && |t.flushers| == |s.flushers| + 1
    {
    }

    /** flusher_locked and the notification behind it. */
    method Flush(h: nat, w: nat, queued: bool, node: SNode)
      requires Valid() && CanFlush(model, w) && FlushDefined(model, w) && model.items[w].owner == Some(h)
      requires queued == model.items[w].flags.queued && heap.Free(node) && node !in nodes && node !in flushNodes
      modifies this`model, this`flushNodes, heap.lists[h], node, nodes[w], channels.slots[h], channels.slots[h].buffer
      ensures Valid() && model == FlushLocked(old(model), w).s && flushNodes == old(flushNodes) + [node]
    {
      ghost var s := model;
      FlushKeeps(s, w);
      AddFlusher(h, w, queued, node, Flusher(h, w, s.items[w].submitted, !queued, false));
      Flushed(s, h, w);
      Relabel(FlushLocked(s, w).s);
    }

    /** remove_locked of a queued item. */
    method Cancel(h: nat, w: nat)
      requires Valid() && CancelDefined(model, w) && model.items[w].flags.queued && model.items[w].owner == Some(h)
      modifies this`model, heap.lists[h], heap.lists[h].nodes
      ensures Valid() && model == Unqueue(old(model), w)
    {
      ghost var s := model;
      UnqueueKeeps(s, w);
      assert ItemPlaced(s, w);
      Unlink(h, w);
      Relabel(Unqueue(s, w));
    }

    /** The list and channel work of the worker's turn; the answer is the node that it takes, if there is one. */
    method Turn(h: nat, drain: bool) returns (node: SNode?)
      requires Valid() && WellFormed(model) && Enabled(model, WorkerTurn(h)) && drain == model.queues[h].flags.drain
      modifies this`model, heap.lists[h], channels.slots[|heap.lists| + h], channels.slots[|heap.lists| + h].buffer
      ensures Valid() && model == TurnLocked(old(model), h)
      ensures node != null <==> model.queues[h].pc.Running?
      ensures node != null ==> Stands(node, model.queues[h].pc.node)
    {
      ghost var s := model;
      TurnKeeps(s, h);
      node := Pop(h);
      if node == null && drain {
        PutDrained(h);
      }
      Relabel(TurnLocked(s, h));
    }

    /** The notification of a drain that has to wait. */
    method Drain(h: nat, ghost plug: bool)
      requires Valid() && WellFormed(model) && Enabled(model, M.Drain(h, plug))
      requires Next(model, M.Drain(h, plug)).reply == Nothing
      modifies this`model, channels.slots[h], channels.slots[h].buffer
      ensures Valid() && model == Next(old(model), M.Drain(h, plug)).s
    {
      ghost var s := model;
      StepKeepsInv(s, M.Drain(h, plug));
      Notify(h);
      Relabel(Next(s, M.Drain(h, plug)).s);
    }

    /** The notification of a stop. */
    method Stop(h: nat)
      requires Valid() && WellFormed(model) && Enabled(model, M.Stop(h)) && Next(model, M.Stop(h)).reply == Nothing
      modifies this`model, channels.slots[h], channels.slots[h].buffer
      ensures Valid() && model == Next(old(model), M.Stop(h)).s
    {
      ghost var s := model;
      StepKeepsInv(s, M.Stop(h));
      Notify(h);
      Relabel(Next(s, M.Stop(h)).s);
    }

    /** notifyq.get of the waiting worker. */
    method Wake(h: nat)
      requires Valid() && WellFormed(model) && Enabled(model, WorkerWake(h))
      modifies this`model, channels.slots[h], channels.slots[h].buffer
      ensures Valid() && model == WakeUp(old(model), h)
    {
      StepKeepsInv(model, WorkerWake(h));
      assert ChannelsCoupled(h);
      var _ := channels.Get(h);
      model := WakeUp(model, h);
      OtherChannels(h);
    }

    /** drainq.get of a waiting drain caller. */
    method DrainGet(h: nat) returns (ret: int)
      requires Valid() && WellFormed(model) && Enabled(model, DrainReturn(h))
      modifies this`model, channels.slots[|heap.lists| + h], channels.slots[|heap.lists| + h].buffer
      ensures Valid() && Outcome(model, Code(ret)) == DrainReturned(old(model), h)
    {
      StepKeepsInv(model, DrainReturn(h));
      assert ChannelsCoupled(h);
      ret := channels.Get(|heap.lists| + h);
      model := DrainReturned(model, h).s;
      OtherChannels(h);
    }

    /** start empties the list and both channels. */
    method Start(h: nat, ghost noYield: bool)
      requires Valid() && WellFormed(model) && Enabled(model, M.Start(h, noYield))
      modifies this`model, heap.lists[h], channels.slots[h], channels.slots[|heap.lists| + h]
      ensures Valid() && model == Next(old(model), M.Start(h, noYield)).s
    {
      ghost var s := model;
      StepKeepsInv(s, M.Start(h, noYield));
      assert QueueLocal(s.queues[h]);
      ClearList(h);
      ClearChannels(h);
      Relabel(Next(s, M.Start(h, noYield)).s);
    }
  }

  /** The list of the synchronous cancellers. */
  class CancelList {
    const list: SList
    /** The item that the canceller around a node waits for, which the source finds by container_of. */
    var itemOf: map<SNode, nat>

    constructor (list: SList)
      ensures this.list == list && itemOf == map[]
    {
      this.list, itemOf := list, map[];
    }

    ghost predicate Valid()
      reads this, list, list.nodes
    {
      list.Valid() && forall i :: 0 <= i < |list.nodes| ==> list.nodes[i] in itemOf
    }

    /** The items that are waited for, oldest canceller first. */
    ghost function Items(): seq<nat>
      reads this, list, list.nodes
      requires Valid()
    {
      seq(|list.nodes|, i requires 0 <= i < |list.nodes| reads this, list, list.nodes requires Valid() =>
        itemOf[list.nodes[i]])
    }

    /** init_canceller. */
    method Register(node: SNode, w: nat)
      requires Valid() && node !in list.nodes
      modifies this, list, node, Nodes(list.tail)
      ensures Valid() && list.nodes == old(list.nodes) + [node] && Items() == old(Items()) + [w]
    {
      list.Append(node);
      itemOf := itemOf[node := w];
    }

    /** The loop of finalize_cancel_locked: the node of the oldest canceller of the item is unlinked and answered. */
    method ReleaseOldest(w: nat) returns (node: SNode?, ghost at: nat)
      requires Valid()
      modifies list, list.nodes
      ensures Valid() && at <= |old(Items())| && w !in old(Items())[..at]
      ensures at == |old(Items())| ==> node == null && list.nodes == old(list.nodes)
      ensures at < |old(Items())| ==>
                && old(Items())[at] == w && node == old(list.nodes)[at]
                && list.nodes == old(list.nodes)[..at] + old(list.nodes)[at + 1..]
                && Items() == old(Items())[..at] + old(Items())[at + 1..]
    {
      var prev: SNode? := null;
      node, at := list.head, 0;
      while node != null
        invariant Valid() && list.nodes == old(list.nodes) && itemOf == old(itemOf) && at <= |list.nodes|
        invariant node == (if at < |list.nodes| then list.nodes[at] else null)
        invariant prev == (if at == 0 then null else list.nodes[at - 1])
        invariant w !in Items()[..at]
        decreases |list.nodes| - at
      {
        if itemOf[node] == w {
          list.Remove(prev, node, at);
          return;
        }
        prev, node, at := node, node.next, at + 1;
      }
    }
  }
}
