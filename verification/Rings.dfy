/** The daemon's items and the circular doubly-linked lists they are threaded on.  A list is
    a head item that belongs to the queue itself and the items between its `next` and its
    `prev`; nothing but the head marks where the circle ends. */
module Rings {
  import opened Protocol
  import opened QueueSpec
  import opened Seqs

  class Item {
    const req: Request
    const mx: int := Corner(req.x)
    const my: int := Corner(req.y)
    var next: Item?
    var prev: Item?
    var fd: int
    var duplicates: Item?
    var inQueue: Queue
    var originatedQueue: Queue

    /** rx_request's fresh item; `next`, `prev` and the queue marks are not set yet. */
    constructor (req: Request, fd: int)
      ensures this.req == req && this.fd == (if req.cmd == CmdDirty then FD_INVALID else fd)
      ensures duplicates == null
    {
      this.req := req;
      this.fd := if req.cmd == CmdDirty then FD_INVALID else fd;
      this.duplicates := null;
      this.next, this.prev := null, null;
      this.inQueue, this.originatedQueue := DUPLICATE, DUPLICATE;
    }
  }

  ghost function Nodes(h: Item, l: seq<Item>): set<Item> {
    {h} + set x | x in l
  }

  /** The items `l`, in order, form the circle of head `h`. */
  ghost predicate Ring(h: Item, l: seq<Item>)
    reads Nodes(h, l)`next, Nodes(h, l)`prev
  {
    && h.next == (if |l| == 0 then h else l[0])
    && h.prev == (if |l| == 0 then h else l[|l| - 1])
    && (forall i {:trigger l[i].next} :: 0 <= i < |l| ==> l[i].next == if i + 1 < |l| then l[i + 1] else h)
    && (forall i {:trigger l[i].prev} :: 0 <= i < |l| ==> l[i].prev == if i > 0 then l[i - 1] else h)
  }

  /** Link `item` in before the head, that is at the tail. */
  method Append(h: Item, item: Item, ghost l: seq<Item>)
    requires Ring(h, l) && NoDup(l) && h !in l && item !in l && item != h
    modifies (Nodes(h, l) + {item})`next, (Nodes(h, l) + {item})`prev
    ensures Ring(h, l + [item])
  {
    item.next := h;
    item.prev := h.prev;
    item.prev.next := item;
    h.prev := item;
  }

  /** Link `item` in right after the head. */
  method PushFront(h: Item, item: Item, ghost l: seq<Item>)
    requires Ring(h, l) && NoDup(l) && h !in l && item !in l && item != h
    modifies (Nodes(h, l) + {item})`next, (Nodes(h, l) + {item})`prev
    ensures Ring(h, [item] + l)
  {
    item.prev := h;
    item.next := h.next;
    h.next.prev := item;
    h.next := item;
  }

  /** Take `item`, the k-th of its list, out of the circle. */
  method Unlink(item: Item, ghost h: Item, ghost l: seq<Item>, ghost k: nat)
    requires Ring(h, l) && NoDup(l) && h !in l && k < |l| && l[k] == item
    modifies Nodes(h, l)`next, Nodes(h, l)`prev
    ensures Ring(h, l[..k] + l[k + 1..])
  {
    item.next.prev := item.prev;
    item.prev.next := item.next;
  }

  // ------------------------------------------------------------ several rings at once

  ghost function AllNodes(heads: seq<Item>, lists: seq<seq<Item>>): set<Item> {
    set q, x | 0 <= q < |heads| == |lists| && x in Nodes(heads[q], lists[q]) :: x
  }

  ghost predicate AllRings(heads: seq<Item>, lists: seq<seq<Item>>)
    reads AllNodes(heads, lists)`next, AllNodes(heads, lists)`prev
  {
    |heads| == |lists| && forall q {:trigger lists[q]} :: 0 <= q < |heads| ==> Ring(heads[q], lists[q])
  }

  /** No item is in two places, and none is a head. */
  ghost predicate Separate(heads: seq<Item>, lists: seq<seq<Item>>) {
    && |heads| == |lists|
    && (forall q {:trigger lists[q]} :: 0 <= q < |heads| ==> NoDup(lists[q]) && heads[q] !in lists[q])
    && (forall q, q' {:trigger lists[q], lists[q']} :: 0 <= q < q' < |heads| ==>
          Nodes(heads[q], lists[q]) !! Nodes(heads[q'], lists[q']))
  }

  method AppendTo(heads: seq<Item>, ghost lists: seq<seq<Item>>, q: nat, item: Item)
    requires AllRings(heads, lists) && Separate(heads, lists) && q < |heads|
    requires forall q' {:trigger lists[q']} :: 0 <= q' < |heads| ==> item !in Nodes(heads[q'], lists[q'])
    modifies (Nodes(heads[q], lists[q]) + {item})`next, (Nodes(heads[q], lists[q]) + {item})`prev
    ensures AllRings(heads, lists[q := lists[q] + [item]])
  {
    Append(heads[q], item, lists[q]);
  }

  method UnlinkFrom(heads: seq<Item>, ghost lists: seq<seq<Item>>, ghost q: nat, item: Item, ghost k: nat)
    requires AllRings(heads, lists) && Separate(heads, lists) && q < |heads| && k < |lists[q]| && lists[q][k] == item
    modifies Nodes(heads[q], lists[q])`next, Nodes(heads[q], lists[q])`prev
    ensures AllRings(heads, lists[q := lists[q][..k] + lists[q][k + 1..]])
  {
    Unlink(item, heads[q], lists[q], k);
  }

  method PushFrontTo(heads: seq<Item>, ghost lists: seq<seq<Item>>, q: nat, item: Item)
    requires AllRings(heads, lists) && Separate(heads, lists) && q < |heads|
    requires forall q' {:trigger lists[q']} :: 0 <= q' < |heads| ==> item !in Nodes(heads[q'], lists[q'])
    modifies (Nodes(heads[q], lists[q]) + {item})`next, (Nodes(heads[q], lists[q]) + {item})`prev
    ensures AllRings(heads, lists[q := [item] + lists[q]])
  {
    PushFront(heads[q], item, lists[q]);
  }

  lemma SeparateTail(heads: seq<Item>, lists: seq<seq<Item>>, q: nat)
    requires Separate(heads, lists) && q < |heads| && |lists[q]| > 0
    ensures var rest := lists[q := lists[q][1..]];
            && Separate(heads, rest)
            && forall q' {:trigger rest[q']} :: 0 <= q' < |heads| ==> lists[q][0] !in Nodes(heads[q'], rest[q'])
  {
    var rest := lists[q := lists[q][1..]];
    forall q' {:trigger rest[q']} | 0 <= q' < |heads|
      ensures lists[q][0] !in Nodes(heads[q'], rest[q']) && Nodes(heads[q'], rest[q']) <= Nodes(heads[q'], lists[q'])
    {
      assert lists[q][0] in Nodes(heads[q], lists[q]);
    }
  }

  /** Move the front item of list `q` to the front of list `r`. */
  method MoveFront(heads: seq<Item>, ghost lists: seq<seq<Item>>, ghost q: nat, r: nat, item: Item)
    requires AllRings(heads, lists) && Separate(heads, lists) && q < |heads| && r < |heads| && q != r
    requires |lists[q]| > 0 && lists[q][0] == item
    modifies Nodes(heads[q], lists[q])`next, Nodes(heads[q], lists[q])`prev
    modifies Nodes(heads[r], lists[r])`next, Nodes(heads[r], lists[r])`prev
    ensures AllRings(heads, lists[q := lists[q][1..]][r := [item] + lists[r]])
  {
    hide Ring, AllRings, NoDup;
    UnlinkFrom(heads, lists, q, item, 0);
    assert lists[q][..0] + lists[q][1..] == lists[q][1..];
    SeparateTail(heads, lists, q);
    assert item in Nodes(heads[q], lists[q]);
    PushFrontTo(heads, lists[q := lists[q][1..]], r, item);
  }
}
