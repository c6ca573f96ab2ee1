/**
 Intrusive circular lists: a head and the items linked to it, each holding pointers to both neighbours. Wait queues,
 priority queues, timer lists and free-block lists are all such rings; the other modules use the sequences of items
 that the operations here are specified by.
 */
module RtlQueue {
  import opened Seqs

  class Link {
    var next: Link?
    var prev: Link?

    constructor ()
      ensures next == null && prev == null
    {
      next := null;
      prev := null;
    }
  }

  /** Neighbour of position i, going round. */
  function After(ring: seq<Link>, i: int): Link
    requires 0 <= i < |ring|
  {
    if i + 1 < |ring| then ring[i + 1] else ring[0]
  }

  ghost predicate Joined(ring: seq<Link>, i: int)
    requires 0 <= i < |ring|
    reads ring
  {
    ring[i].next == After(ring, i) && After(ring, i).prev == ring[i]
  }

  /** The links of `ring`, in both directions, go exactly round the sequence. */
  ghost predicate Round(ring: seq<Link>)
    reads ring
  {
    NoDuplicates(ring) && forall i: int {:trigger Joined(ring, i)} | 0 <= i < |ring| :: Joined(ring, i)
  }

  /** The same, but for the link that leaves position k. */
  ghost predicate RoundExcept(ring: seq<Link>, k: int)
    reads ring
  {
    NoDuplicates(ring) && forall i: int {:trigger Joined(ring, i)} | 0 <= i < |ring| && i != k :: Joined(ring, i)
  }

  /** `items` are linked to `head`, in this order. */
  ghost predicate Queue(head: Link, items: seq<Link>)
    reads head, items
  {
    Round([head] + items)
  }

  predicate IsLinked(item: Link)
    reads item
  {
    item.next != null && item.prev != null
  }

  /** A ring into which one item was linked after position k. */
  lemma SplicedIn(ring: seq<Link>, longer: seq<Link>, k: nat, item: Link)
    requires RoundExcept(ring, k) && k < |ring| && item !in ring && longer == ring[..k + 1] + [item] + ring[k + 1..]
    requires ring[k].next == item && item.prev == ring[k] && item.next == After(ring, k) && After(ring, k).prev == item
    ensures Round(longer)
  {
    forall i | 0 <= i < |longer| ensures Joined(longer, i) {
      if i < k {
        assert Joined(ring, i);
      } else if i > k + 1 {
        assert Joined(ring, i - 1);
        assert longer[i] == ring[i - 1] && After(longer, i) == After(ring, i - 1);
      }
    }
  }

  /** A ring from which the item after position k was unlinked. */
  lemma CutOut(ring: seq<Link>, shorter: seq<Link>, k: nat)
    requires NoDuplicates(ring) && k + 1 < |ring| && shorter == ring[..k + 1] + ring[k + 2..]
    requires forall i: int {:trigger Joined(ring, i)} | 0 <= i < |ring| && i != k && i != k + 1 :: Joined(ring, i)
    requires ring[k].next == After(ring, k + 1) && After(ring, k + 1).prev == ring[k]
    ensures Round(shorter)
  {
    forall i | 0 <= i < |shorter| ensures Joined(shorter, i) {
      if i < k {
        assert Joined(ring, i);
      } else if i > k {
        assert Joined(ring, i + 1);
        assert shorter[i] == ring[i + 1] && After(shorter, i) == After(ring, i + 1);
      }
    }
  }

  method Init(head: Link)
    modifies head
    ensures Queue(head, [])
  {
    head.next := head;
    head.prev := head;
  }

  method Enqueue(head: Link, item: Link, ghost items: seq<Link>)
    requires Queue(head, items) && item != head && item !in items
    modifies head, item, items
    ensures Queue(head, items + [item])
  {
    ghost var ring := [head] + items;
    ghost var k := |ring| - 1;
    assert Joined(ring, k);
    item.next := head;
    item.prev := head.prev;
    item.prev.next := item;
    head.prev := item;
    forall i | 0 <= i < |ring| && i != k ensures Joined(ring, i) {
      assert old(Joined(ring, i));
    }
    assert [head] + (items + [item]) == ring[..k + 1] + [item] + ring[k + 1..];
    SplicedIn(ring, [head] + (items + [item]), k, item);
  }

  method Dequeue(head: Link, ghost items: seq<Link>) returns (item: Link?)
    requires Queue(head, items)
    modifies head, items
    ensures item == null <==> items == []
    ensures item != null ==> item == items[0] && Queue(head, items[1..]) && !IsLinked(item)
    ensures item == null ==> Queue(head, items)
  {
    ghost var ring := [head] + items;
    assert Joined(ring, 0);
    if head.next == head {
      assert items == [];
      return null;
    }
    item := head.next;
    assert item == ring[1] && Joined(ring, 1);
    item.next.prev := head;
    head.next := item.next;
    item.prev, item.next := null, null;
    forall i | 0 <= i < |ring| && i != 0 && i != 1 ensures Joined(ring, i) {
      assert old(Joined(ring, i));
    }
    assert [head] + items[1..] == ring[..1] + ring[2..];
    CutOut(ring, [head] + items[1..], 0);
  }

  /** Inserts after the member at position k of the ring, the head being position 0. */
  method Insert(head: Link, ghost k: nat, prev: Link, item: Link, ghost items: seq<Link>)
    requires Queue(head, items) && item != head && item !in items
    requires k <= |items| && prev == ([head] + items)[k]
    modifies head, item, items
    ensures Queue(head, items[..k] + [item] + items[k..])
  {
    ghost var ring := [head] + items;
    assert Joined(ring, k);
    item.prev := prev;
    item.next := prev.next;
    prev.next.prev := item;
    prev.next := item;
    forall i | 0 <= i < |ring| && i != k ensures Joined(ring, i) {
      assert old(Joined(ring, i));
    }
    ghost var longer := [head] + (items[..k] + [item] + items[k..]);
    assert longer == ring[..k + 1] + [item] + ring[k + 1..];
    SplicedIn(ring, longer, k, item);
  }

  /** Unlinks the item at position k, wherever it is in the queue, without going through the head. */
  method Remove(head: Link, item: Link, ghost k: nat, ghost items: seq<Link>)
    requires Queue(head, items) && k < |items| && item == items[k]
    modifies head, items
    ensures Queue(head, items[..k] + items[k + 1..])
    ensures !IsLinked(item)
  {
    ghost var ring := [head] + items;
    assert Joined(ring, k) && Joined(ring, k + 1);
    item.prev.next := item.next;
    item.next.prev := item.prev;
    item.prev, item.next := null, null;
    forall i | 0 <= i < |ring| && i != k && i != k + 1 ensures Joined(ring, i) {
      assert old(Joined(ring, i));
    }
    ghost var shorter := [head] + (items[..k] + items[k + 1..]);
    assert shorter == ring[..k + 1] + ring[k + 2..];
    CutOut(ring, shorter, k);
  }

  /** Moves the members of `src`, if any, to the end of `dst`; the links of `src` itself go stale. */
  method Copy(dst: Link, src: Link, ghost items: seq<Link>, ghost moved: seq<Link>)
    requires Queue(dst, items) && Queue(src, moved)
    requires dst != src && dst !in moved && src !in items
    requires forall i, j | 0 <= i < |items| && 0 <= j < |moved| :: items[i] != moved[j]
    modifies dst, src, items, moved
    ensures Queue(dst, items + moved)
  {
    ghost var ring, other := [dst] + items, [src] + moved;
    ghost var n := |ring|;
    assert Joined(other, 0) && Joined(other, |other| - 1) && Joined(ring, n - 1);
    dst.prev.next := src.next;
    src.next.prev := dst.prev;
    dst.prev := src.prev;
    src.prev.next := dst;
    ghost var joined := [dst] + (items + moved);
    assert forall i | 0 <= i < |joined| :: joined[i] == if i < n then ring[i] else other[i - n + 1];
    forall i | 0 <= i < |joined| ensures Joined(joined, i) {
      assert old(Joined(ring, if i < n then i else 0));
      assert old(Joined(other, if i < n then 0 else i - n + 1));
      assert moved == [] ==> joined == ring;
    }
  }
}
