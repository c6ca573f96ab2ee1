/**
 The scheduler's container: one FIFO queue per priority level and a two-level bitmap that says which queues are
 non-empty. It stands for the plain sequence of ready items in the order they were added.
 */
module SchedContainer {
  import opened Bits
  import opened Seqs

  /** Number of priority levels: a build option. */
  type PrioCount = n: nat | 8 <= n <= 1024 witness 64

  const PRIO_NUM: PrioCount

  /** Words of the second-level map: `lang_bits_to_words`. */
  const MAP_WORDS: nat := (PRIO_NUM + 31) / 32

  type Item = nat

  datatype Entry = Entry(item: Item, prio: nat)

  // The plain sequence

  /** The items of one priority level, in order of arrival. */
  function Level(order: seq<Entry>, p: nat): seq<Item> {
    if order == [] then []
    else
      var last := order[|order| - 1];
      Level(order[..|order| - 1], p) + (if last.prio == p then [last.item] else [])
  }

  function Drop(order: seq<Entry>, item: Item): seq<Entry> {
    if order == [] then []
    else
      var last := order[|order| - 1];
      if last.item == item then order[..|order| - 1] else Drop(order[..|order| - 1], item) + [last]
  }

  /** The earliest-added entry among those of minimal priority number. */
  ghost predicate IsBest(order: seq<Entry>, i: int) {
    && 0 <= i < |order|
    && (forall j | 0 <= j < |order| :: order[i].prio <= order[j].prio)
    && (forall j | 0 <= j < i :: order[i].prio < order[j].prio)
  }

  ghost predicate UniqueItems(order: seq<Entry>) {
    forall i, j | 0 <= i < j < |order| :: order[i].item != order[j].item
  }

  lemma LevelAdd(order: seq<Entry>, e: Entry, p: nat)
    ensures Level(order + [e], p) == Level(order, p) + (if e.prio == p then [e.item] else [])
  {
    assert (order + [e])[..|order|] == order;
  }

  lemma {:induction false} LevelMembers(order: seq<Entry>, p: nat, item: Item)
    ensures item in Level(order, p) <==> exists i :: 0 <= i < |order| && order[i] == Entry(item, p)
  {
    if order != [] {
      var front, last := order[..|order| - 1], order[|order| - 1];
      LevelMembers(front, p, item);
      if item in Level(order, p) {
        if item in Level(front, p) {
          var i :| 0 <= i < |front| && front[i] == Entry(item, p);
          assert order[i] == Entry(item, p);
        } else {
          assert order[|order| - 1] == Entry(item, p);
        }
      }
      if i :| 0 <= i < |order| && order[i] == Entry(item, p) {
        if i < |front| {
          assert front[i] == Entry(item, p);
        }
      }
    }
  }

  lemma {:induction false} LevelUnique(order: seq<Entry>, p: nat)
    requires UniqueItems(order)
    ensures NoDuplicates(Level(order, p))
  {
    if order != [] {
      var front, last := order[..|order| - 1], order[|order| - 1];
      LevelUnique(front, p);
      LevelMembers(front, p, last.item);
    }
  }

  /** Dropping an item removes it from its own level and leaves the others alone. */
  lemma {:induction false} LevelDrop(order: seq<Entry>, item: Item, p: nat)
    requires UniqueItems(order)
    ensures Level(Drop(order, item), p) == Without(Level(order, p), item)
  {
    if order != [] {
      var front, last := order[..|order| - 1], order[|order| - 1];
      LevelDrop(front, item, p);
      if last.item == item {
        LevelMembers(front, p, item);
        if last.prio == p {
          WithoutSnoc(Level(front, p), item, item);
        } else {
          assert Level(order, p) == Level(front, p);
          WithoutAbsent(Level(front, p), item);
        }
      } else {
        LevelAdd(Drop(front, item), last, p);
        if last.prio == p {
          WithoutSnoc(Level(front, p), last.item, item);
        } else {
          assert Level(order, p) == Level(front, p);
        }
      }
    }
  }

  lemma {:induction false} DropKeeps(order: seq<Entry>, item: Item)
    requires UniqueItems(order)
    ensures UniqueItems(Drop(order, item))
    ensures forall e :: e in Drop(order, item) <==> e in order && e.item != item
  {
    if order != [] {
      var front, last := order[..|order| - 1], order[|order| - 1];
      assert order == front + [last];
      DropKeeps(front, item);
      assert forall e | e in front :: e.item != last.item;
      var d := Drop(front, item);
      assert forall i | 0 <= i < |d| :: d[i] in d;
    }
  }

  lemma EmptyLevel(order: seq<Entry>, p: nat)
    requires order != [] && Level(order, p) == []
    ensures Level(order[..|order| - 1], p) == [] && order[|order| - 1].prio != p
  {
  }

  /** Where the first item of the lowest non-empty level is in the sequence. */
  lemma {:induction false} LowestLevelIsBest(order: seq<Entry>, p: nat) returns (i: int)
    requires Level(order, p) != [] && forall q | 0 <= q < p :: Level(order, q) == []
    ensures IsBest(order, i) && order[i] == Entry(Level(order, p)[0], p)
  {
    var front, last := order[..|order| - 1], order[|order| - 1];
    assert order == front + [last];
    forall q | 0 <= q < p ensures Level(front, q) == [] {
      EmptyLevel(order, q);
    }
    if last.prio < p {
      EmptyLevel(order, last.prio);
    }
    if Level(front, p) == [] {
      i := |order| - 1;
      forall j | 0 <= j < i ensures p < order[j].prio {
        LevelMembers(front, order[j].prio, order[j].item);
        assert front[j] == Entry(order[j].item, order[j].prio);
      }
    } else {
      i := LowestLevelIsBest(front, p);
      assert order[i] == front[i];
      assert forall j | 0 <= j < |front| :: order[j] == front[j];
    }
  }

  // The container

  function Div(prio: nat): nat { prio / 32 }

  function Mod(prio: nat): nat { prio % 32 }

  ghost predicate QueueOk(order: seq<Entry>, queues: seq<seq<Item>>, map2: seq<nat>, p: nat)
    requires |queues| == PRIO_NUM && |map2| == MAP_WORDS && p < PRIO_NUM
  {
    queues[p] == Level(order, p) && (Bit(map2[Div(p)], Mod(p)) <==> queues[p] != [])
  }

  ghost predicate WordOk(map1: nat, map2: seq<nat>, w: nat)
    requires |map2| == MAP_WORDS && w < MAP_WORDS
  {
    Bit(map1, w) <==> map2[w] != 0
  }

  /** Both bitmap levels agree with the queues, and the queues with the sequence. */
  ghost predicate Agrees(order: seq<Entry>, queues: seq<seq<Item>>, map1: nat, map2: seq<nat>) {
    && UniqueItems(order) && (forall e | e in order :: e.prio < PRIO_NUM)
    && |queues| == PRIO_NUM && |map2| == MAP_WORDS
    && (forall p: nat {:trigger QueueOk(order, queues, map2, p)} | p < PRIO_NUM :: QueueOk(order, queues, map2, p))
    && (forall w: nat {:trigger WordOk(map1, map2, w)} | w < MAP_WORDS :: WordOk(map1, map2, w))
    && (forall i: nat | i >= MAP_WORDS :: !Bit(map1, i))
    && (forall w, i: nat | 0 <= w < MAP_WORDS && Bit(map2[w], i) :: i < 32 && 32 * w + i < PRIO_NUM)
  }

  lemma HasBit(w: nat, k: nat)
    requires Bit(w, k)
    ensures w != 0
  {
    NoBitsOfZero(k);
  }

  lemma AddAgrees(order: seq<Entry>, queues: seq<seq<Item>>, map1: nat, map2: seq<nat>, e: Entry)
    requires Agrees(order, queues, map1, map2) && e.prio < PRIO_NUM
    requires forall x | x in order :: x.item != e.item
    ensures Agrees(order + [e], queues[e.prio := queues[e.prio] + [e.item]], Or(map1, Pow2(Div(e.prio))),
                   map2[Div(e.prio) := Or(map2[Div(e.prio)], Pow2(Mod(e.prio)))])
  {
    var queues' := queues[e.prio := queues[e.prio] + [e.item]];
    var map2' := map2[Div(e.prio) := Or(map2[Div(e.prio)], Pow2(Mod(e.prio)))];
    assert forall i | 0 <= i < |order| :: order[i] in order;
    forall p: nat | p < PRIO_NUM ensures QueueOk(order + [e], queues', map2', p) {
      assert QueueOk(order, queues, map2, p);
      LevelAdd(order, e, p);
      SetBit(map2[Div(e.prio)], Mod(e.prio), Mod(p));
    }
    forall w: nat | w < MAP_WORDS ensures WordOk(Or(map1, Pow2(Div(e.prio))), map2', w) {
      assert WordOk(map1, map2, w);
      SetBit(map1, Div(e.prio), w);
      SetBit(map2[Div(e.prio)], Mod(e.prio), Mod(e.prio));
      HasBit(map2'[Div(e.prio)], Mod(e.prio));
    }
    forall i: nat | i >= MAP_WORDS ensures !Bit(Or(map1, Pow2(Div(e.prio))), i) {
      SetBit(map1, Div(e.prio), i);
    }
    forall w, i: nat {:trigger Bit(map2'[w], i)} | 0 <= w < MAP_WORDS && Bit(map2'[w], i)
      ensures i < 32 && 32 * w + i < PRIO_NUM {
      SetBit(map2[Div(e.prio)], Mod(e.prio), i);
    }
  }

  /** The bitmap words after the queue of a level changed to `left`. */
  function ClearedMap2(map2: seq<nat>, p: nat, left: seq<Item>): seq<nat>
    requires |map2| == MAP_WORDS && p < PRIO_NUM
  {
    if left == [] then map2[Div(p) := AndNot(map2[Div(p)], Pow2(Mod(p)))] else map2
  }

  function ClearedMap1(map1: nat, map2: seq<nat>, p: nat, left: seq<Item>): nat
    requires |map2| == MAP_WORDS && p < PRIO_NUM
  {
    if left == [] && ClearedMap2(map2, p, left)[Div(p)] == 0 then AndNot(map1, Pow2(Div(p))) else map1
  }

  lemma RemoveAgrees(order: seq<Entry>, queues: seq<seq<Item>>, map1: nat, map2: seq<nat>, e: Entry)
    requires Agrees(order, queues, map1, map2) && e in order
    ensures e.prio < PRIO_NUM
    ensures var left := Without(queues[e.prio], e.item);
            Agrees(Drop(order, e.item), queues[e.prio := left],
                   ClearedMap1(map1, map2, e.prio, left), ClearedMap2(map2, e.prio, left))
  {
    var left := Without(queues[e.prio], e.item);
    var map1', map2' := ClearedMap1(map1, map2, e.prio, left), ClearedMap2(map2, e.prio, left);
    DropKeeps(order, e.item);
    var order', queues' := Drop(order, e.item), queues[e.prio := left];
    forall p: nat {:trigger QueueOk(order', queues', map2', p)} | p < PRIO_NUM
      ensures QueueOk(order', queues', map2', p)
    {
      RemoveQueueOk(order, queues, map1, map2, e, p);
    }
    assert QueueOk(order, queues, map2, e.prio);
    LevelMembers(order, e.prio, e.item);
    HasBit(map2[Div(e.prio)], Mod(e.prio));
    forall w: nat | w < MAP_WORDS ensures WordOk(map1', map2', w) {
      assert WordOk(map1, map2, w) && WordOk(map1, map2, Div(e.prio));
      ClearBit(map1, Div(e.prio), w);
    }
    forall i: nat {:trigger Bit(map1', i)} | i >= MAP_WORDS ensures !Bit(map1', i) {
      ClearBit(map1, Div(e.prio), i);
    }
    forall w, i: nat {:trigger Bit(map2'[w], i)} | 0 <= w < MAP_WORDS && Bit(map2'[w], i)
      ensures i < 32 && 32 * w + i < PRIO_NUM {
      ClearBit(map2[Div(e.prio)], Mod(e.prio), i);
    }
  }

  lemma RemoveQueueOk(order: seq<Entry>, queues: seq<seq<Item>>, map1: nat, map2: seq<nat>, e: Entry, p: nat)
    requires Agrees(order, queues, map1, map2) && e in order && p < PRIO_NUM
    ensures QueueOk(Drop(order, e.item), queues[e.prio := Without(queues[e.prio], e.item)],
                    ClearedMap2(map2, e.prio, Without(queues[e.prio], e.item)), p)
  {
    assert QueueOk(order, queues, map2, p) && QueueOk(order, queues, map2, e.prio);
    RemoveLevel(order, e, p);
    ClearBit(map2[Div(e.prio)], Mod(e.prio), Mod(p));
  }

  /** Dropping an entry changes its own level and no other. */
  lemma RemoveLevel(order: seq<Entry>, e: Entry, p: nat)
    requires UniqueItems(order) && e in order
    ensures Level(Drop(order, e.item), p) == if p == e.prio then Without(Level(order, p), e.item) else Level(order, p)
  {
    LevelDrop(order, e.item, p);
    if p != e.prio {
      LevelMembers(order, p, e.item);
      WithoutAbsent(Level(order, p), e.item);
    }
  }

  lemma DivMod(w: nat, b: nat)
    requires b < 32
    ensures Div(32 * w + b) == w && Mod(32 * w + b) == b
  {
  }

  lemma SomeWord(order: seq<Entry>, queues: seq<seq<Item>>, map1: nat, map2: seq<nat>)
    requires Agrees(order, queues, map1, map2) && order != []
    ensures map1 != 0 && Ctz(map1) < MAP_WORDS && map2[Ctz(map1)] != 0
  {
    var e := order[0];
    assert e in order && QueueOk(order, queues, map2, e.prio);
    LevelMembers(order, e.prio, e.item);
    HasBit(map2[Div(e.prio)], Mod(e.prio));
    assert WordOk(map1, map2, Div(e.prio));
    HasBit(map1, Div(e.prio));
    assert WordOk(map1, map2, Ctz(map1));
  }

  lemma SomeBits(order: seq<Entry>, queues: seq<seq<Item>>, map1: nat, map2: seq<nat>)
    requires Agrees(order, queues, map1, map2) && order != []
    ensures map1 != 0 && Ctz(map1) < MAP_WORDS && map2[Ctz(map1)] != 0
    ensures var p := 32 * Ctz(map1) + Ctz(map2[Ctz(map1)]); p < PRIO_NUM && Ctz(map2[Ctz(map1)]) < 32 && queues[p] != []
  {
    SomeWord(order, queues, map1, map2);
    var w := Ctz(map1);
    var b := Ctz(map2[w]);
    assert b < 32 && 32 * w + b < PRIO_NUM;
    DivMod(w, b);
    assert QueueOk(order, queues, map2, 32 * w + b);
  }

  /** The two trailing-zero counts lead to the first item of the lowest non-empty level. */
  lemma GetIsBest(order: seq<Entry>, queues: seq<seq<Item>>, map1: nat, map2: seq<nat>) returns (i: int)
    requires Agrees(order, queues, map1, map2) && order != []
    ensures map1 != 0 && Ctz(map1) < MAP_WORDS && map2[Ctz(map1)] != 0
    ensures var p := 32 * Ctz(map1) + Ctz(map2[Ctz(map1)]);
            p < PRIO_NUM && queues[p] != [] && IsBest(order, i) && order[i] == Entry(queues[p][0], p)
  {
    SomeBits(order, queues, map1, map2);
    var p := 32 * Ctz(map1) + Ctz(map2[Ctz(map1)]);
    assert QueueOk(order, queues, map2, p);
    forall q | 0 <= q < p ensures Level(order, q) == [] {
      BelowIsEmpty(order, queues, map1, map2, q);
    }
    i := LowestLevelIsBest(order, p);
  }

  lemma BelowIsEmpty(order: seq<Entry>, queues: seq<seq<Item>>, map1: nat, map2: seq<nat>, q: nat)
    requires Agrees(order, queues, map1, map2) && q < PRIO_NUM && map1 != 0 && Ctz(map1) < MAP_WORDS
    requires map2[Ctz(map1)] != 0 && q < 32 * Ctz(map1) + Ctz(map2[Ctz(map1)])
    requires Ctz(map2[Ctz(map1)]) < 32
    ensures Level(order, q) == []
  {
    assert QueueOk(order, queues, map2, q) && WordOk(map1, map2, Div(q));
    if Div(q) < Ctz(map1) {
      NoBitsOfZero(Mod(q));
    } else {
      assert Mod(q) < Ctz(map2[Ctz(map1)]);
    }
  }

  class Container {
    const queues: array<seq<Item>>
    var map1: nat
    const map2: array<nat>
    ghost var order: seq<Entry>

    ghost predicate Valid()
      reads this, queues, map2
    {
      Agrees(order, queues[..], map1, map2[..])
    }

    constructor ()
      ensures Valid() && order == []
      ensures fresh(queues) && fresh(map2)
    {
      queues := new seq<Item>[PRIO_NUM](_ => []);
      map2 := new nat[MAP_WORDS](_ => 0);
      map1 := 0;
      order := [];
      new;
      forall i: nat ensures !Bit(0, i) {
        NoBitsOfZero(i);
      }
      assert forall p: nat | p < PRIO_NUM :: QueueOk(order, queues[..], map2[..], p);
      assert forall w: nat | w < MAP_WORDS :: WordOk(map1, map2[..], w);
    }

    method Add(e: Entry)
      requires Valid() && e.prio < PRIO_NUM && forall x | x in order :: x.item != e.item
      modifies this, queues, map2
      ensures Valid() && order == old(order) + [e]
    {
      AddAgrees(order, queues[..], map1, map2[..], e);
      ghost var q, m := queues[..], map2[..];
      queues[e.prio] := queues[e.prio] + [e.item];
      map1 := Or(map1, Pow2(Div(e.prio)));
      map2[Div(e.prio)] := Or(map2[Div(e.prio)], Pow2(Mod(e.prio)));
      order := order + [e];
      assert queues[..] == q[e.prio := q[e.prio] + [e.item]];
      assert map2[..] == m[Div(e.prio) := Or(m[Div(e.prio)], Pow2(Mod(e.prio)))];
    }

    method Remove(e: Entry)
      requires Valid() && e in order
      modifies this, queues, map2
      ensures Valid() && order == Drop(old(order), e.item)
    {
      RemoveAgrees(order, queues[..], map1, map2[..], e);
      ghost var q, m := queues[..], map2[..];
      ghost var left := Without(q[e.prio], e.item);
      ghost var m1 := ClearedMap1(map1, m, e.prio, left);
      queues[e.prio] := Without(queues[e.prio], e.item);
      if queues[e.prio] == [] {
        map2[Div(e.prio)] := AndNot(map2[Div(e.prio)], Pow2(Mod(e.prio)));
        if map2[Div(e.prio)] == 0 {
          map1 := AndNot(map1, Pow2(Div(e.prio)));
        }
      }
      order := Drop(order, e.item);
      assert queues[..] == q[e.prio := left];
      assert map2[..] == ClearedMap2(m, e.prio, left) && map1 == m1;
    }

    /** The earliest-added of the ready items of highest priority. */
    method Get() returns (item: Item)
      requires Valid() && order != []
      ensures exists i :: IsBest(order, i) && item == order[i].item
    {
      ghost var i := GetIsBest(order, queues[..], map1, map2[..]);
      var index1 := Ctz(map1);
      var index2 := Ctz(map2[index1]);
      item := queues[32 * index1 + index2][0];
      assert IsBest(order, i);
    }
  }
}
