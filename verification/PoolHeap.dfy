/**
 The pool as an abstract value: the blocks that tile the regions, and the segregated free lists.

 A block is named by its header address b. Its size word sits at b + 4 and its payload at b + 8, so the next
 physical block is at b + 4 + size, where the word holding that block's `prev_phys_block` is the last word of
 this block's payload.
 */
module PoolHeap {
  import opened Seqs
  import opened SizeClass

  const OVERHEAD := 4        // BLK_HEADER_OVERHEAD
  const START_OFFSET := 8    // BLK_START_OFFSET
  const HEADER_SIZE := 16    // sizeof(rtl_block_header_t)
  const NO_BLOCK := -1

  type Addr = nat

  /** `prev` is the physical predecessor, NO_BLOCK for the first block of a region. */
  datatype Block = Block(size: nat, free: bool, prev: int)

  /** `regions` maps the first block of every region to the region's payload bytes. */
  datatype Heap = Heap(blocks: map<Addr, Block>, lists: map<Class, seq<Addr>>, regions: map<Addr, nat>) {

    function Next(b: Addr): Addr
      requires b in blocks
    {
      b + OVERHEAD + blocks[b].size
    }

    predicate IsFree(b: int) {
      b in blocks && blocks[b].free
    }

    /** A free block, or the address that stands for none. */
    predicate IsFreeOr(b: Addr, none: Addr) {
      b == none || IsFree(b)
    }

    /** A block a caller holds: neither free nor the sentinel that ends a region. */
    predicate IsLive(b: int) {
      b in blocks && !blocks[b].free && blocks[b].size > 0
    }

    predicate PrevIsFree(b: Addr)
      requires b in blocks
    {
      IsFree(blocks[b].prev)
    }

    function List(c: Class): seq<Addr> {
      if c in lists then lists[c] else []
    }

    function ClassOf(b: Addr): Class
      requires b in blocks
    {
      MappingInsert(blocks[b].size)
    }

    function End(r: Addr): Addr
      requires r in regions
    {
      r + OVERHEAD + regions[r]
    }
  }

  // Invariant

  ghost predicate SizeOk(block: Block) {
    && block.size % 4 == 0
    && (block.size == 0 ==> !block.free)
    && (block.size > 0 ==> BLK_SIZE_MIN <= block.size)
  }

  ghost predicate NextOk(h: Heap, b: Addr)
    requires b in h.blocks
  {
    h.blocks[b].size > 0 ==> h.Next(b) in h.blocks && h.blocks[h.Next(b)].prev == b
  }

  ghost predicate PrevOk(h: Heap, b: Addr)
    requires b in h.blocks
  {
    var prev := h.blocks[b].prev;
    if prev == NO_BLOCK then b in h.regions
    else prev in h.blocks && h.blocks[prev].size > 0 && h.Next(prev) == b
  }

  ghost predicate BlockOk(h: Heap, b: Addr)
    requires b in h.blocks
  {
    b % 4 == 0 && SizeOk(h.blocks[b]) && NextOk(h, b) && PrevOk(h, b)
  }

  ghost predicate RegionOk(h: Heap, r: Addr)
    requires r in h.regions
  {
    && r in h.blocks && h.blocks[r].prev == NO_BLOCK && 0 < h.regions[r] < BLK_SIZE_MAX
    && h.End(r) in h.blocks && h.blocks[h.End(r)].size == 0
  }

  ghost predicate BlocksOk(h: Heap) {
    forall b {:trigger BlockOk(h, b)} | b in h.blocks :: BlockOk(h, b)
  }

  ghost predicate Apart(h: Heap) {
    forall b, c | b in h.blocks && c in h.blocks && b < c :: h.Next(b) <= c
  }

  ghost predicate RegionsOk(h: Heap) {
    && (forall r {:trigger RegionOk(h, r)} | r in h.regions :: RegionOk(h, r))
    && (forall r, s | r in h.regions && s in h.regions && r < s :: h.End(r) < s)
  }

  /** Tiling: blocks do not overlap, physical links agree in both directions, each region ends in a sentinel. */
  ghost predicate Shape(h: Heap) {
    BlocksOk(h) && Apart(h) && RegionsOk(h)
  }

  /** Every listed block is free and sits in the list of its size. */
  ghost predicate Listed(h: Heap) {
    && (forall c :: NoDuplicates(h.List(c)))
    && (forall c, b | b in h.List(c) :: b in h.blocks && h.blocks[b].free && h.ClassOf(b) == c)
  }

  /** Every free block is listed, except those in `off`, which are in no list. */
  ghost predicate Complete(h: Heap, off: set<Addr>) {
    && (forall b | b in h.blocks && h.blocks[b].free && b !in off :: b in h.List(h.ClassOf(b)))
    && (forall b | b in off :: h.IsFree(b) && b !in h.List(h.ClassOf(b)))
  }

  /** No two neighbours are free, except around the blocks in `off`. */
  ghost predicate Coalesced(h: Heap, off: set<Addr>) {
    forall b | b in h.blocks && h.blocks[b].free && b !in off :: h.IsFree(h.Next(b)) ==> h.Next(b) in off
  }

  /** The invariant inside an operation that holds the blocks `off` out of the lists. */
  ghost predicate InvOff(h: Heap, off: set<Addr>) {
    Shape(h) && Listed(h) && Complete(h, off) && Coalesced(h, off)
  }

  ghost predicate Inv(h: Heap) {
    InvOff(h, {})
  }

  // Steps

  function SetFree(h: Heap, b: Addr, free: bool): Heap
    requires b in h.blocks
  {
    h.(blocks := h.blocks[b := h.blocks[b].(free := free)])
  }

  function Insert(h: Heap, b: Addr): Heap
    requires b in h.blocks
  {
    h.(lists := h.lists[h.ClassOf(b) := [b] + h.List(h.ClassOf(b))])
  }

  function Remove(h: Heap, b: Addr): Heap
    requires b in h.blocks
  {
    h.(lists := h.lists[h.ClassOf(b) := Without(h.List(h.ClassOf(b)), b)])
  }

  /** The block after p disappears into p. */
  function Absorb(h: Heap, p: Addr): Heap
    requires CanAbsorb(h, p)
  {
    var b := h.Next(p);
    var n := h.Next(b);
    var grown := h.blocks[p].(size := h.blocks[p].size + h.blocks[b].size + OVERHEAD);
    h.(blocks := (h.blocks - {b})[p := grown][n := h.blocks[n].(prev := p)])
  }

  /** b keeps `size` bytes, the rest becomes a free block. */
  function Split(h: Heap, b: Addr, size: nat): Heap
    requires b in h.blocks && h.Next(b) in h.blocks && size + HEADER_SIZE <= h.blocks[b].size
  {
    var rest := b + OVERHEAD + size;
    var n := h.Next(b);
    h.(blocks := h.blocks[b := h.blocks[b].(size := size)]
                         [rest := Block(h.blocks[b].size - size - OVERHEAD, true, b)]
                         [n := h.blocks[n].(prev := rest)])
  }

  // Preservation of the tiling

  lemma SetFreeBlocksOk(h: Heap, b: Addr, free: bool)
    requires BlocksOk(h) && b in h.blocks && h.blocks[b].size > 0
    ensures BlocksOk(SetFree(h, b, free))
  {
    var g := SetFree(h, b, free);
    forall c | c in g.blocks ensures BlockOk(g, c) {
      assert BlockOk(h, c);
    }
  }

  lemma SetFreeRegionsOk(h: Heap, b: Addr, free: bool)
    requires RegionsOk(h) && b in h.blocks && h.blocks[b].size > 0
    ensures RegionsOk(SetFree(h, b, free))
  {
    var g := SetFree(h, b, free);
    forall r | r in g.regions ensures RegionOk(g, r) {
      assert RegionOk(h, r);
    }
  }

  lemma SetFreeShape(h: Heap, b: Addr, free: bool)
    requires Shape(h) && b in h.blocks && h.blocks[b].size > 0
    ensures Shape(SetFree(h, b, free))
  {
    SetFreeBlocksOk(h, b, free);
    SetFreeRegionsOk(h, b, free);
    assert Apart(SetFree(h, b, free));
  }

  /** What merging p with its successor needs: both are proper blocks. */
  predicate CanAbsorb(h: Heap, p: Addr) {
    && p in h.blocks && h.blocks[p].size > 0
    && h.Next(p) in h.blocks && h.blocks[h.Next(p)].size > 0
    && h.Next(h.Next(p)) in h.blocks
  }

  lemma AbsorbBlocksOk(h: Heap, p: Addr)
    requires BlocksOk(h) && CanAbsorb(h, p)
    ensures BlocksOk(Absorb(h, p))
  {
    var b := h.Next(p);
    assert BlockOk(h, p) && BlockOk(h, b) && BlockOk(h, h.Next(b));
    var g := Absorb(h, p);
    forall c | c in g.blocks ensures BlockOk(g, c) {
      assert BlockOk(h, c);
    }
  }

  lemma AbsorbApart(h: Heap, p: Addr)
    requires BlocksOk(h) && Apart(h) && CanAbsorb(h, p)
    ensures Apart(Absorb(h, p))
  {
    var b := h.Next(p);
    var g := Absorb(h, p);
    assert BlockOk(h, p);
    forall c, d | c in g.blocks && d in g.blocks && c < d ensures g.Next(c) <= d {
      assert h.Next(c) <= d;
      if c == p {
        assert h.Next(b) <= d;
      }
    }
  }

  lemma AbsorbRegionsOk(h: Heap, p: Addr)
    requires BlocksOk(h) && RegionsOk(h) && CanAbsorb(h, p)
    ensures RegionsOk(Absorb(h, p))
  {
    assert BlockOk(h, p) && BlockOk(h, h.Next(p));
    var g := Absorb(h, p);
    forall r | r in g.regions ensures RegionOk(g, r) {
      assert RegionOk(h, r);
    }
  }

  lemma AbsorbShape(h: Heap, p: Addr)
    requires Shape(h) && CanAbsorb(h, p)
    ensures Shape(Absorb(h, p))
  {
    AbsorbBlocksOk(h, p);
    AbsorbApart(h, p);
    AbsorbRegionsOk(h, p);
  }

  /** What cutting b down to `size` needs. */
  ghost predicate CanSplit(h: Heap, b: Addr, size: nat) {
    && b in h.blocks && h.Next(b) in h.blocks
    && BLK_SIZE_MIN <= size && size % 4 == 0 && size + HEADER_SIZE <= h.blocks[b].size
  }

  lemma SplitIsNew(h: Heap, b: Addr, size: nat)
    requires Apart(h) && CanSplit(h, b, size)
    ensures b + OVERHEAD + size !in h.blocks
  {
  }

  lemma SplitUntouchedOk(h: Heap, b: Addr, size: nat, c: Addr)
    requires BlocksOk(h) && CanSplit(h, b, size) && b + OVERHEAD + size !in h.blocks
    requires c in h.blocks && c != b && c != h.Next(b)
    ensures BlockOk(Split(h, b, size), c)
  {
    assert BlockOk(h, c) && BlockOk(h, b) && BlockOk(h, h.Next(b));
    assert h.blocks[c].prev != b;
  }

  lemma SplitPiecesOk(h: Heap, b: Addr, size: nat)
    requires BlocksOk(h) && CanSplit(h, b, size) && b + OVERHEAD + size !in h.blocks
    ensures BlockOk(Split(h, b, size), b)
    ensures BlockOk(Split(h, b, size), b + OVERHEAD + size)
    ensures BlockOk(Split(h, b, size), h.Next(b))
  {
    assert BlockOk(h, b) && BlockOk(h, h.Next(b));
  }

  lemma SplitBlocksOk(h: Heap, b: Addr, size: nat)
    requires BlocksOk(h) && Apart(h) && CanSplit(h, b, size)
    ensures BlocksOk(Split(h, b, size))
  {
    SplitIsNew(h, b, size);
    SplitPiecesOk(h, b, size);
    var g := Split(h, b, size);
    forall c | c in g.blocks ensures BlockOk(g, c) {
      if c in h.blocks && c != b && c != h.Next(b) {
        SplitUntouchedOk(h, b, size, c);
      }
    }
  }

  lemma SplitApart(h: Heap, b: Addr, size: nat)
    requires Apart(h) && CanSplit(h, b, size)
    ensures Apart(Split(h, b, size))
  {
    var rest := b + OVERHEAD + size;
    var g := Split(h, b, size);
    forall c, d | c in g.blocks && d in g.blocks && c < d ensures g.Next(c) <= d {
      if c == rest {
        assert h.Next(b) <= d;
      } else if d == rest {
        if c < b {
          assert h.Next(c) <= b;
        }
      } else {
        assert h.Next(c) <= d;
      }
    }
  }

  lemma SplitRegionOk(h: Heap, b: Addr, size: nat, r: Addr)
    requires BlocksOk(h) && Apart(h) && CanSplit(h, b, size) && r in h.regions && RegionOk(h, r)
    ensures RegionOk(Split(h, b, size), r) && Split(h, b, size).End(r) == h.End(r)
  {
    SplitIsNew(h, b, size);
    assert BlockOk(h, b);
  }

  lemma SplitRegionsOk(h: Heap, b: Addr, size: nat)
    requires BlocksOk(h) && Apart(h) && RegionsOk(h) && CanSplit(h, b, size)
    ensures RegionsOk(Split(h, b, size))
  {
    var g := Split(h, b, size);
    forall r | r in g.regions ensures RegionOk(g, r) && g.End(r) == h.End(r) {
      assert RegionOk(h, r);
      SplitRegionOk(h, b, size, r);
    }
  }

  lemma SplitShape(h: Heap, b: Addr, size: nat)
    requires Shape(h) && CanSplit(h, b, size)
    ensures Shape(Split(h, b, size))
  {
    SplitBlocksOk(h, b, size);
    SplitApart(h, b, size);
    SplitRegionsOk(h, b, size);
  }

  // Preservation of the lists

  lemma SetFreeLists(h: Heap, off: set<Addr>, b: Addr)
    requires Listed(h) && Complete(h, off) && h.IsLive(b)
    ensures Listed(SetFree(h, b, true)) && Complete(SetFree(h, b, true), off + {b})
  {
    assert forall c :: SetFree(h, b, true).List(c) == h.List(c);
  }

  lemma SetUsedLists(h: Heap, off: set<Addr>, b: Addr)
    requires Listed(h) && Complete(h, off) && b in off
    ensures Listed(SetFree(h, b, false)) && Complete(SetFree(h, b, false), off - {b})
  {
    assert forall c :: SetFree(h, b, false).List(c) == h.List(c);
  }

  lemma InsertListed(h: Heap, b: Addr)
    requires Listed(h) && h.IsFree(b) && b !in h.List(h.ClassOf(b))
    ensures Listed(Insert(h, b))
  {
    var g := Insert(h, b);
    assert forall c :: g.List(c) == if c == h.ClassOf(b) then [b] + h.List(c) else h.List(c);
  }

  lemma InsertComplete(h: Heap, off: set<Addr>, b: Addr)
    requires Complete(h, off) && b in off
    ensures Complete(Insert(h, b), off - {b})
  {
    var g := Insert(h, b);
    assert forall c :: g.List(c) == if c == h.ClassOf(b) then [b] + h.List(c) else h.List(c);
  }

  lemma RemoveLists(h: Heap, off: set<Addr>, b: Addr)
    requires Listed(h) && Complete(h, off) && h.IsFree(b) && b !in off
    ensures Listed(Remove(h, b)) && Complete(Remove(h, b), off + {b})
  {
    var g := Remove(h, b);
    WithoutIs(h.List(h.ClassOf(b)), b);
    assert forall c :: g.List(c) == if c == h.ClassOf(b) then Without(h.List(c), b) else h.List(c);
  }

  lemma AbsorbLists(h: Heap, off: set<Addr>, p: Addr)
    requires BlocksOk(h) && Listed(h) && Complete(h, off) && CanAbsorb(h, p) && p in off && h.Next(p) in off
    ensures Listed(Absorb(h, p)) && Complete(Absorb(h, p), off - {h.Next(p)})
  {
    assert forall c :: Absorb(h, p).List(c) == h.List(c);
  }

  lemma SplitListed(h: Heap, off: set<Addr>, b: Addr, size: nat)
    requires Apart(h) && Listed(h) && Complete(h, off) && CanSplit(h, b, size) && b in off
    ensures Listed(Split(h, b, size))
  {
    SplitIsNew(h, b, size);
    assert forall c :: Split(h, b, size).List(c) == h.List(c);
  }

  lemma SplitComplete(h: Heap, off: set<Addr>, b: Addr, size: nat)
    requires Apart(h) && Listed(h) && Complete(h, off) && CanSplit(h, b, size) && b in off
    ensures Complete(Split(h, b, size), off + {b + OVERHEAD + size})
  {
    SplitIsNew(h, b, size);
    assert forall c :: Split(h, b, size).List(c) == h.List(c);
  }

  // The steps of an operation, on the whole invariant

  lemma FreeStep(h: Heap, off: set<Addr>, b: Addr)
    requires InvOff(h, off) && h.IsLive(b)
    ensures InvOff(SetFree(h, b, true), off + {b})
  {
    SetFreeShape(h, b, true);
    SetFreeLists(h, off, b);
    SetFreeCoalesced(h, off, b);
  }

  lemma SetFreeCoalesced(h: Heap, off: set<Addr>, b: Addr)
    requires Coalesced(h, off) && b in h.blocks
    ensures Coalesced(SetFree(h, b, true), off + {b})
  {
  }

  lemma UseStep(h: Heap, off: set<Addr>, b: Addr)
    requires InvOff(h, off) && b in off
    ensures InvOff(SetFree(h, b, false), off - {b}) && SetFree(h, b, false).IsLive(b)
  {
    assert SizeOk(h.blocks[b]) by {
      assert BlockOk(h, b);
    }
    SetFreeShape(h, b, false);
    SetUsedLists(h, off, b);
    SetUsedCoalesced(h, off, b);
  }

  lemma SetUsedCoalesced(h: Heap, off: set<Addr>, b: Addr)
    requires Coalesced(h, off) && b in off && b in h.blocks
    ensures Coalesced(SetFree(h, b, false), off - {b})
  {
  }

  lemma InsertStep(h: Heap, off: set<Addr>, b: Addr)
    requires InvOff(h, off) && b in off
    requires h.PrevIsFree(b) ==> h.blocks[b].prev in off
    requires h.IsFree(h.Next(b)) ==> h.Next(b) in off
    ensures InvOff(Insert(h, b), off - {b})
  {
    InsertListed(h, b);
    InsertComplete(h, off, b);
    InsertCoalesced(h, off, b);
    assert Shape(Insert(h, b)) by {
      SameBlocksShape(h, Insert(h, b));
    }
  }

  lemma InsertCoalesced(h: Heap, off: set<Addr>, b: Addr)
    requires BlocksOk(h) && Coalesced(h, off) && b in off && b in h.blocks
    requires h.PrevIsFree(b) ==> h.blocks[b].prev in off
    requires h.IsFree(h.Next(b)) ==> h.Next(b) in off
    ensures Coalesced(Insert(h, b), off - {b})
  {
    forall x | x in h.blocks && h.blocks[x].free && x !in off - {b} && h.IsFree(h.Next(x))
      ensures h.Next(x) in off - {b}
    {
      assert BlockOk(h, x);
    }
  }

  lemma SameBlocksShape(h: Heap, g: Heap)
    requires Shape(h) && g.blocks == h.blocks && g.regions == h.regions
    ensures Shape(g)
  {
    SameBlocksOk(h, g);
    SameRegionsOk(h, g);
    assert Apart(g);
  }

  lemma SameBlocksOk(h: Heap, g: Heap)
    requires BlocksOk(h) && g.blocks == h.blocks && g.regions == h.regions
    ensures BlocksOk(g)
  {
    forall b | b in g.blocks ensures BlockOk(g, b) {
      assert BlockOk(h, b);
    }
  }

  lemma SameRegionsOk(h: Heap, g: Heap)
    requires RegionsOk(h) && g.blocks == h.blocks && g.regions == h.regions
    ensures RegionsOk(g)
  {
    forall r | r in g.regions ensures RegionOk(g, r) {
      assert RegionOk(h, r);
    }
  }

  lemma RemoveStep(h: Heap, off: set<Addr>, b: Addr)
    requires InvOff(h, off) && h.IsFree(b) && b !in off
    ensures InvOff(Remove(h, b), off + {b})
  {
    RemoveLists(h, off, b);
    SameBlocksShape(h, Remove(h, b));
  }

  lemma AbsorbStep(h: Heap, off: set<Addr>, p: Addr)
    requires InvOff(h, off) && p in off && h.Next(p) in off
    ensures CanAbsorb(h, p) && InvOff(Absorb(h, p), off - {h.Next(p)})
  {
    assert BlockOk(h, p) && BlockOk(h, h.Next(p));
    AbsorbShape(h, p);
    AbsorbLists(h, off, p);
    AbsorbCoalesced(h, off, p);
  }

  lemma AbsorbCoalesced(h: Heap, off: set<Addr>, p: Addr)
    requires BlocksOk(h) && Coalesced(h, off) && CanAbsorb(h, p) && p in off && h.Next(p) in off
    ensures Coalesced(Absorb(h, p), off - {h.Next(p)})
  {
    var b := h.Next(p);
    assert BlockOk(h, p) && BlockOk(h, b);
    var g := Absorb(h, p);
    forall x | x in g.blocks && g.blocks[x].free && x !in off - {b} && g.IsFree(g.Next(x))
      ensures g.Next(x) in off - {b}
    {
      assert BlockOk(h, x);
    }
  }

  lemma SplitStep(h: Heap, off: set<Addr>, b: Addr, size: nat)
    requires InvOff(h, off) && b in off && CanSplit(h, b, size)
    ensures InvOff(Split(h, b, size), off + {b + OVERHEAD + size})
  {
    SplitShape(h, b, size);
    SplitListed(h, off, b, size);
    SplitComplete(h, off, b, size);
    SplitCoalesced(h, off, b, size);
  }

  lemma SplitCoalesced(h: Heap, off: set<Addr>, b: Addr, size: nat)
    requires BlocksOk(h) && Apart(h) && Coalesced(h, off) && b in off && CanSplit(h, b, size)
    ensures Coalesced(Split(h, b, size), off + {b + OVERHEAD + size})
  {
    SplitIsNew(h, b, size);
    var g := Split(h, b, size);
    forall x | x in g.blocks && g.blocks[x].free && x !in off + {b + OVERHEAD + size} && g.IsFree(g.Next(x))
      ensures g.Next(x) in off + {b + OVERHEAD + size}
    {
      assert BlockOk(h, x);
    }
  }
}
