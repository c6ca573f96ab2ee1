/**
 The allocator itself: a class over words of memory, the two bitmaps and the table of list heads, updated in place
 in the order the C functions do it. The ghost field `heap` is the abstract state each method is specified by.
 */
module MemPool {
  import opened Options
  import opened Bits
  import opened SizeClass
  import opened PoolHeap
  import opened PoolMemory
  import opened PoolLinks
  import opened PoolOps
  import opened PoolIndex
  import opened PoolState

  class Pool {
    var mem: Memory
    var flBitmap: nat
    const slBitmap: array<nat>
    const heads: array<Addr>
    const blockNull: Addr
    ghost var heap: Heap

    ghost function Ix(): Index
      reads `flBitmap, slBitmap, heads
    {
      Index(flBitmap, slBitmap[..], heads[..])
    }

    /** The invariant while the blocks `off` are held out of the lists. */
    ghost predicate ValidOff(off: set<Addr>)
      reads this, slBitmap, heads
    {
      slBitmap != heads && Consistent(mem, Ix(), heap, blockNull, off)
    }

    ghost predicate Valid()
      reads this, slBitmap, heads
    {
      ValidOff({})
    }

    constructor (blockNull: Addr, machine: Memory)
      ensures Valid() && heap == EMPTY && this.blockNull == blockNull && mem == machine
      ensures fresh(slBitmap) && fresh(heads)
    {
      this.blockNull := blockNull;
      mem := machine;
      flBitmap := 0;
      heap := EMPTY;
      slBitmap := new nat[FL_INDEX_COUNT];
      heads := new Addr[CLASS_COUNT];
      new;
      for i := 0 to FL_INDEX_COUNT
        modifies slBitmap, heads
        invariant forall k | 0 <= k < i :: slBitmap[k] == 0
        invariant forall k | 0 <= k < SL_INDEX_COUNT * i :: heads[k] == blockNull
      {
        slBitmap[i] := 0;
        for j := 0 to SL_INDEX_COUNT
          modifies heads
          invariant forall k | 0 <= k < SL_INDEX_COUNT * i + j :: heads[k] == blockNull
        {
          heads[SL_INDEX_COUNT * i + j] := blockNull;
        }
      }
      EmptyConsistent(mem, Ix(), blockNull);
    }

    // The free lists in place

    method InsertFreeBlock(b: Addr, c: Class)
      requires slBitmap != heads && Sized(Ix()) && c.InTable()
      modifies `mem, `flBitmap, slBitmap, heads
      ensures mem == InsertLinks(old(mem), b, old(Ix()).heads[c.Rank()], blockNull)
      ensures Sized(old(Ix())) && Ix() == InsertIndex(old(Ix()), c, b)
    {
      var current := heads[c.Rank()];
      mem := mem[b + 8 := current];
      mem := mem[b + 12 := blockNull];
      mem := mem[current + 12 := b];
      MarkListed(b, c);
    }

    /** `b` becomes the head of its list, and the list's bits are set. */
    method MarkListed(b: Addr, c: Class)
      requires slBitmap != heads && Sized(Ix()) && c.InTable()
      modifies `flBitmap, slBitmap, heads
      ensures Sized(old(Ix())) && Ix() == InsertIndex(old(Ix()), c, b)
    {
      ghost var ix := Ix();
      heads[c.Rank()] := b;
      flBitmap := Or(flBitmap, Pow2(c.fl));
      slBitmap[c.fl] := Or(slBitmap[c.fl], Pow2(c.sl));
      assert Ix() == InsertIndex(ix, c, b);
    }

    method RemoveFreeBlock(b: Addr, c: Class)
      requires slBitmap != heads && Sized(Ix()) && c.InTable()
      requires W(mem, b + 8) >= 0
      modifies `mem, `flBitmap, slBitmap, heads
      ensures mem == RemoveLinks(old(mem), b)
      ensures Sized(old(Ix())) && Ix() == RemoveIndex(old(Ix()), c, b, old(W(mem, b + 8)), blockNull)
    {
      ghost var ix := Ix();
      var prev := W(mem, b + 12);
      var next := W(mem, b + 8);
      mem := mem[next + 12 := prev];
      mem := mem[prev + 8 := next];
      if heads[c.Rank()] == b {
        heads[c.Rank()] := next;
        if next == blockNull {
          slBitmap[c.fl] := AndNot(slBitmap[c.fl], Pow2(c.sl));
          if slBitmap[c.fl] == 0 {
            flBitmap := AndNot(flBitmap, Pow2(c.fl));
          }
        }
      }
      assert Ix() == RemoveIndex(ix, c, b, next, blockNull);
    }

    method BlockInsert(b: Addr, ghost off: set<Addr>)
      requires ValidOff(off) && b in off
      requires heap.PrevIsFree(b) ==> heap.blocks[b].prev in off
      requires heap.IsFree(heap.Next(b)) ==> heap.Next(b) in off
      modifies this, slBitmap, heads
      ensures ValidOff(off - {b}) && heap == Insert(old(heap), b)
      ensures KeepsPayloads(old(mem), mem, old(heap))
    {
      HeaderIsSize(mem, heap, b);
      InsertConsistent(mem, Ix(), heap, blockNull, off, b);
      var c := MappingInsert(SizeOf(W(mem, b + 4)));
      InsertFreeBlock(b, c);
      heap := Insert(heap, b);
    }

    method BlockUnlink(b: Addr, c: Class, ghost off: set<Addr>)
      requires ValidOff(off) && heap.IsFree(b) && b !in off && c == heap.ClassOf(b)
      modifies this, slBitmap, heads
      ensures ValidOff(off + {b}) && heap == Remove(old(heap), b)
      ensures KeepsPayloads(old(mem), mem, old(heap))
    {
      RemoveConsistent(mem, Ix(), heap, blockNull, off, b);
      RemoveFreeBlock(b, c);
      heap := Remove(heap, b);
    }

    method BlockRemove(b: Addr, ghost off: set<Addr>)
      requires ValidOff(off) && heap.IsFree(b) && b !in off
      modifies this, slBitmap, heads
      ensures ValidOff(off + {b}) && heap == Remove(old(heap), b)
      ensures KeepsPayloads(old(mem), mem, old(heap))
    {
      HeaderIsSize(mem, heap, b);
      BlockUnlink(b, MappingInsert(SizeOf(W(mem, b + 4))), off);
    }

    // Headers in place

    method BlockMarkAsFree(b: Addr, ghost h: Heap)
      requires b in h.blocks && SizeOf(W(mem, b + 4)) == h.blocks[b].size
      modifies `mem
      ensures mem == MarkFree(old(mem), h, b)
      ensures Ix() == old(Ix())
    {
      var next := b + OVERHEAD + SizeOf(W(mem, b + 4));
      mem := mem[next := b];
      mem := mem[next + 4 := WithPrevFree(W(mem, next + 4), true)];
      mem := mem[b + 4 := WithFree(W(mem, b + 4), true)];
    }

    method BlockMarkAsUsed(b: Addr, ghost h: Heap)
      requires b in h.blocks && SizeOf(W(mem, b + 4)) == h.blocks[b].size
      modifies `mem
      ensures mem == MarkUsed(old(mem), h, b)
      ensures Ix() == old(Ix())
    {
      var next := b + OVERHEAD + SizeOf(W(mem, b + 4));
      mem := mem[next + 4 := WithPrevFree(W(mem, next + 4), false)];
      mem := mem[b + 4 := WithFree(W(mem, b + 4), false)];
    }

    method BlockAbsorb(prev: Addr, block: Addr, ghost h: Heap)
      requires CanAbsorb(h, prev) && block == h.Next(prev)
      requires SizeOf(W(mem, prev + 4) + SizeOf(W(mem, block + 4)) + OVERHEAD) ==
               h.blocks[prev].size + h.blocks[block].size + OVERHEAD
      modifies `mem
      ensures mem == AbsorbInto(old(mem), h, prev)
      ensures Ix() == old(Ix())
    {
      mem := mem[prev + 4 := W(mem, prev + 4) + SizeOf(W(mem, block + 4)) + OVERHEAD];
      var next := prev + OVERHEAD + SizeOf(W(mem, prev + 4));
      mem := mem[next := prev];
    }

    method BlockSplit(block: Addr, size: nat, ghost h: Heap) returns (remaining: Addr)
      requires CanSplit(h, block, size) && SizeOf(W(mem, block + 4)) == h.blocks[block].size
      modifies `mem
      ensures remaining == block + OVERHEAD + size && mem == SplitOff(old(mem), h, block, size)
      ensures Ix() == old(Ix())
    {
      remaining := block + OVERHEAD + size;
      var remainSize := SizeOf(W(mem, block + 4)) - (size + OVERHEAD);
      mem := mem[remaining + 4 := WithSize(W(mem, remaining + 4), remainSize)];
      mem := mem[block + 4 := WithSize(W(mem, block + 4), size)];
      var next := remaining + OVERHEAD + remainSize;
      mem := mem[next := remaining];
      mem := mem[next + 4 := WithPrevFree(W(mem, next + 4), true)];
      mem := mem[remaining + 4 := WithFree(W(mem, remaining + 4), true)];
      mem := mem[remaining := block];
      mem := mem[remaining + 4 := WithPrevFree(W(mem, remaining + 4), true)];
    }
  
    // The same steps on the whole invariant

    method HoldFreed(b: Addr, ghost off: set<Addr>)
      requires ValidOff(off) && heap.IsLive(b)
      modifies `mem, `heap
      ensures ValidOff(off + {b}) && heap == SetFree(old(heap), b, true)
      ensures KeepsPayloads(old(mem), mem, heap)
    {
      HeaderIsSize(mem, heap, b);
      FreeConsistent(mem, Ix(), heap, blockNull, off, b);
      BlockMarkAsFree(b, heap);
      heap := SetFree(heap, b, true);
    }

    method HandOut(b: Addr, ghost off: set<Addr>)
      requires ValidOff(off) && b in off
      modifies `mem, `heap
      ensures ValidOff(off - {b}) && heap == SetFree(old(heap), b, false)
      ensures KeepsPayloads(old(mem), mem, old(heap))
    {
      HeaderIsSize(mem, heap, b);
      UseConsistent(mem, Ix(), heap, blockNull, off, b);
      BlockMarkAsUsed(b, heap);
      heap := SetFree(heap, b, false);
    }

    method Merge(prev: Addr, block: Addr, ghost off: set<Addr>)
      requires ValidOff(off) && prev in off && block in off && block == heap.Next(prev)
      modifies `mem, `heap
      ensures CanAbsorb(old(heap), prev)
      ensures ValidOff(off - {block}) && heap == Absorb(old(heap), prev)
      ensures KeepsPayloads(old(mem), mem, old(heap))
    {
      AbsorbConsistent(mem, Ix(), heap, blockNull, off, prev);
      AbsorbTarget(mem, heap, prev);
      BlockAbsorb(prev, block, heap);
      heap := Absorb(heap, prev);
    }

    method Cut(block: Addr, size: nat, ghost off: set<Addr>) returns (remaining: Addr)
      requires ValidOff(off) && block in off && CanSplit(heap, block, size)
      modifies `mem, `heap
      ensures remaining == block + OVERHEAD + size
      ensures ValidOff(off + {block + OVERHEAD + size}) && heap == Split(old(heap), block, size)
      ensures KeepsPayloads(old(mem), mem, old(heap))
    {
      ghost var h, m, ix := heap, mem, Ix();
      HeaderIsSize(m, h, block);
      remaining := BlockSplit(block, size, h);
      heap := Split(h, block, size);
      SplitConsistent(m, ix, h, blockNull, off, block, size);
    }

    /** A free neighbour of `b` leaves its list and the two are joined, `prev` being the first of them. */
    method RemoveAndMerge(neighbour: Addr, prev: Addr, block: Addr, ghost b: Addr)
      requires ValidOff({b}) && heap.IsFree(neighbour) && neighbour != b && {prev, block} == {neighbour, b}
      requires prev in heap.blocks && block == heap.Next(prev) && prev != block
      modifies this, slBitmap, heads
      ensures CanAbsorb(Remove(old(heap), neighbour), prev)
      ensures ValidOff({prev}) && heap == Absorb(Remove(old(heap), neighbour), prev)
      ensures KeepsPayloads(old(mem), mem, old(heap))
    {
      ghost var h, m := heap, mem;
      BlockRemove(neighbour, {b});
      assert {b} + {neighbour} == {prev, block};
      ghost var g, n := heap, mem;
      Merge(prev, block, {prev, block});
      assert {prev, block} - {block} == {prev};
      KeepsTwice(m, n, mem, h, g);
    }

    method BlockMergePrev(b: Addr) returns (r: Addr)
      requires ValidOff({b})
      modifies this, slBitmap, heads
      ensures b in old(heap).blocks && (old(heap).PrevIsFree(b) ==> CanAbsorb(old(heap), old(heap).blocks[b].prev))
      ensures ValidOff({r}) && (heap, r) == MergePrev(old(heap), b)
      ensures KeepsPayloads(old(mem), mem, old(heap))
    {
      HeaderIsSize(mem, heap, b);
      r := b;
      if PrevFreeBit(W(mem, b + 4)) {
        PrevIsPair(heap, b);
        r := W(mem, b);
        RemoveAndMerge(r, r, b, b);
      }
    }

    method BlockMergeNext(b: Addr)
      requires ValidOff({b})
      modifies this, slBitmap, heads
      ensures b in old(heap).blocks && (old(heap).IsFree(old(heap).Next(b)) ==> CanAbsorb(old(heap), b))
      ensures ValidOff({b}) && heap == MergeNext(old(heap), b)
      ensures KeepsPayloads(old(mem), mem, old(heap))
    {
      MergeNextStep(heap, b);
      HeaderIsSize(mem, heap, b);
      var next := b + OVERHEAD + SizeOf(W(mem, b + 4));
      NextIsBlock(heap, b);
      HeaderIsSize(mem, heap, next);
      if FreeBit(W(mem, next + 4)) {
        RemoveAndMerge(next, b, next, b);
      }
    }
  
    method SearchSuitableBlock(from: Class) returns (r: Option<Class>)
      requires Sized(Ix()) && from.InTable()
      requires forall fl: nat {:trigger RowOk(Ix(), fl)} | fl < FL_INDEX_COUNT :: RowOk(Ix(), fl)
      ensures r == SearchIndex(Ix(), from)
    {
      SmallWord(Ix(), from.fl);
      var fl := from.fl;
      AndBelow(slBitmap[fl], HighMask(from.sl));
      var slMap: Word := And(slBitmap[fl], HighMask(from.sl));
      if slMap == 0 {
        AndBelow(flBitmap, HighMask(fl + 1));
        var flMap: Word := And(flBitmap, HighMask(fl + 1));
        if flMap == 0 {
          return None;
        }
        TlsfFfsIsCtz(flMap);
        RowFound(Ix(), from);
        fl := TlsfFfs(flMap);
        SmallWord(Ix(), fl);
        slMap := slBitmap[fl];
      }
      TlsfFfsIsCtz(slMap);
      return Some(Class(fl, TlsfFfs(slMap)));
    }

    method BlockTrimFree(b: Addr, size: nat)
      requires ValidOff({b}) && Adjusted(size) && size <= heap.blocks[b].size
      requires heap.Next(b) in heap.blocks && !heap.IsFree(heap.Next(b))
      modifies this, slBitmap, heads
      ensures ValidOff({b}) && heap == Trim(old(heap), b, size)
      ensures KeepsPayloads(old(mem), mem, old(heap))
    {
      HeaderIsSize(mem, heap, b);
      if SizeOf(W(mem, b + 4)) >= HEADER_SIZE + size {
        CutAndInsert(b, size);
      }
    }

    method CutAndInsert(b: Addr, size: nat)
      requires ValidOff({b}) && Adjusted(size) && CanSplit(heap, b, size)
      requires heap.Next(b) in heap.blocks && !heap.IsFree(heap.Next(b))
      modifies this, slBitmap, heads
      ensures ValidOff({b}) && heap == Insert(Split(old(heap), b, size), b + OVERHEAD + size)
      ensures KeepsPayloads(old(mem), mem, old(heap))
    {
      ghost var h, m := heap, mem;
      var remaining := CutOff(b, size);
      ghost var g, n := heap, mem;
      assert {b} + {remaining} - {remaining} == {b};
      BlockInsert(remaining, {b} + {remaining});
      KeepsTwice(m, n, mem, h, g);
    }

    /** What is cut off is free, between used blocks. */
    method CutOff(b: Addr, size: nat) returns (rest: Addr)
      requires ValidOff({b}) && Adjusted(size) && CanSplit(heap, b, size)
      requires heap.Next(b) in heap.blocks && !heap.IsFree(heap.Next(b))
      modifies `mem, `heap
      ensures rest == b + OVERHEAD + size && rest != b
      ensures ValidOff({b} + {rest}) && heap == Split(old(heap), b, size)
      ensures heap.IsFree(rest) && heap.blocks[rest].prev == b && !heap.IsFree(heap.Next(rest))
      ensures LiveKept(old(heap), heap) && KeepsPayloads(old(mem), mem, old(heap))
    {
      SplitPieces(heap, b, size);
      rest := Cut(b, size, {b});
    }

    // The interface

    method FirstBlock(block: Addr, poolBytes: nat)
      requires slBitmap != heads && Sized(Ix()) && MappingInsert(poolBytes).InTable() && BLK_SIZE_MIN <= poolBytes
      requires var current := Ix().heads[MappingInsert(poolBytes).Rank()];
               var e := block + OVERHEAD + poolBytes;
               current + 12 != e && current + 12 != e + 4
      modifies `mem, `flBitmap, slBitmap, heads
      ensures var c := MappingInsert(poolBytes);
              && Sized(old(Ix())) && Ix() == InsertIndex(old(Ix()), c, block)
              && mem == InsertLinks(AddHeaders(old(mem), block, poolBytes), block, old(Ix()).heads[c.Rank()], blockNull)
    {
      ghost var current := Ix().heads[MappingInsert(poolBytes).Rank()];
      SetHeader(block, poolBytes, true, false);
      ghost var m := mem;
      InsertFreeBlock(block, MappingInsert(poolBytes));
      var next := block + OVERHEAD + poolBytes;
      SentinelLast(m, block, next, current, blockNull);
      SetSentinel(block, next);
    }

    method SetSentinel(block: Addr, next: Addr)
      modifies `mem
      ensures mem == AddSentinel(old(mem), block, next) && Ix() == old(Ix())
    {
      mem := mem[next := block];
      SetHeader(next, 0, false, true);
    }

    method SetHeader(b: Addr, size: nat, free: bool, prevFree: bool)
      modifies `mem
      ensures mem == old(mem)[b + 4 := WithPrevFree(WithFree(WithSize(W(old(mem), b + 4), size), free), prevFree)]
      ensures Ix() == old(Ix())
    {
      mem := mem[b + 4 := WithSize(W(mem, b + 4), size)];
      mem := mem[b + 4 := WithFree(W(mem, b + 4), free)];
      mem := mem[b + 4 := WithPrevFree(W(mem, b + 4), prevFree)];
    }

    /** Adds a region of memory starting at `at`. Equality with the limit passes the range test of the C function but
        indexes past the tables, so callers must not ask for it. */
    method AddMem(at: Addr, bytes: Word) returns (ok: bool)
      requires Valid() && RegionBytes(bytes) != BLK_SIZE_MAX
      requires BLK_SIZE_MIN <= RegionBytes(bytes) < BLK_SIZE_MAX ==>
                 && at > 0 && at % 4 == 0 && RegionFree(heap, at, RegionBytes(bytes))
                 && RegionMissesNull(at, RegionBytes(bytes), blockNull)
      modifies this, slBitmap, heads
      ensures Valid()
      ensures ok <==> BLK_SIZE_MIN + 8 <= bytes < BLK_SIZE_MAX + 8
      ensures ok ==> RegionBytes(bytes) + 8 == bytes - bytes % 4
      ensures ok ==> at - OVERHEAD in heap.regions && heap.End(at - OVERHEAD) + START_OFFSET <= at + bytes
      ensures heap == if ok then Insert(AddBlocks(old(heap), at, RegionBytes(bytes)), at - OVERHEAD) else old(heap)
      ensures KeepsPayloads(old(mem), mem, old(heap))
    {
      RegionExact(bytes);
      var poolBytes := RegionBytes(bytes);
      if poolBytes < BLK_SIZE_MIN || poolBytes > BLK_SIZE_MAX {
        return false;
      }
      var block := at - OVERHEAD;
      AddAll(mem, Ix(), heap, blockNull, at, poolBytes);
      FirstBlock(block, poolBytes);
      heap := Insert(AddBlocks(heap, at, poolBytes), block);
      return true;
    }

    /**
     Allocates `size` bytes, 0 when there is no suitable block. The row of the search must be in the tables. A request
     in range is served whenever some free block is ample for it, and is given a block that holds it.
     */
    method Alloc(size: Word) returns (ptr: Addr)
      requires Valid() && MappingSearch(AdjustRequestSize(size)).InTable()
      modifies this, slBitmap, heads
      ensures Valid()
      ensures var adjust := AdjustRequestSize(size);
              if adjust == 0 || Locate(old(heap), adjust).None? then
                ptr == 0 && heap == old(heap) && mem == old(mem)
              else
                var b := Locate(old(heap), adjust).value;
                && b in old(heap).blocks && old(heap).Next(b) in old(heap).blocks
                && ptr == b + START_OFFSET && heap == Take(old(heap), b, adjust)
      ensures size == 0 || BLK_SIZE_MAX - 4 < size <= 0xFFFF_FFFC ==> ptr == 0
      ensures 0 < size <= BLK_SIZE_MAX - 4 && HasAmple(old(heap), size) ==> ptr != 0
      ensures ptr != 0 && size <= 0xFFFF_FFFC ==>
                && ptr >= START_OFFSET && heap.IsLive(ptr - START_OFFSET)
                && size <= heap.blocks[ptr - START_OFFSET].size
      ensures KeepsPayloads(old(mem), mem, old(heap))
    {
      AllocInBytes(heap, size);
      AdjustCovers(size);
      ptr := LocateAndUse(AdjustRequestSize(size));
    }

    /** `block_locate_free`, then `block_prepare_used`. */
    method LocateAndUse(adjust: Word) returns (ptr: Addr)
      requires Valid() && MappingSearch(adjust).InTable() && (adjust == 0 || Adjusted(adjust))
      modifies this, slBitmap, heads
      ensures Valid()
      ensures if adjust == 0 || Locate(old(heap), adjust).None? then
                ptr == 0 && heap == old(heap) && mem == old(mem)
              else
                var b := Locate(old(heap), adjust).value;
                && b in old(heap).blocks && old(heap).Next(b) in old(heap).blocks
                && ptr == b + START_OFFSET && heap == Take(old(heap), b, adjust)
      ensures KeepsPayloads(old(mem), mem, old(heap))
    {
      if adjust == 0 {
        return 0;
      }
      SearchFinds(Ix(), heap, blockNull, MappingSearch(adjust));
      var found := SearchSuitableBlock(MappingSearch(adjust));
      if found.None? {
        return 0;
      }
      ghost var h, m := heap, mem;
      FoundBlock(h, Ix(), blockNull, adjust);
      var b := heads[found.value.Rank()];
      BlockUnlink(b, found.value, {});
      assert {} + {b} == {b};
      ghost var g, n := heap, mem;
      TrimAndUse(b, adjust);
      KeepsTwice(m, n, mem, h, g);
      return b + START_OFFSET;
    }

    method TrimAndUse(b: Addr, size: nat)
      requires ValidOff({b}) && Adjusted(size) && size <= heap.blocks[b].size
      requires heap.Next(b) in heap.blocks && !heap.IsFree(heap.Next(b))
      modifies this, slBitmap, heads
      ensures b in Trim(old(heap), b, size).blocks
      ensures Valid() && heap == SetFree(Trim(old(heap), b, size), b, false)
      ensures KeepsPayloads(old(mem), mem, old(heap))
    {
      ghost var g, m := heap, mem;
      BlockTrimFree(b, size);
      ghost var g2, n2 := heap, mem;
      HandOut(b, {b});
      assert {b} - {b} == {};
      TrimLive(g, b, size);
      KeepsTwice(m, n2, mem, g, g2);
    }

    method Free(ptr: Addr)
      requires Valid() && ptr >= START_OFFSET && heap.IsLive(ptr - START_OFFSET)
      modifies this, slBitmap, heads
      ensures Valid() && heap == Release(old(heap), ptr - START_OFFSET)
      ensures KeepsPayloads(old(mem), mem, heap)
    {
      var b := ptr - START_OFFSET;
      ghost var h := heap;
      ghost var m0 := mem;
      ReleaseSteps(h, b);
      ReleaseKept(h, b);
      HoldFreed(b, {});
      assert {} + {b} == {b};
      ghost var f, m1 := heap, mem;
      b := BlockMergePrev(b);
      ghost var g, m2 := heap, mem;
      AloneAfterMerge(g, b);
      BlockMergeNext(b);
      KeepsTwice(m1, m2, mem, f, g);
      ghost var k, m3 := heap, mem;
      BlockInsert(b, {b});
      assert {b} - {b} == {};
      KeepsTwice(m1, m3, mem, f, k);
      KeepsLess(m1, mem, f, heap);
      KeepsLess(m0, m1, f, heap);
      KeepsTwice(m0, m1, mem, heap, heap);
    }
  
    /** A lower bound on the largest free block, 0 when there is none. */
    method GetMaxBlk() returns (size: nat)
      requires Valid()
      ensures size == 0 ==> forall c: Class | c.InTable() :: heap.List(c) == []
      ensures size > 0 ==> exists c: Class :: IsLast(heap, c) && size == c.MinSize()
    {
      var fl := Fls(flBitmap);
      if fl < 0 {
        NoListOk(Ix(), heap, blockNull);
        return 0;
      }
      LastListOk(Ix(), heap, blockNull);
      var sl := Fls(slBitmap[fl]);
      LastHoldsBlock(heap, Class(fl, sl));
      assert IsLast(heap, Class(fl, sl));
      return Class(fl, sl).MinSize();
    }

    /** The owner of a live block stores a word in it. */
    method Store(ghost b: Addr, a: nat, v: int)
      requires Valid() && heap.IsLive(b) && Inside(heap, b, a)
      modifies `mem
      ensures Valid() && mem == old(mem)[a := v] && heap == old(heap)
    {
      StoreConsistent(mem, Ix(), heap, blockNull, b, a, v);
      mem := mem[a := v];
    }
  }
}
