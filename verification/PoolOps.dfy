/**
 Allocation and release on the abstract heap, and what each of them guarantees.
 */
module PoolOps {
  import opened Options
  import opened Bits
  import opened SizeClass
  import opened PoolHeap
  import opened Seqs

  const CLASS_COUNT: nat := SL_INDEX_COUNT * FL_INDEX_COUNT

  function ClassAt(rank: nat): (c: Class)
    ensures c.Rank() == rank && c.sl < SL_INDEX_COUNT
    ensures c.InTable() <==> rank < CLASS_COUNT
  {
    Class(rank / 16, rank % 16)
  }

  lemma ClassAtRank(c: Class)
    requires c.sl < SL_INDEX_COUNT
    ensures ClassAt(c.Rank()) == c
  {
  }

  /** The list the search settles on: the first non-empty one at or after a given position. */
  function FirstNonEmpty(h: Heap, rank: nat): (r: Option<Class>)
    ensures r.None? ==> forall k | rank <= k < CLASS_COUNT :: h.List(ClassAt(k)) == []
    ensures r.Some? ==> r.value.InTable() && rank <= r.value.Rank() && h.List(r.value) != []
                        && forall k | rank <= k < r.value.Rank() :: h.List(ClassAt(k)) == []
    decreases CLASS_COUNT - rank
  {
    if rank >= CLASS_COUNT then None
    else if h.List(ClassAt(rank)) != [] then Some(ClassAt(rank))
    else FirstNonEmpty(h, rank + 1)
  }

  function Locate(h: Heap, size: nat): Option<Addr> {
    match FirstNonEmpty(h, MappingSearch(size).Rank())
    case None => None
    case Some(c) => Some(h.List(c)[0])
  }

  /** A request as `adjust_request_size` leaves it. */
  predicate Adjusted(size: nat) {
    size % 4 == 0 && BLK_SIZE_MIN <= size < BLK_SIZE_MAX
  }

  /** `block_trim_free`: give back what the request does not need. */
  function Trim(h: Heap, b: Addr, size: nat): Heap
    requires b in h.blocks && h.Next(b) in h.blocks
  {
    if size + HEADER_SIZE <= h.blocks[b].size then Insert(Split(h, b, size), b + OVERHEAD + size) else h
  }

  function Take(h: Heap, b: Addr, size: nat): Heap
    requires b in h.blocks && h.Next(b) in h.blocks
  {
    SetFree(Trim(Remove(h, b), b, size), b, false)
  }

  function MergePrev(h: Heap, b: Addr): (Heap, Addr)
    requires b in h.blocks
    requires h.PrevIsFree(b) ==> CanAbsorb(h, h.blocks[b].prev)
  {
    if h.PrevIsFree(b) then (Absorb(Remove(h, h.blocks[b].prev), h.blocks[b].prev), h.blocks[b].prev) else (h, b)
  }

  function MergeNext(h: Heap, b: Addr): Heap
    requires b in h.blocks
    requires h.IsFree(h.Next(b)) ==> CanAbsorb(h, b)
  {
    if h.IsFree(h.Next(b)) then Absorb(Remove(h, h.Next(b)), b) else h
  }

  // The search

  /** Every block lies inside one of the regions, so its size is bounded by the region's. */
  lemma {:induction false} RegionOf(h: Heap, b: Addr) returns (r: Addr)
    requires Shape(h) && b in h.blocks
    ensures r in h.regions && r <= b <= h.End(r)
    ensures b == h.End(r) || (h.blocks[b].size > 0 && h.Next(b) <= h.End(r))
    decreases b
  {
    assert BlockOk(h, b);
    var p := h.blocks[b].prev;
    if p == NO_BLOCK {
      r := b;
    } else {
      r := RegionOf(h, p);
      assert RegionOk(h, r);
    }
    assert RegionOk(h, r);
    if b != h.End(r) {
      SentinelIsEnd(h, b, r);
    }
  }

  lemma SentinelIsEnd(h: Heap, b: Addr, r: Addr)
    requires Shape(h) && b in h.blocks && r in h.regions && r <= b < h.End(r)
    ensures h.blocks[b].size > 0 && h.Next(b) <= h.End(r)
  {
    assert RegionOk(h, r);
    if h.blocks[b].size == 0 {
      NoInnerSentinel(h, b, r, h.End(r));
    }
  }

  /** Walking back from x inside a region stays inside it and passes through every block below x. */
  lemma {:induction false} NoInnerSentinel(h: Heap, b: Addr, r: Addr, x: Addr)
    requires Shape(h) && b in h.blocks && h.blocks[b].size == 0
    requires r in h.regions && r <= b < x <= h.End(r) && x in h.blocks
    ensures false
    decreases x
  {
    assert BlockOk(h, x) && RegionOk(h, r);
    var p := h.blocks[x].prev;
    if p != NO_BLOCK && b < p {
      NoInnerSentinel(h, b, r, p);
    }
  }

  lemma SizeBound(h: Heap, b: Addr)
    requires Shape(h) && b in h.blocks
    ensures h.blocks[b].size < BLK_SIZE_MAX
  {
    var r := RegionOf(h, b);
    assert RegionOk(h, r);
  }

  /** Good fit, first half: whatever list the search stops at, its blocks cover the request. */
  lemma LocateFits(h: Heap, size: nat)
    requires Listed(h) && size % 4 == 0 && Locate(h, size).Some?
    ensures h.IsFree(Locate(h, size).value) && size <= h.blocks[Locate(h, size).value].size
  {
    var c := FirstNonEmpty(h, MappingSearch(size).Rank()).value;
    var b := h.List(c)[0];
    assert b in h.List(c);
    GoodFit(size, h.blocks[b].size);
  }

  /** Good fit, second half: the search fails exactly when no free block lies in the rounded-up class or above. */
  lemma LocateFailsIff(h: Heap, size: nat)
    requires Inv(h)
    ensures Locate(h, size).None? <==>
            forall b | b in h.blocks && h.blocks[b].free :: h.ClassOf(b).Rank() < MappingSearch(size).Rank()
  {
    var from := MappingSearch(size).Rank();
    match FirstNonEmpty(h, from) {
      case None =>
        forall b | b in h.blocks && h.blocks[b].free ensures h.ClassOf(b).Rank() < from {
          var c := h.ClassOf(b);
          SizeBound(h, b);
          InTableIff(h.blocks[b].size);
          ClassAtRank(c);
          assert b in h.List(c);
        }
      case Some(c) =>
        var b := h.List(c)[0];
        assert b in h.List(c) && h.ClassOf(b).Rank() >= from;
    }
  }

  /** In bytes: a request is served exactly when some list that holds a block has only sizes that cover it. */
  lemma LocateExact(h: Heap, size: nat)
    requires Inv(h) && size % 4 == 0
    ensures Locate(h, size).Some? <==>
            exists b :: b in h.blocks && h.blocks[b].free && size <= h.ClassOf(b).MinSize()
  {
    LocateFailsIff(h, size);
    forall b | b in h.blocks && h.blocks[b].free
      ensures MappingSearch(size).Rank() <= h.ClassOf(b).Rank() <==> size <= h.ClassOf(b).MinSize()
    {
      MappingRange(h.blocks[b].size);
      SearchExact(size, h.ClassOf(b));
    }
  }

  /** A request is served whenever some free block is larger by a sixteenth, and it is refused only if it must be. */
  lemma AmpleIsServed(h: Heap, size: Word, b: Addr)
    requires Inv(h) && 0 < size <= BLK_SIZE_MAX - 4 && h.IsFree(b) && Ample(size, h.blocks[b].size)
    ensures AdjustRequestSize(size) != 0 && Locate(h, AdjustRequestSize(size)).Some?
  {
    AmpleIsSearched(size, h.blocks[b].size);
    LocateFailsIff(h, AdjustRequestSize(size));
    assert h.ClassOf(b).Rank() >= MappingSearch(AdjustRequestSize(size)).Rank();
  }

  // Allocation

  lemma TrimStep(h: Heap, b: Addr, size: nat)
    requires InvOff(h, {b}) && Adjusted(size) && size <= h.blocks[b].size
    requires !h.IsFree(h.Next(b))
    ensures h.Next(b) in h.blocks
    ensures InvOff(Trim(h, b, size), {b})
  {
    assert BlockOk(h, b);
    if size + HEADER_SIZE <= h.blocks[b].size {
      var rest := b + OVERHEAD + size;
      var g := Split(h, b, size);
      SplitIsNew(h, b, size);
      SplitStep(h, {b}, b, size);
      assert {b} + {rest} == {b, rest};
      assert g.Next(rest) == h.Next(b);
      InsertStep(g, {b, rest}, rest);
      assert {b, rest} - {rest} == {b};
    }
  }

  /** Taking a free block out of the pool keeps the pool's invariant. */
  lemma TakeInv(h: Heap, b: Addr, size: nat)
    requires Inv(h) && h.IsFree(b) && Adjusted(size) && size <= h.blocks[b].size
    ensures h.Next(b) in h.blocks
    ensures Inv(Take(h, b, size))
  {
    assert BlockOk(h, b);
    RemoveStep(h, {}, b);
    var g := Remove(h, b);
    assert {} + {b} == {b};
    TrimStep(g, b, size);
    UseStep(Trim(g, b, size), {b}, b);
    assert {b} - {b} == {};
  }

  /** What an allocation does to the callers' blocks: b becomes live with room for the request and at most one
      header more than it needs, and every other live block stays as it is. */
  lemma TakeLive(h: Heap, b: Addr, size: nat)
    requires Inv(h) && h.IsFree(b) && Adjusted(size) && size <= h.blocks[b].size
    ensures h.Next(b) in h.blocks
    ensures var g := Take(h, b, size);
            && g.IsLive(b) && size <= g.blocks[b].size < size + HEADER_SIZE
            && (forall x :: g.IsLive(x) <==> h.IsLive(x) || x == b)
            && (forall x | h.IsLive(x) :: g.blocks[x].size == h.blocks[x].size)
            && g.regions == h.regions
  {
    assert BlockOk(h, b);
    if size + HEADER_SIZE <= h.blocks[b].size {
      SplitIsNew(h, b, size);
    }
  }

  // Release

  /** Taking a free neighbour off its list and joining the pair, whichever of the two is first. */
  lemma PairOff(h: Heap, b: Addr, n: Addr)
    requires InvOff(h, {b}) && h.IsFree(n) && n != b
    ensures InvOff(Remove(h, n), {b, n})
  {
    RemoveStep(h, {b}, n);
    assert {b} + {n} == {b, n};
  }

  lemma JoinPair(g: Heap, p: Addr, n: Addr)
    requires InvOff(g, {p, n}) && p in g.blocks && g.Next(p) == n && n != p
    ensures CanAbsorb(g, p) && InvOff(Absorb(g, p), {p})
  {
    AbsorbStep(g, {p, n}, p);
    assert {p, n} - {n} == {p};
  }

  lemma PrevIsPair(h: Heap, b: Addr)
    requires BlocksOk(h) && b in h.blocks && h.PrevIsFree(b) && h.IsFree(b)
    ensures var p := h.blocks[b].prev; h.IsFree(p) && p != b && h.Next(p) == b && CanAbsorb(h, p)
  {
    assert BlockOk(h, b) && BlockOk(h, h.blocks[b].prev);
  }

  lemma MergePrevStep(h: Heap, b: Addr)
    requires InvOff(h, {b})
    ensures h.PrevIsFree(b) ==> CanAbsorb(h, h.blocks[b].prev)
    ensures var (g, x) := MergePrev(h, b); InvOff(g, {x}) && !g.PrevIsFree(x)
  {
    assert BlockOk(h, b);
    if h.PrevIsFree(b) {
      var p := h.blocks[b].prev;
      assert BlockOk(h, p);
      PairOff(h, b, p);
      assert {b, p} == {p, b};
      JoinPair(Remove(h, p), p, b);
      assert !h.PrevIsFree(p);
    }
  }

  lemma NextAbsorbs(h: Heap, b: Addr)
    requires InvOff(h, {b})
    ensures h.IsFree(h.Next(b)) ==> CanAbsorb(h, b)
  {
    assert BlockOk(h, b);
    if h.IsFree(h.Next(b)) {
      assert BlockOk(h, h.Next(b));
    }
  }

  lemma MergeNextStep(h: Heap, b: Addr)
    requires InvOff(h, {b})
    ensures h.IsFree(h.Next(b)) ==> CanAbsorb(h, b)
    ensures InvOff(MergeNext(h, b), {b})
  {
    var n := h.Next(b);
    NextAbsorbs(h, b);
    if h.IsFree(n) {
      PairOff(h, b, n);
      JoinPair(Remove(h, n), b, n);
    }
  }

  lemma MergeNextAlone(h: Heap, b: Addr)
    requires BlocksOk(h) && Coalesced(h, {b}) && b in h.blocks && h.blocks[b].size > 0
    requires h.IsFree(h.Next(b)) ==> CanAbsorb(h, b)
    requires !h.PrevIsFree(b)
    ensures var g := MergeNext(h, b); b in g.blocks && !g.PrevIsFree(b) && !g.IsFree(g.Next(b))
  {
    assert BlockOk(h, b);
    if h.IsFree(h.Next(b)) {
      assert BlockOk(h, h.Next(b));
      assert !h.IsFree(h.Next(h.Next(b)));
    }
  }

  /** The three states a release goes through, and that each merge is defined in its own. */
  lemma ReleaseSteps(h: Heap, b: Addr)
    requires Inv(h) && h.IsLive(b)
    ensures var f := SetFree(h, b, true);
            && InvOff(f, {b})
            && (f.PrevIsFree(b) ==> CanAbsorb(f, f.blocks[b].prev))
            && var (m, x) := MergePrev(f, b);
               InvOff(m, {x}) && !m.PrevIsFree(x) && (m.IsFree(m.Next(x)) ==> CanAbsorb(m, x))
  {
    FreeStep(h, {}, b);
    assert {} + {b} == {b};
    var f := SetFree(h, b, true);
    MergePrevStep(f, b);
    var (m, x) := MergePrev(f, b);
    MergeNextStep(m, x);
  }

  /** `rtl_mem_pool_free`, on the abstract heap. */
  function Release(h: Heap, b: Addr): Heap
    requires Inv(h) && h.IsLive(b)
  {
    ReleaseSteps(h, b);
    var (m, x) := MergePrev(SetFree(h, b, true), b);
    Insert(MergeNext(m, x), x)
  }

  /** Giving a live block back keeps the pool's invariant. */
  lemma ReleaseInv(h: Heap, b: Addr)
    requires Inv(h) && h.IsLive(b)
    ensures Inv(Release(h, b))
  {
    ReleaseSteps(h, b);
    var (m, x) := MergePrev(SetFree(h, b, true), b);
    MergeNextStep(m, x);
    assert h.IsLive(b) && BlockOk(m, x);
    MergeNextAlone(m, x);
    InsertStep(MergeNext(m, x), {x}, x);
    assert {x} - {x} == {};
  }

  /** g has the same live blocks as h, of the same sizes, in the same regions. */
  ghost predicate SameLive(h: Heap, g: Heap) {
    && (forall x :: g.IsLive(x) <==> h.IsLive(x))
    && (forall x | h.IsLive(x) :: g.blocks[x].size == h.blocks[x].size)
    && g.regions == h.regions
  }

  lemma AbsorbLive(h: Heap, b: Addr)
    requires CanAbsorb(h, b) && h.IsFree(b) && h.IsFree(h.Next(b))
    ensures SameLive(h, Absorb(h, b))
  {
  }

  lemma MergePrevLive(h: Heap, b: Addr)
    requires InvOff(h, {b})
    requires h.PrevIsFree(b) ==> CanAbsorb(h, h.blocks[b].prev)
    ensures SameLive(h, MergePrev(h, b).0)
  {
    if h.PrevIsFree(b) {
      assert BlockOk(h, b);
      AbsorbLive(Remove(h, h.blocks[b].prev), h.blocks[b].prev);
    }
  }

  lemma MergeNextLive(h: Heap, b: Addr)
    requires InvOff(h, {b})
    requires h.IsFree(h.Next(b)) ==> CanAbsorb(h, b)
    ensures SameLive(h, MergeNext(h, b))
  {
    if h.IsFree(h.Next(b)) {
      AbsorbLive(Remove(h, h.Next(b)), b);
    }
  }

  /** g has the live blocks of h, less b, with their sizes. */
  ghost predicate LiveLess(h: Heap, g: Heap, b: Addr) {
    && (forall x :: g.IsLive(x) <==> h.IsLive(x) && x != b)
    && (forall x | g.IsLive(x) :: g.blocks[x].size == h.blocks[x].size)
    && g.regions == h.regions
  }

  lemma LiveLessSame(h: Heap, f: Heap, g: Heap, b: Addr)
    requires LiveLess(h, f, b) && SameLive(f, g)
    ensures LiveLess(h, g, b)
  {
  }

  /** A release takes exactly its own block out of the live ones and leaves the others as they are. */
  lemma ReleaseLive(h: Heap, b: Addr)
    requires Inv(h) && h.IsLive(b)
    ensures LiveLess(h, Release(h, b), b)
  {
    ReleaseSteps(h, b);
    var f := SetFree(h, b, true);
    var (m, x) := MergePrev(f, b);
    var k := MergeNext(m, x);
    assert LiveLess(h, f, b);
    assert SameLive(f, m) by {
      MergePrevLive(f, b);
    }
    LiveLessSame(h, f, m, b);
    assert SameLive(m, k) by {
      MergeNextLive(m, x);
    }
    LiveLessSame(h, m, k, b);
    assert SameLive(k, Insert(k, x));
    LiveLessSame(h, k, Insert(k, x), b);
  }

  // The largest list

  /** c is the last non-empty list. */
  ghost predicate IsLast(h: Heap, c: Class) {
    c.InTable() && h.List(c) != [] && forall d: Class | d.InTable() && d.Rank() > c.Rank() :: h.List(d) == []
  }

  /** What `rtl_mem_pool_get_max_blk` promises: its bound is tight to the width of one list. */
  lemma LastHoldsBlock(h: Heap, c: Class)
    requires Inv(h) && IsLast(h, c)
    ensures var b := h.List(c)[0]; h.IsFree(b) && c.MinSize() <= h.blocks[b].size
    ensures BLK_SIZE_MIN <= c.MinSize() < BLK_SIZE_MAX && c.MinSize() % 4 == 0
  {
    var b := h.List(c)[0];
    assert b in h.List(c);
    assert SizeOk(h.blocks[b]) by {
      assert BlockOk(h, b);
    }
    MappingRange(h.blocks[b].size);
    SizeBound(h, b);
    MinSizeAligned(c);
  }

  /** A request of exactly that many bytes is served at once, from the last list. */
  lemma LastIsServed(h: Heap, c: Class)
    requires Inv(h) && IsLast(h, c)
    ensures c.MinSize() < 0x1_0000_0000 && AdjustRequestSize(c.MinSize()) == c.MinSize()
    ensures MappingSearch(c.MinSize()) == c && Locate(h, c.MinSize()) == Some(h.List(c)[0])
  {
    LastHoldsBlock(h, c);
    AdjustedIsFixed(c.MinSize());
    SearchAtMinSize(c);
    ClassAtRank(c);
  }

  lemma LastIsLargest(h: Heap, c: Class)
    requires Inv(h) && IsLast(h, c)
    ensures forall b | b in h.blocks && h.blocks[b].free :: h.blocks[b].size < c.MinSize() + c.Width()
  {
    forall b | b in h.blocks && h.blocks[b].free ensures h.blocks[b].size < c.MinSize() + c.Width() {
      var d := h.ClassOf(b);
      SizeBound(h, b);
      InTableIff(h.blocks[b].size);
      MappingRange(h.blocks[b].size);
      assert b in h.List(d);
      if d.Rank() < c.Rank() {
        RankOrder(d, c);
      } else {
        ClassAtRank(c);
        ClassAtRank(d);
      }
    }
  }

  /** Lower bounds of lists that hold blocks are themselves adjusted requests. */
  lemma MinSizeAligned(c: Class)
    requires c.sl < SL_INDEX_COUNT
    ensures c.MinSize() % 4 == 0
    ensures c.MinSize() + c.Width() > BLK_SIZE_MIN ==> c.MinSize() >= BLK_SIZE_MIN
  {
    if c.fl > 0 {
      var k, q := Pow2(c.fl - 1), c.sl;
      RowStart(c.fl, q + 16);
      assert Pow2(c.fl + 1) == 4 * k;
      FourTimes(c.MinSize(), q + 16, k);
      MulMono(16, q + 16, 4 * k);
    }
  }

  lemma FourTimes(x: nat, q: nat, k: nat)
    requires x == q * (4 * k)
    ensures x % 4 == 0
  {
    assert q * (4 * k) == 4 * (q * k);
  }

  lemma AdjustedIsFixed(size: nat)
    requires size % 4 == 0 && BLK_SIZE_MIN <= size < BLK_SIZE_MAX
    ensures size < 0x1_0000_0000 && AdjustRequestSize(size) == size
  {
    Pow2Word();
    Pow2Bound(FL_INDEX_MAX, 31);
    assert Pow2(32) == 2 * Pow2(31);
  }

  ghost predicate HasAmple(h: Heap, size: nat) {
    exists b :: h.IsFree(b) && Ample(size, h.blocks[b].size)
  }

  /** What an allocation promises in bytes. */
  lemma AllocInBytes(h: Heap, size: Word)
    requires Inv(h)
    ensures var adjust := AdjustRequestSize(size);
            && (size == 0 || BLK_SIZE_MAX - 4 < size <= 0xFFFF_FFFC ==> adjust == 0)
            && (0 < size <= BLK_SIZE_MAX - 4 && HasAmple(h, size) ==> adjust != 0 && Locate(h, adjust).Some?)
            && (size <= 0xFFFF_FFFC && adjust != 0 && Locate(h, adjust).Some? ==>
                  var b := Locate(h, adjust).value;
                  b in h.blocks && h.Next(b) in h.blocks &&
                  Take(h, b, adjust).IsLive(b) && size <= Take(h, b, adjust).blocks[b].size)
  {
    AdjustExact(size);
    var adjust := AdjustRequestSize(size);
    if 0 < size <= BLK_SIZE_MAX - 4 && HasAmple(h, size) {
      var b :| h.IsFree(b) && Ample(size, h.blocks[b].size);
      AmpleIsServed(h, size, b);
    }
    if size <= 0xFFFF_FFFC && adjust != 0 && Locate(h, adjust).Some? {
      LocateFits(h, adjust);
      TakeLive(h, Locate(h, adjust).value, adjust);
    }
  }

  // Adding memory

  /** Payload bytes of a region: `align_down(bytes - POOL_OVERHEAD)`, the subtraction wrapping around. */
  function RegionBytes(bytes: Word): Word {
    var usable := (bytes - 8) % 0x1_0000_0000;
    usable - usable % 4
  }

  lemma Payload(bytes: Word)
    ensures if bytes >= 8 then RegionBytes(bytes) % 4 == 0 && RegionBytes(bytes) + 8 == bytes - bytes % 4
            else RegionBytes(bytes) >= 0xFFFF_FFF8
  {
  }

  /** Which sizes are accepted, and that a payload is all of them but two headers, rounded down to a multiple of 4. */
  lemma RegionExact(bytes: Word)
    ensures BLK_SIZE_MIN <= RegionBytes(bytes) < BLK_SIZE_MAX <==> BLK_SIZE_MIN + 8 <= bytes < BLK_SIZE_MAX + 8
    ensures bytes >= 8 ==> RegionBytes(bytes) % 4 == 0 && RegionBytes(bytes) + 8 == bytes - bytes % 4
  {
    ChunkLimit();
    Payload(bytes);
  }

  /** The memory of the new region, from its first header word to the end of its sentinel's, meets no other region. */
  ghost predicate RegionFree(h: Heap, at: Addr, payload: nat) {
    forall r | r in h.regions :: h.End(r) + START_OFFSET <= at || at + payload + START_OFFSET <= r + OVERHEAD
  }

  /** `rtl_mem_pool_add_mem`: the blocks. The caller's memory starts at the first header's size word. */
  function AddBlocks(h: Heap, at: Addr, payload: nat): Heap
    requires at >= OVERHEAD
  {
    var b := at - OVERHEAD;
    h.(blocks := h.blocks[b := Block(payload, true, NO_BLOCK)][at + payload := Block(0, false, b)],
       regions := h.regions[b := payload])
  }

  predicate RegionLegal(at: Addr, payload: nat) {
    at % 4 == 0 && at >= OVERHEAD && payload % 4 == 0 && BLK_SIZE_MIN <= payload < BLK_SIZE_MAX
  }

  /** Blocks of other regions keep their distance from the new one. */
  lemma RegionApart(h: Heap, at: Addr, payload: nat, c: Addr)
    requires Shape(h) && RegionFree(h, at, payload) && RegionLegal(at, payload) && c in h.blocks
    ensures h.Next(c) <= at - OVERHEAD || at + payload + OVERHEAD <= c
    ensures c + START_OFFSET + h.blocks[c].size <= at || at + payload + OVERHEAD <= c
    ensures c != at - OVERHEAD && c != at + payload
  {
    var r := RegionOf(h, c);
    assert RegionOk(h, r);
  }

  lemma AddBlocksOk(h: Heap, at: Addr, payload: nat)
    requires Shape(h) && RegionFree(h, at, payload) && RegionLegal(at, payload)
    ensures BlocksOk(AddBlocks(h, at, payload))
  {
    var g := AddBlocks(h, at, payload);
    forall c | c in g.blocks ensures BlockOk(g, c) {
      if c in h.blocks {
        AddOtherOk(h, at, payload, c);
      }
    }
  }

  lemma AddOtherOk(h: Heap, at: Addr, payload: nat, c: Addr)
    requires Shape(h) && RegionFree(h, at, payload) && RegionLegal(at, payload) && c in h.blocks
    ensures BlockOk(AddBlocks(h, at, payload), c)
  {
    RegionApart(h, at, payload, c);
    assert BlockOk(h, c);
    if h.blocks[c].prev != NO_BLOCK {
      RegionApart(h, at, payload, h.blocks[c].prev);
    }
    if h.blocks[c].size > 0 {
      RegionApart(h, at, payload, h.Next(c));
    }
  }

  lemma AddBlocksApart(h: Heap, at: Addr, payload: nat)
    requires Shape(h) && RegionFree(h, at, payload) && RegionLegal(at, payload)
    ensures Apart(AddBlocks(h, at, payload))
  {
    var g := AddBlocks(h, at, payload);
    forall c, d | c in g.blocks && d in g.blocks && c < d ensures g.Next(c) <= d {
      if c in h.blocks {
        RegionApart(h, at, payload, c);
      }
      if d in h.blocks {
        RegionApart(h, at, payload, d);
      }
    }
  }

  lemma AddRegionsOk(h: Heap, at: Addr, payload: nat)
    requires Shape(h) && RegionFree(h, at, payload) && RegionLegal(at, payload)
    ensures RegionsOk(AddBlocks(h, at, payload))
  {
    var g := AddBlocks(h, at, payload);
    forall r | r in g.regions ensures RegionOk(g, r) {
      if r in h.regions && r != at - OVERHEAD {
        assert RegionOk(h, r);
        RegionApart(h, at, payload, r);
        RegionApart(h, at, payload, h.End(r));
      }
    }
    forall r, s | r in g.regions && s in g.regions && r < s ensures g.End(r) < s {
      if r in h.regions {
        assert RegionOk(h, r);
        RegionApart(h, at, payload, r);
      }
      if s in h.regions {
        assert RegionOk(h, s);
        RegionApart(h, at, payload, s);
      }
    }
  }

  lemma AddLists(h: Heap, at: Addr, payload: nat)
    requires InvOff(h, {}) && RegionFree(h, at, payload) && RegionLegal(at, payload)
    ensures Listed(AddBlocks(h, at, payload)) && Complete(AddBlocks(h, at, payload), {at - OVERHEAD})
  {
    var g := AddBlocks(h, at, payload);
    forall c ensures g.List(c) == h.List(c) && NoDuplicates(g.List(c)) {
      assert NoDuplicates(h.List(c));
    }
    forall c | c in h.blocks ensures c != at - OVERHEAD && c != at + payload {
      RegionApart(h, at, payload, c);
    }
    forall c, x | x in g.List(c) ensures x in g.blocks && g.blocks[x].free && g.ClassOf(x) == c {
      assert x in h.List(c) && x in h.blocks && h.blocks[x].free && h.ClassOf(x) == c;
      assert g.blocks[x] == h.blocks[x];
    }
  }

  lemma AddCoalesced(h: Heap, at: Addr, payload: nat)
    requires InvOff(h, {}) && RegionFree(h, at, payload) && RegionLegal(at, payload)
    ensures Coalesced(AddBlocks(h, at, payload), {at - OVERHEAD})
  {
    forall c | c in h.blocks ensures c != at - OVERHEAD && c != at + payload {
      RegionApart(h, at, payload, c);
    }
  }

  /** A new region joins the pool as one free block, not yet listed, with a used neighbour. */
  lemma AddStep(h: Heap, at: Addr, payload: nat)
    requires Inv(h) && RegionFree(h, at, payload) && RegionLegal(at, payload)
    ensures var g, b := AddBlocks(h, at, payload), at - OVERHEAD;
            InvOff(g, {b}) && !g.PrevIsFree(b) && g.Next(b) == at + payload && !g.IsFree(at + payload)
  {
    AddBlocksOk(h, at, payload);
    AddBlocksApart(h, at, payload);
    AddRegionsOk(h, at, payload);
    AddLists(h, at, payload);
    AddCoalesced(h, at, payload);
  }
}
