/**
 What holds of the pool over whole runs: live allocations never meet, bytes are conserved, a release undoes an
 allocation, and a drained pool is again one free block per region.
 */
module PoolRuns {
  import opened Options
  import opened Bits
  import opened SizeClass
  import opened PoolHeap
  import opened PoolOps

  // Live blocks

  /** Bytes a caller may use. */
  ghost predicate Owns(h: Heap, b: Addr, a: int) {
    h.IsLive(b) && b + START_OFFSET <= a < b + START_OFFSET + h.blocks[b].size
  }

  /** No byte has two owners, and every owned byte is inside a region, aligned from its block's start. */
  lemma OwnersApart(h: Heap, b: Addr, c: Addr, a: int)
    requires Shape(h) && Owns(h, b, a) && Owns(h, c, a)
    ensures b == c && (b + START_OFFSET) % 4 == 0
    ensures exists r :: r in h.regions && r + START_OFFSET <= a < r + START_OFFSET + h.regions[r]
  {
    assert BlockOk(h, b) && BlockOk(h, c);
    var r := RegionOf(h, b);
    assert RegionOk(h, r);
  }

  // A release undoes an allocation

  /** Allocating a block and releasing it at once restores the physical sequence of blocks. */
  lemma RoundTrip(h: Heap, b: Addr, size: nat)
    requires Inv(h) && h.IsFree(b) && Adjusted(size) && size <= h.blocks[b].size
    ensures h.Next(b) in h.blocks && Inv(Take(h, b, size)) && Take(h, b, size).IsLive(b)
    ensures Release(Take(h, b, size), b).blocks == h.blocks
  {
    TakeInv(h, b, size);
    TakeLive(h, b, size);
    ReleaseIs(Take(h, b, size), b);
    RoundTripMerged(h, b, size);
  }

  lemma RoundTripMerged(h: Heap, b: Addr, size: nat)
    requires Inv(h) && h.IsFree(b) && Adjusted(size) && size <= h.blocks[b].size && h.Next(b) in h.blocks
    ensures var f := SetFree(Take(h, b, size), b, true);
            && b in f.blocks && !f.PrevIsFree(b)
            && ((f.IsFree(f.Next(b)) ==> CanAbsorb(f, b)) ==> MergeNext(f, b).blocks == h.blocks)
  {
    FreeSurrounded(h, b);
    if size + HEADER_SIZE <= h.blocks[b].size {
      SplitIsNew(h, b, size);
    }
    SurroundedMerged(h, b, size);
  }

  lemma SurroundedMerged(h: Heap, b: Addr, size: nat)
    requires Surrounded(h, b) && (size + HEADER_SIZE <= h.blocks[b].size ==> b + OVERHEAD + size !in h.blocks)
    ensures var f := SetFree(Take(h, b, size), b, true);
            && b in f.blocks && !f.PrevIsFree(b)
            && ((f.IsFree(f.Next(b)) ==> CanAbsorb(f, b)) ==> MergeNext(f, b).blocks == h.blocks)
  {
    if size + HEADER_SIZE <= h.blocks[b].size {
      RoundTripSplit(h, b, size);
    } else {
      RoundTripWhole(h, b, size);
    }
  }

  lemma ReleaseIs(h: Heap, b: Addr)
    requires Inv(h) && h.IsLive(b)
    ensures var f := SetFree(h, b, true);
            !f.PrevIsFree(b) ==>
              && (f.IsFree(f.Next(b)) ==> CanAbsorb(f, b))
              && Release(h, b).blocks == MergeNext(f, b).blocks
  {
    ReleaseSteps(h, b);
  }

  /** A free block between used neighbours. */
  ghost predicate Surrounded(h: Heap, b: Addr) {
    && h.IsFree(b) && h.Next(b) in h.blocks && h.blocks[h.Next(b)].prev == b
    && !h.PrevIsFree(b) && !h.IsFree(h.Next(b)) && h.blocks[b].prev < b
  }

  lemma FreeSurrounded(h: Heap, b: Addr)
    requires Inv(h) && h.IsFree(b)
    ensures Surrounded(h, b)
  {
    BlockAndPrev(h, b);
  }

  lemma BlockAndPrev(h: Heap, b: Addr)
    requires BlocksOk(h) && b in h.blocks
    ensures BlockOk(h, b)
    ensures h.blocks[b].prev != NO_BLOCK ==> h.blocks[b].prev in h.blocks && BlockOk(h, h.blocks[b].prev)
  {
    assert BlockOk(h, b);
    if h.blocks[b].prev != NO_BLOCK {
      assert BlockOk(h, h.blocks[b].prev);
    }
  }

  /** Allocating the block whole: the release finds no free neighbour. */
  lemma RoundTripWhole(h: Heap, b: Addr, size: nat)
    requires Surrounded(h, b) && h.blocks[b].size < size + HEADER_SIZE
    ensures var f := SetFree(Take(h, b, size), b, true);
            f.blocks == h.blocks && !f.PrevIsFree(b) && !f.IsFree(f.Next(b))
  {
  }

  /** The allocation cut the block: the release merges with the remainder and undoes the cut. */
  lemma RoundTripSplit(h: Heap, b: Addr, size: nat)
    requires Surrounded(h, b) && size + HEADER_SIZE <= h.blocks[b].size
    requires b + OVERHEAD + size !in h.blocks
    ensures var f, rest := SetFree(Take(h, b, size), b, true), b + OVERHEAD + size;
            && b in f.blocks && !f.PrevIsFree(b) && f.Next(b) == rest && f.IsFree(rest)
            && (CanAbsorb(Remove(f, rest), b) ==> Absorb(Remove(f, rest), b).blocks == h.blocks)
  {
    var f, rest := SetFree(Take(h, b, size), b, true), b + OVERHEAD + size;
    if CanAbsorb(Remove(f, rest), b) {
      var k := Absorb(Remove(f, rest), b);
      assert k.blocks.Keys == h.blocks.Keys;
    }
  }

  // A drained pool

  /** When nothing is live, each region is one free block of its original size, followed by its sentinel. */
  lemma Drained(h: Heap, r: Addr)
    requires Inv(h) && (forall b :: !h.IsLive(b)) && r in h.regions
    ensures h.IsFree(r) && h.blocks[r].size == h.regions[r] && h.Next(r) == h.End(r)
    ensures forall b | b in h.blocks && r <= b <= h.End(r) :: b == r || b == h.End(r)
  {
    assert RegionOk(h, r);
    var e := h.End(r);
    SentinelIsEnd(h, r, r);
    assert !h.IsLive(r);
    BlockAndPrev(h, e);
    var p := h.blocks[e].prev;
    var q := if p in h.blocks then h.blocks[p].prev else NO_BLOCK;
    assert !h.IsLive(p) && !h.IsLive(q);
  }

  // Bytes are conserved

  /** The blocks from b up to e, in physical order. */
  function Walk(h: Heap, b: Addr, e: Addr): seq<Addr>
    decreases e - b
  {
    if b < e && b in h.blocks then [b] + Walk(h, h.Next(b), e) else []
  }

  /** Payload bytes of the live blocks of a walk, or of the free ones. */
  function Bytes(h: Heap, s: seq<Addr>, free: bool): nat {
    if s == [] then 0
    else (if s[0] in h.blocks && h.blocks[s[0]].free == free then h.blocks[s[0]].size else 0) + Bytes(h, s[1..], free)
  }

  /** A region is exactly tiled: live bytes, free bytes and one header per block, sentinel included, add up to the
      bytes that were added. */
  lemma {:induction false} WalkAddsUp(h: Heap, b: Addr, r: Addr)
    requires Shape(h) && b in h.blocks && r in h.regions && r <= b <= h.End(r)
    ensures var w := Walk(h, b, h.End(r));
            Bytes(h, w, false) + Bytes(h, w, true) + OVERHEAD * |w| == h.End(r) - b
    ensures forall c | c in h.blocks && b <= c < h.End(r) :: c in Walk(h, b, h.End(r))
    decreases h.End(r) - b
  {
    var e := h.End(r);
    if b < e {
      SentinelIsEnd(h, b, r);
      assert BlockOk(h, b);
      var n := h.Next(b);
      WalkAddsUp(h, n, r);
      var w := Walk(h, b, e);
      assert w == [b] + Walk(h, n, e) && w[1..] == Walk(h, n, e);
      forall c | c in h.blocks && b <= c < e ensures c in w {
        if c != b {
          assert n <= c;
          assert c in Walk(h, n, e);
        }
      }
    }
  }

  ghost predicate AddsUp(h: Heap, r: Addr)
    requires r in h.regions
  {
    var w := Walk(h, r, h.End(r));
    && Bytes(h, w, false) + Bytes(h, w, true) + OVERHEAD * (|w| + 1) == h.regions[r] + 2 * OVERHEAD
    && forall c | c in h.blocks && r <= c < h.End(r) :: c in w
  }

  lemma Conserved(h: Heap, r: Addr)
    requires Inv(h) && r in h.regions
    ensures AddsUp(h, r)
  {
    assert RegionOk(h, r);
    WalkAddsUp(h, r, r);
  }

  // Runs

  datatype Op = OpAdd(at: Addr, bytes: Word) | OpAlloc(size: Word) | OpFree(ptr: Addr)

  /** The pool together with what its callers hold, the bytes they asked for, by block, and the memory they added. */
  datatype Run = Run(heap: Heap, held: map<Addr, Word>, added: map<Addr, Word>)

  /** A region of so many bytes is accepted. */
  predicate Accepted(bytes: Word) {
    BLK_SIZE_MIN + 8 <= bytes < BLK_SIZE_MAX + 8
  }

  /** What the callers must respect: accepted regions are fresh, a search stays in the tables, requests do not wrap
      around when aligned, and only held pointers are given back. */
  ghost predicate Legal(s: Run, op: Op) {
    match op
    case OpAdd(at, bytes) =>
      && RegionBytes(bytes) != BLK_SIZE_MAX
      && (Accepted(bytes) ==> at > 0 && at % 4 == 0 && RegionFree(s.heap, at, RegionBytes(bytes)))
    case OpAlloc(size) => size <= 0xFFFF_FFFC && MappingSearch(AdjustRequestSize(size)).InTable()
    case OpFree(ptr) => ptr >= START_OFFSET && ptr - START_OFFSET in s.held
  }

  ghost predicate RunInv(s: Run) {
    Inv(s.heap) && HeldOk(s.heap, s.held) && AddedOk(s.heap, s.added)
  }

  /** Every region is memory that was added: its payload is all the bytes but two headers, rounded down. */
  ghost predicate AddedOk(h: Heap, added: map<Addr, Word>) {
    forall r | r in h.regions ::
      r + OVERHEAD in added && h.regions[r] + 8 == added[r + OVERHEAD] - added[r + OVERHEAD] % 4
  }

  /** Exactly the live blocks are held, each by a caller who asked for no more than it has. */
  ghost predicate HeldOk(h: Heap, held: map<Addr, Word>) {
    && (forall b :: b in held <==> h.IsLive(b))
    && (forall b | b in held :: held[b] <= h.blocks[b].size)
  }

  lemma HeldLess(h: Heap, g: Heap, held: map<Addr, Word>, b: Addr)
    requires HeldOk(h, held) && LiveLess(h, g, b)
    ensures HeldOk(g, held - {b})
  {
  }

  ghost function Step(s: Run, op: Op): Run
    requires RunInv(s) && Legal(s, op)
  {
    match op
    case OpAdd(at, bytes) =>
      if !Accepted(bytes) then s
      else s.(heap := Insert(AddBlocks(s.heap, at, RegionBytes(bytes)), at - OVERHEAD), added := s.added[at := bytes])
    case OpAlloc(size) =>
      var adjust := AdjustRequestSize(size);
      if adjust == 0 || Locate(s.heap, adjust).None? then s
      else
        var b := Locate(s.heap, adjust).value;
        AllocDefined(s.heap, size);
        s.(heap := Take(s.heap, b, adjust), held := s.held[b := size])
    case OpFree(ptr) =>
      var b := ptr - START_OFFSET;
      s.(heap := Release(s.heap, b), held := s.held - {b})
  }

  lemma AllocDefined(h: Heap, size: Word)
    requires Inv(h) && AdjustRequestSize(size) != 0 && Locate(h, AdjustRequestSize(size)).Some?
    ensures var b := Locate(h, AdjustRequestSize(size)).value;
            && h.IsFree(b) && h.Next(b) in h.blocks && AdjustRequestSize(size) <= h.blocks[b].size
            && Adjusted(AdjustRequestSize(size))
  {
    AdjustCovers(size);
    LocateFits(h, AdjustRequestSize(size));
    assert BlockOk(h, Locate(h, AdjustRequestSize(size)).value);
  }

  lemma StepAlloc(s: Run, size: Word)
    requires RunInv(s) && Legal(s, OpAlloc(size))
    ensures RunInv(Step(s, OpAlloc(size)))
  {
    var adjust := AdjustRequestSize(size);
    if adjust != 0 && Locate(s.heap, adjust).Some? {
      AllocDefined(s.heap, size);
      AdjustCovers(size);
      var b := Locate(s.heap, adjust).value;
      assert Inv(Take(s.heap, b, adjust)) by {
        TakeInv(s.heap, b, adjust);
      }
      TakeLive(s.heap, b, adjust);
    }
  }

  lemma StepFree(s: Run, ptr: Addr)
    requires RunInv(s) && Legal(s, OpFree(ptr))
    ensures RunInv(Step(s, OpFree(ptr)))
  {
    var b := ptr - START_OFFSET;
    ReleaseInv(s.heap, b);
    ReleaseLive(s.heap, b);
    assert HeldOk(Release(s.heap, b), s.held - {b}) by {
      ReleaseHeld(s.heap, s.held, b);
    }
  }

  lemma ReleaseHeld(h: Heap, held: map<Addr, Word>, b: Addr)
    requires Inv(h) && HeldOk(h, held) && b in held
    ensures HeldOk(Release(h, b), held - {b})
  {
    ReleaseLive(h, b);
    HeldLess(h, Release(h, b), held, b);
  }

  lemma AddedInv(h: Heap, at: Addr, payload: nat)
    requires Inv(h) && RegionFree(h, at, payload) && RegionLegal(at, payload)
    ensures Inv(Insert(AddBlocks(h, at, payload), at - OVERHEAD))
  {
    AddStep(h, at, payload);
    InsertStep(AddBlocks(h, at, payload), {at - OVERHEAD}, at - OVERHEAD);
    assert {at - OVERHEAD} - {at - OVERHEAD} == {};
  }

  lemma AddedLive(h: Heap, at: Addr, payload: nat, x: Addr)
    requires Inv(h) && RegionFree(h, at, payload) && RegionLegal(at, payload)
    ensures Insert(AddBlocks(h, at, payload), at - OVERHEAD).IsLive(x) <==> h.IsLive(x)
    ensures h.IsLive(x) ==> Insert(AddBlocks(h, at, payload), at - OVERHEAD).blocks[x].size == h.blocks[x].size
  {
    if x in h.blocks {
      RegionApart(h, at, payload, x);
    }
  }

  lemma AcceptedIs(at: Addr, bytes: Word)
    requires Accepted(bytes) && at > 0 && at % 4 == 0
    ensures RegionLegal(at, RegionBytes(bytes)) && RegionBytes(bytes) + 8 == bytes - bytes % 4
  {
    RegionExact(bytes);
  }

  lemma StepAdd(s: Run, at: Addr, bytes: Word)
    requires RunInv(s) && Legal(s, OpAdd(at, bytes))
    ensures RunInv(Step(s, OpAdd(at, bytes)))
  {
    if Accepted(bytes) {
      AcceptedIs(at, bytes);
      AddedRun(s, at, bytes, RegionBytes(bytes));
    }
  }

  lemma AddedRun(s: Run, at: Addr, bytes: Word, payload: nat)
    requires RunInv(s) && RegionFree(s.heap, at, payload) && RegionLegal(at, payload)
    requires payload + 8 == bytes - bytes % 4
    ensures RunInv(s.(heap := Insert(AddBlocks(s.heap, at, payload), at - OVERHEAD), added := s.added[at := bytes]))
  {
    AddedHeld(s.heap, s.held, at, payload);
    AddedMemory(s.heap, s.added, at, bytes, payload);
  }

  lemma AddedHeld(h: Heap, held: map<Addr, Word>, at: Addr, payload: nat)
    requires Inv(h) && HeldOk(h, held) && RegionFree(h, at, payload) && RegionLegal(at, payload)
    ensures Inv(Insert(AddBlocks(h, at, payload), at - OVERHEAD))
    ensures HeldOk(Insert(AddBlocks(h, at, payload), at - OVERHEAD), held)
  {
    var g := Insert(AddBlocks(h, at, payload), at - OVERHEAD);
    AddedInv(h, at, payload);
    forall x: Addr ensures g.IsLive(x) <==> h.IsLive(x)
             ensures h.IsLive(x) ==> g.blocks[x].size == h.blocks[x].size {
      AddedLive(h, at, payload, x);
    }
  }

  lemma AddedMemory(h: Heap, added: map<Addr, Word>, at: Addr, bytes: Word, payload: nat)
    requires AddedOk(h, added) && at >= OVERHEAD && payload + 8 == bytes - bytes % 4
    requires RegionFree(h, at, payload) && payload > 0
    ensures AddedOk(Insert(AddBlocks(h, at, payload), at - OVERHEAD), added[at := bytes])
  {
  }

  ghost function RunAll(s: Run, ops: seq<Op>): Run
    requires RunInv(s) && AllLegal(s, ops)
    decreases |ops|
  {
    if ops == [] then s
    else
      StepInv(s, ops[0]);
      RunAll(Step(s, ops[0]), ops[1..])
  }

  ghost predicate AllLegal(s: Run, ops: seq<Op>)
    requires RunInv(s)
    decreases |ops|
  {
    ops == [] || (Legal(s, ops[0]) && (StepInv(s, ops[0]); AllLegal(Step(s, ops[0]), ops[1..])))
  }

  lemma StepInv(s: Run, op: Op)
    requires RunInv(s) && Legal(s, op)
    ensures RunInv(Step(s, op))
  {
    match op
    case OpAdd(at, bytes) => StepAdd(s, at, bytes);
    case OpAlloc(size) => StepAlloc(s, size);
    case OpFree(ptr) => StepFree(s, ptr);
  }

  /** Over any legal run, from any good state: the invariant holds at the end, so in particular what callers hold is
      live and large enough. */
  lemma {:induction false} RunKeepsInv(s: Run, ops: seq<Op>)
    requires RunInv(s) && AllLegal(s, ops)
    ensures RunInv(RunAll(s, ops))
    decreases |ops|
  {
    if ops != [] {
      StepInv(s, ops[0]);
      RunKeepsInv(Step(s, ops[0]), ops[1..]);
    }
  }

  function Start(): (s: Run)
    ensures RunInv(s)
  {
    Run(Heap(map[], map[], map[]), map[], map[])
  }

  /** No byte is held twice. */
  ghost predicate NothingShared(s: Run) {
    forall b, c, a | b in s.held && c in s.held && Owns(s.heap, b, a) && Owns(s.heap, c, a) :: b == c
  }

  /** What is held is aligned and covers what was asked for. */
  ghost predicate HeldServed(s: Run) {
    forall b | b in s.held :: (b + START_OFFSET) % 4 == 0 && s.heap.IsLive(b) && s.held[b] <= s.heap.blocks[b].size
  }

  ghost predicate InRegion(h: Heap, b: Addr, r: Addr) {
    b in h.blocks && r in h.regions && r <= b && b + h.blocks[b].size <= r + h.regions[r]
  }

  /** The usable bytes of a block lie in the memory that was added at this address. */
  ghost predicate InMemory(s: Run, b: Addr, at: Addr) {
    && b in s.heap.blocks && at in s.added
    && at + OVERHEAD <= b + START_OFFSET && b + START_OFFSET + s.heap.blocks[b].size + OVERHEAD <= at + s.added[at]
  }

  /** What is held lies in memory that was added, to its last byte, with room for the headers around it. */
  ghost predicate HeldInside(s: Run) {
    forall b | b in s.held :: exists at :: InMemory(s, b, at)
  }

  lemma LiveInRegion(h: Heap, b: Addr) returns (r: Addr)
    requires Shape(h) && h.IsLive(b)
    ensures InRegion(h, b, r)
  {
    r := RegionOf(h, b);
    assert RegionOk(h, r);
  }

  lemma RegionInMemory(s: Run, b: Addr, r: Addr)
    requires AddedOk(s.heap, s.added) && InRegion(s.heap, b, r)
    ensures InMemory(s, b, r + OVERHEAD)
  {
  }

  lemma InvIsSafe(s: Run)
    requires RunInv(s)
    ensures HeldServed(s) && NothingShared(s) && HeldInside(s)
  {
    forall b | b in s.held ensures (b + START_OFFSET) % 4 == 0 && exists at :: InMemory(s, b, at) {
      assert BlockOk(s.heap, b);
      var r := LiveInRegion(s.heap, b);
      RegionInMemory(s, b, r);
    }
    forall b, c, a | b in s.held && c in s.held && Owns(s.heap, b, a) && Owns(s.heap, c, a) ensures b == c {
      OwnersApart(s.heap, b, c, a);
    }
  }

  /** Whatever is allocated, released and added, in any order: live allocations are aligned, hold the bytes asked for,
      lie inside a region and share no byte, and each region's bytes add up. */
  lemma RunsAreSafe(ops: seq<Op>)
    requires AllLegal(Start(), ops)
    ensures var s := RunAll(Start(), ops);
            HeldServed(s) && NothingShared(s) && HeldInside(s) && forall r | r in s.heap.regions :: AddsUp(s.heap, r)
  {
    RunKeepsInv(Start(), ops);
    var s := RunAll(Start(), ops);
    InvIsSafe(s);
    forall r | r in s.heap.regions ensures AddsUp(s.heap, r) {
      Conserved(s.heap, r);
    }
  }

  lemma StepRegions(s: Run, op: Op, r: Addr)
    requires RunInv(s) && Legal(s, op) && r in s.heap.regions
    ensures r in Step(s, op).heap.regions && Step(s, op).heap.regions[r] == s.heap.regions[r]
  {
    match op
    case OpAdd(at, bytes) =>
      assert Accepted(bytes) ==> r != at - OVERHEAD;
    case OpAlloc(size) =>
      var adjust := AdjustRequestSize(size);
      if adjust != 0 && Locate(s.heap, adjust).Some? {
        AllocDefined(s.heap, size);
        TakeLive(s.heap, Locate(s.heap, adjust).value, adjust);
      }
    case OpFree(ptr) => ReleaseLive(s.heap, ptr - START_OFFSET);
  }

  /** No run moves, shrinks or drops a region. */
  lemma {:induction false} RegionsStay(s: Run, ops: seq<Op>, r: Addr)
    requires RunInv(s) && AllLegal(s, ops) && r in s.heap.regions
    ensures r in RunAll(s, ops).heap.regions && RunAll(s, ops).heap.regions[r] == s.heap.regions[r]
    decreases |ops|
  {
    if ops != [] {
      StepInv(s, ops[0]);
      StepRegions(s, ops[0], r);
      RegionsStay(Step(s, ops[0]), ops[1..], r);
    }
  }

  /** Once every held block has been given back, in whatever order, each region is one free block again, of the size it
      had before the run. */
  lemma DrainRestores(s: Run, ops: seq<Op>, r: Addr)
    requires RunInv(s) && AllLegal(s, ops) && RunAll(s, ops).held == map[] && r in s.heap.regions
    ensures var h := RunAll(s, ops).heap;
            && r in h.regions && h.IsFree(r) && h.blocks[r].size == h.regions[r] == s.heap.regions[r]
            && forall b | b in h.blocks && r <= b <= h.End(r) :: b == r || b == h.End(r)
  {
    RunKeepsInv(s, ops);
    RegionsStay(s, ops, r);
    Drained(RunAll(s, ops).heap, r);
  }

  lemma MemoryIsRestored(s: Run, ops: seq<Op>, at: Addr)
    requires RunInv(s) && AllLegal(s, ops) && RunAll(s, ops).held == map[]
    requires at >= OVERHEAD && at - OVERHEAD in s.heap.regions
    ensures at in s.added
    ensures var h := RunAll(s, ops).heap;
            h.IsFree(at - OVERHEAD) && h.blocks[at - OVERHEAD].size + 8 == s.added[at] - s.added[at] % 4
  {
    DrainRestores(s, ops, at - OVERHEAD);
  }

  /** So the memory of a region, all of what was added but two headers, is one free block whenever nothing is held. */
  lemma AddedIsRestored(s: Run, at: Addr, bytes: Word, ops: seq<Op>)
    requires RunInv(s) && Legal(s, OpAdd(at, bytes)) && Accepted(bytes)
    requires var s' := Step(s, OpAdd(at, bytes)); RunInv(s') && AllLegal(s', ops) && RunAll(s', ops).held == map[]
    ensures var h := RunAll(Step(s, OpAdd(at, bytes)), ops).heap;
            h.IsFree(at - OVERHEAD) && h.blocks[at - OVERHEAD].size + 8 == bytes - bytes % 4
  {
    var s' := Step(s, OpAdd(at, bytes));
    assert at - OVERHEAD in s'.heap.regions && at in s'.added && s'.added[at] == bytes;
    MemoryIsRestored(s', ops, at);
  }
}
