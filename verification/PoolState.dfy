/**
 The pool's complete invariant, over memory, index and abstract heap together, and its preservation by each step.
 */
module PoolState {
  import opened Bits
  import opened SizeClass
  import opened PoolHeap
  import opened PoolMemory
  import opened PoolLinks
  import opened PoolOps
  import opened PoolIndex

  /** Words, lists, bitmaps and abstract heap all agree; the blocks `off` are held out of the lists. */
  ghost predicate Consistent(m: Memory, ix: Index, h: Heap, nil: Addr, off: set<Addr>) {
    InvOff(h, off) && Laid(m, h, nil) && Agrees(ix, h, nil)
  }

  lemma LinksSameLists(m: Memory, n: Memory, h: Heap, g: Heap, nil: Addr, except: set<Addr>)
    requires BlocksOk(h) && Listed(h) && Links(m, h, nil) && g.lists == h.lists && Keeps(m, n, h, except)
    requires forall b, c | b in except :: b !in h.List(c)
    ensures Links(n, g, nil)
  {
    forall c ensures LinksOk(n, g.List(c), nil) {
      assert LinksOk(m, h.List(c), nil);
      forall x | x in h.List(c) ensures W(n, x + 8) == W(m, x + 8) && W(n, x + 12) == W(m, x + 12) {
        assert BlockOk(h, x);
        assert Inside(h, x, x + 8) && Inside(h, x, x + 12);
      }
      LinksFrame(m, n, h.List(c), nil);
    }
  }

  lemma InsertConsistent(m: Memory, ix: Index, h: Heap, nil: Addr, off: set<Addr>, b: Addr)
    requires Consistent(m, ix, h, nil, off) && b in off
    requires h.PrevIsFree(b) ==> h.blocks[b].prev in off
    requires h.IsFree(h.Next(b)) ==> h.Next(b) in off
    ensures h.ClassOf(b).InTable() && ix.heads[h.ClassOf(b).Rank()] == At(h.List(h.ClassOf(b)), 0, nil)
    ensures var current := ix.heads[h.ClassOf(b).Rank()];
            && Consistent(InsertLinks(m, b, current, nil), InsertIndex(ix, h.ClassOf(b), b),
                          Insert(h, b), nil, off - {b})
            && KeepsPayloads(m, InsertLinks(m, b, current, nil), h)
  {
    InsertInTable(m, ix, h, nil, off, b);
    var current := ix.heads[h.ClassOf(b).Rank()];
    assert InvOff(Insert(h, b), off - {b}) by {
      InsertStep(h, off, b);
    }
    assert Agrees(InsertIndex(ix, h.ClassOf(b), b), Insert(h, b), nil) by {
      InsertAgrees(ix, h, nil, b);
    }
    InsertLaid(m, h, nil, off, b);
  }

  lemma InsertInTable(m: Memory, ix: Index, h: Heap, nil: Addr, off: set<Addr>, b: Addr)
    requires Consistent(m, ix, h, nil, off) && b in off
    ensures h.ClassOf(b).InTable() && ix.heads[h.ClassOf(b).Rank()] == At(h.List(h.ClassOf(b)), 0, nil)
  {
    SizeBound(h, b);
    InTableIff(h.blocks[b].size);
    assert HeadOk(ix, h, nil, h.ClassOf(b));
  }

  lemma InsertLaid(m: Memory, h: Heap, nil: Addr, off: set<Addr>, b: Addr)
    requires InvOff(h, off) && Laid(m, h, nil) && b in off
    ensures var current := At(h.List(h.ClassOf(b)), 0, nil);
            && Laid(InsertLinks(m, b, current, nil), Insert(h, b), nil)
            && KeepsPayloads(m, InsertLinks(m, b, current, nil), h)
  {
    var s := h.List(h.ClassOf(b));
    var current := At(s, 0, nil);
    assert s != [] ==> s[0] in s;
    assert Words(InsertLinks(m, b, current, nil), h) && KeepsPayloads(m, InsertLinks(m, b, current, nil), h) by {
      InsertWords(m, h, nil, b, current);
    }
    assert Links(InsertLinks(m, b, current, nil), Insert(h, b), nil) by {
      InsertLinksOk(m, h, nil, b);
    }
    SameBlocksWords(InsertLinks(m, b, current, nil), h, Insert(h, b));
  }

  lemma SameBlocksWords(m: Memory, h: Heap, g: Heap)
    requires Words(m, h) && g.blocks == h.blocks
    ensures Words(m, g)
  {
    forall c | c in g.blocks ensures HeaderOk(m, g, c) && PrevPhysOk(m, g, c) {
      assert HeaderOk(m, h, c) && PrevPhysOk(m, h, c);
    }
  }

  lemma RemoveConsistent(m: Memory, ix: Index, h: Heap, nil: Addr, off: set<Addr>, b: Addr)
    requires Consistent(m, ix, h, nil, off) && h.IsFree(b) && b !in off
    ensures h.ClassOf(b).InTable() && W(m, b + 8) >= 0
    ensures Consistent(RemoveLinks(m, b), RemoveIndex(ix, h.ClassOf(b), b, W(m, b + 8), nil),
                       Remove(h, b), nil, off + {b})
    ensures KeepsPayloads(m, RemoveLinks(m, b), h)
  {
    assert InvOff(Remove(h, b), off + {b}) by {
      RemoveStep(h, off, b);
    }
    RemoveAgreesHere(m, ix, h, nil, off, b);
    RemoveLaid(m, h, nil, b);
  }

  lemma RemoveAgreesHere(m: Memory, ix: Index, h: Heap, nil: Addr, off: set<Addr>, b: Addr)
    requires Consistent(m, ix, h, nil, off) && h.IsFree(b) && b !in off
    ensures h.ClassOf(b).InTable() && W(m, b + 8) >= 0
    ensures Agrees(RemoveIndex(ix, h.ClassOf(b), b, W(m, b + 8), nil), Remove(h, b), nil)
  {
    var s := h.List(h.ClassOf(b));
    var i := ListNeighbours(m, h, nil, b);
    assert h.ClassOf(b).InTable() by {
      SizeBound(h, b);
      InTableIff(h.blocks[b].size);
    }
    assert nil !in s by {
      NilIsNoBlock(h, nil);
    }
    RemoveAgrees(ix, h, nil, s, i);
  }

  lemma RemoveLaid(m: Memory, h: Heap, nil: Addr, b: Addr)
    requires BlocksOk(h) && Apart(h) && Listed(h) && Laid(m, h, nil) && b in h.blocks && b in h.List(h.ClassOf(b))
    ensures Laid(RemoveLinks(m, b), Remove(h, b), nil)
    ensures KeepsPayloads(m, RemoveLinks(m, b), h)
  {
    assert Words(RemoveLinks(m, b), h) && KeepsPayloads(m, RemoveLinks(m, b), h) by {
      RemoveWords(m, h, nil, b);
    }
    assert Links(RemoveLinks(m, b), Remove(h, b), nil) by {
      RemoveLinksOk(m, h, nil, b);
    }
    SameBlocksWords(RemoveLinks(m, b), h, Remove(h, b));
  }

  lemma SameListsAgrees(ix: Index, h: Heap, g: Heap, nil: Addr)
    requires Agrees(ix, h, nil) && g.lists == h.lists
    ensures Agrees(ix, g, nil)
  {
    forall c: Class | c.InTable() ensures HeadOk(ix, g, nil, c) {
      assert HeadOk(ix, h, nil, c);
    }
  }

  /** Writes outside the payloads of live blocks, said with the blocks they do happen in. */
  lemma KeepsIsKeepsPayloads(m: Memory, n: Memory, h: Heap, g: Heap, except: set<Addr>)
    requires Keeps(m, n, h, except)
    requires forall x | g.IsLive(x) :: h.IsLive(x) && g.blocks[x].size == h.blocks[x].size && x !in except
    ensures KeepsPayloads(m, n, g)
  {
    forall b: Addr, a: int | Inside(g, b, a) && g.IsLive(b) ensures W(n, a) == W(m, a) {
      assert Inside(h, b, a);
    }
  }

  lemma FreeConsistent(m: Memory, ix: Index, h: Heap, nil: Addr, off: set<Addr>, b: Addr)
    requires Consistent(m, ix, h, nil, off) && h.IsLive(b)
    ensures Consistent(MarkFree(m, h, b), ix, SetFree(h, b, true), nil, off + {b})
    ensures KeepsPayloads(m, MarkFree(m, h, b), SetFree(h, b, true))
  {
    var n, g := MarkFree(m, h, b), SetFree(h, b, true);
    assert InvOff(g, off + {b}) by {
      FreeStep(h, off, b);
    }
    SameListsAgrees(ix, h, g, nil);
    assert Words(n, g) by {
      MarkFreeWords(m, h, b);
    }
    assert Keeps(m, n, h, {b}) by {
      MarkFreeKeeps(m, h, b);
    }
    assert Links(n, g, nil) by {
      LinksSameLists(m, n, h, g, nil, {b});
    }
    KeepsIsKeepsPayloads(m, n, h, g, {b});
  }

  lemma UseConsistent(m: Memory, ix: Index, h: Heap, nil: Addr, off: set<Addr>, b: Addr)
    requires Consistent(m, ix, h, nil, off) && b in off
    ensures Consistent(MarkUsed(m, h, b), ix, SetFree(h, b, false), nil, off - {b})
    ensures KeepsPayloads(m, MarkUsed(m, h, b), h)
  {
    var n, g := MarkUsed(m, h, b), SetFree(h, b, false);
    assert InvOff(g, off - {b}) by {
      UseStep(h, off, b);
    }
    SameListsAgrees(ix, h, g, nil);
    assert Words(n, g) by {
      MarkUsedWords(m, h, b);
    }
    assert Keeps(m, n, h, {}) by {
      MarkUsedKeeps(m, h, b);
    }
    assert Links(n, g, nil) by {
      LinksSameLists(m, n, h, g, nil, {});
    }
    KeepsIsKeepsPayloads(m, n, h, h, {});
  }

  lemma AbsorbConsistent(m: Memory, ix: Index, h: Heap, nil: Addr, off: set<Addr>, p: Addr)
    requires Consistent(m, ix, h, nil, off) && p in off && h.Next(p) in off
    ensures CanAbsorb(h, p)
    ensures Consistent(AbsorbInto(m, h, p), ix, Absorb(h, p), nil, off - {h.Next(p)})
    ensures KeepsPayloads(m, AbsorbInto(m, h, p), h)
  {
    assert CanAbsorb(h, p) && InvOff(Absorb(h, p), off - {h.Next(p)}) by {
      AbsorbStep(h, off, p);
    }
    var n, g, b := AbsorbInto(m, h, p), Absorb(h, p), h.Next(p);
    SameListsAgrees(ix, h, g, nil);
    assert Words(n, g) by {
      AbsorbWords(m, h, p);
    }
    assert Keeps(m, n, h, {b}) by {
      AbsorbKeeps(m, h, p);
    }
    assert Links(n, g, nil) by {
      LinksSameLists(m, n, h, g, nil, {b});
    }
    KeepsIsKeepsPayloads(m, n, h, h, {b});
    assert NullApart(g, nil) by {
      AbsorbNullApart(h, nil, p);
    }
  }

  lemma AbsorbNullApart(h: Heap, nil: Addr, p: Addr)
    requires BlocksOk(h) && NullApart(h, nil) && CanAbsorb(h, p)
    ensures NullApart(Absorb(h, p), nil)
  {
    assert BlockOk(h, p);
  }

  lemma SplitConsistent(m: Memory, ix: Index, h: Heap, nil: Addr, off: set<Addr>, b: Addr, size: nat)
    requires Consistent(m, ix, h, nil, off) && b in off && CanSplit(h, b, size)
    ensures Consistent(SplitOff(m, h, b, size), ix, Split(h, b, size), nil, off + {b + OVERHEAD + size})
    ensures KeepsPayloads(m, SplitOff(m, h, b, size), h)
  {
    var n, g := SplitOff(m, h, b, size), Split(h, b, size);
    assert InvOff(g, off + {b + OVERHEAD + size}) by {
      SplitStep(h, off, b, size);
    }
    SameListsAgrees(ix, h, g, nil);
    assert Words(n, g) by {
      SplitWords(m, h, b, size);
    }
    assert Keeps(m, n, h, {b}) by {
      SplitKeeps(m, h, b, size);
    }
    assert Links(n, g, nil) by {
      LinksSameLists(m, n, h, g, nil, {b});
    }
    KeepsIsKeepsPayloads(m, n, h, h, {b});
  }

  lemma HeaderIsSize(m: Memory, h: Heap, b: Addr)
    requires BlocksOk(h) && Words(m, h) && b in h.blocks
    ensures SizeOf(W(m, b + 4)) == h.blocks[b].size
    ensures FreeBit(W(m, b + 4)) == h.blocks[b].free && PrevFreeBit(W(m, b + 4)) == h.PrevIsFree(b)
    ensures h.PrevIsFree(b) ==> W(m, b) == h.blocks[b].prev
  {
    assert BlockOk(h, b) && HeaderOk(m, h, b) && PrevPhysOk(m, h, b);
    DecodeHeader(m, h, b);
  }

  /** After the sizes are added up, the successor computed from memory is the absorbed block's successor. */
  lemma AbsorbTarget(m: Memory, h: Heap, p: Addr)
    requires BlocksOk(h) && Words(m, h) && CanAbsorb(h, p)
    ensures var b := h.Next(p);
            SizeOf(W(m, p + 4) + SizeOf(W(m, b + 4)) + OVERHEAD) == h.blocks[p].size + h.blocks[b].size + OVERHEAD
  {
    assert BlockOk(h, p) && BlockOk(h, h.Next(p));
    assert HeaderOk(m, h, p) && HeaderOk(m, h, h.Next(p));
    DecodeHeader(m, h, h.Next(p));
    DecodeSum(h.blocks[p].size, h.blocks[p].free, h.PrevIsFree(p), h.blocks[h.Next(p)].size + OVERHEAD);
  }

  lemma NextIsBlock(h: Heap, b: Addr)
    requires BlocksOk(h) && h.IsFree(b)
    ensures h.Next(b) in h.blocks
  {
    assert BlockOk(h, b);
  }

  /** What is live in h is live in g, with the same size. */
  ghost predicate LiveKept(h: Heap, g: Heap) {
    forall x | h.IsLive(x) :: g.IsLive(x) && g.blocks[x].size == h.blocks[x].size
  }

  lemma KeepsTwice(m: Memory, n: Memory, k: Memory, h: Heap, g: Heap)
    requires KeepsPayloads(m, n, h) && KeepsPayloads(n, k, g)
    requires LiveKept(h, g)
    ensures KeepsPayloads(m, k, h)
  {
    forall b: Addr, a: int | Inside(h, b, a) && h.IsLive(b) ensures W(k, a) == W(m, a) {
      assert Inside(g, b, a);
    }
  }

  lemma KeepsLess(m: Memory, n: Memory, h: Heap, g: Heap)
    requires KeepsPayloads(m, n, h)
    requires LiveKept(g, h)
    ensures KeepsPayloads(m, n, g)
  {
    forall b: Addr, a: int | Inside(g, b, a) && g.IsLive(b) ensures W(n, a) == W(m, a) {
      assert Inside(h, b, a);
    }
  }

  lemma SplitPieces(h: Heap, b: Addr, size: nat)
    requires InvOff(h, {b}) && Adjusted(size) && size + HEADER_SIZE <= h.blocks[b].size
    requires h.Next(b) in h.blocks && !h.IsFree(h.Next(b))
    ensures CanSplit(h, b, size)
    ensures var g, rest := Split(h, b, size), b + OVERHEAD + size;
            && rest != b && g.IsFree(rest) && g.blocks[rest].prev == b && !g.IsFree(g.Next(rest))
            && LiveKept(h, g)
  {
    SplitIsNew(h, b, size);
  }

  lemma TrimLive(h: Heap, b: Addr, size: nat)
    requires InvOff(h, {b}) && Adjusted(size) && size <= h.blocks[b].size
    requires h.Next(b) in h.blocks && !h.IsFree(h.Next(b))
    ensures LiveKept(h, Trim(h, b, size))
  {
    if size + HEADER_SIZE <= h.blocks[b].size {
      SplitPieces(h, b, size);
    }
  }

  /** What the search of an allocation returns: the head of its own list, free, large enough, with a used successor. */
  lemma FoundBlock(h: Heap, ix: Index, nil: Addr, size: nat)
    requires Inv(h) && Agrees(ix, h, nil) && size % 4 == 0 && FirstNonEmpty(h, MappingSearch(size).Rank()).Some?
    ensures var c := FirstNonEmpty(h, MappingSearch(size).Rank()).value;
            var b := Locate(h, size).value;
            && ix.heads[c.Rank()] == b && h.IsFree(b) && h.ClassOf(b) == c && size <= h.blocks[b].size
            && h.Next(b) in h.blocks && !h.IsFree(h.Next(b))
  {
    var c := FirstNonEmpty(h, MappingSearch(size).Rank()).value;
    var b := h.List(c)[0];
    assert HeadOk(ix, h, nil, c);
    assert b in h.List(c);
    LocateFits(h, size);
    NextIsBlock(h, b);
  }

  lemma AloneAfterMerge(h: Heap, b: Addr)
    requires InvOff(h, {b}) && !h.PrevIsFree(b)
    requires h.IsFree(h.Next(b)) ==> CanAbsorb(h, b)
    ensures var g := MergeNext(h, b); b in g.blocks && !g.PrevIsFree(b) && !g.IsFree(g.Next(b))
  {
    assert BlockOk(h, b);
    MergeNextAlone(h, b);
  }

  lemma SameLiveKept(h: Heap, g: Heap)
    requires SameLive(h, g)
    ensures LiveKept(h, g) && LiveKept(g, h)
  {
  }

  lemma KeptTwice(f: Heap, g: Heap, h: Heap)
    requires LiveKept(f, g) && LiveKept(g, h)
    ensures LiveKept(f, h)
  {
  }

  /** The states of a release keep the remaining live blocks. */
  lemma ReleaseKept(h: Heap, b: Addr)
    requires Inv(h) && h.IsLive(b)
    ensures var f := SetFree(h, b, true);
            && (f.PrevIsFree(b) ==> CanAbsorb(f, f.blocks[b].prev))
            && var (g, x) := MergePrev(f, b);
               && x in g.blocks && (g.IsFree(g.Next(x)) ==> CanAbsorb(g, x))
               && LiveKept(f, g) && LiveKept(f, MergeNext(g, x)) && LiveKept(Release(h, b), f)
  {
    ReleaseSteps(h, b);
    var f := SetFree(h, b, true);
    var (g, x) := MergePrev(f, b);
    assert SameLive(f, g) by {
      MergePrevLive(f, b);
    }
    assert SameLive(g, MergeNext(g, x)) by {
      MergeNextLive(g, x);
    }
    SameLiveKept(f, g);
    SameLiveKept(g, MergeNext(g, x));
    KeptTwice(f, g, MergeNext(g, x));
    KeptTwice(MergeNext(g, x), g, f);
    KeptTwice(Release(h, b), MergeNext(g, x), f);
  }

  // Adding memory

  /** The headers of a new region: one free block and the sentinel after it. */
  function AddHeaders(m: Memory, b: Addr, payload: nat): Memory {
    var e := b + OVERHEAD + payload;
    AddSentinel(m[b + 4 := WithPrevFree(WithFree(WithSize(W(m, b + 4), payload), true), false)], b, e)
  }

  function AddSentinel(m: Memory, b: Addr, e: Addr): Memory {
    m[e := b][e + 4 := WithPrevFree(WithFree(WithSize(W(m, e + 4), 0), false), true)]
  }

  lemma FlagsSet(garbage: int, size: nat, free: bool, prevFree: bool)
    requires size % 4 == 0
    ensures WithPrevFree(WithFree(WithSize(garbage, size), free), prevFree) == Encode(size, free, prevFree)
  {
  }

  lemma AddWords(m: Memory, h: Heap, at: Addr, payload: nat)
    requires Shape(h) && RegionFree(h, at, payload) && RegionLegal(at, payload) && Words(m, h)
    ensures Words(AddHeaders(m, at - OVERHEAD, payload), AddBlocks(h, at, payload))
  {
    var b, e := at - OVERHEAD, at + payload;
    var n, g := AddHeaders(m, b, payload), AddBlocks(h, at, payload);
    FlagsSet(W(m, b + 4), payload, true, false);
    FlagsSet(W(m, e + 4), 0, false, true);
    forall c | c in g.blocks ensures HeaderOk(n, g, c) && PrevPhysOk(n, g, c) {
      if c in h.blocks {
        AddElsewhere(m, h, at, payload, c);
      }
    }
  }

  lemma AddElsewhere(m: Memory, h: Heap, at: Addr, payload: nat, c: Addr)
    requires Shape(h) && RegionFree(h, at, payload) && RegionLegal(at, payload) && Words(m, h) && c in h.blocks
    ensures var n, g := AddHeaders(m, at - OVERHEAD, payload), AddBlocks(h, at, payload);
            c in g.blocks && HeaderOk(n, g, c) && PrevPhysOk(n, g, c)
  {
    var n, g := AddHeaders(m, at - OVERHEAD, payload), AddBlocks(h, at, payload);
    RegionApart(h, at, payload, c);
    assert HeaderOk(m, h, c) && PrevPhysOk(m, h, c) && BlockOk(h, c);
    if h.blocks[c].prev != NO_BLOCK {
      RegionApart(h, at, payload, h.blocks[c].prev);
      Gap(h, h.blocks[c].prev, c);
    }
    assert SameBlock(h, g, c);
    WordsFrame(m, h, n, g, c);
  }

  lemma AddKeeps(m: Memory, h: Heap, at: Addr, payload: nat)
    requires Shape(h) && RegionFree(h, at, payload) && RegionLegal(at, payload)
    ensures Keeps(m, AddHeaders(m, at - OVERHEAD, payload), h, {})
  {
    forall x: Addr, a: int | Inside(h, x, a) && x !in {}
      ensures W(AddHeaders(m, at - OVERHEAD, payload), a) == W(m, a)
    {
      RegionApart(h, at, payload, x);
    }
  }

  ghost predicate RegionMissesNull(at: Addr, payload: nat, nil: Addr) {
    at + payload + START_OFFSET <= nil || nil + HEADER_SIZE <= at
  }

  lemma AddConsistent(m: Memory, ix: Index, h: Heap, nil: Addr, at: Addr, payload: nat)
    requires Consistent(m, ix, h, nil, {}) && RegionFree(h, at, payload) && RegionLegal(at, payload)
    requires RegionMissesNull(at, payload, nil)
    ensures Consistent(AddHeaders(m, at - OVERHEAD, payload), ix, AddBlocks(h, at, payload), nil, {at - OVERHEAD})
    ensures KeepsPayloads(m, AddHeaders(m, at - OVERHEAD, payload), h)
  {
    var n, g := AddHeaders(m, at - OVERHEAD, payload), AddBlocks(h, at, payload);
    assert InvOff(g, {at - OVERHEAD}) by {
      AddStep(h, at, payload);
    }
    SameListsAgrees(ix, h, g, nil);
    assert Words(n, g) by {
      AddWords(m, h, at, payload);
    }
    assert Keeps(m, n, h, {}) by {
      AddKeeps(m, h, at, payload);
    }
    assert Links(n, g, nil) by {
      LinksSameLists(m, n, h, g, nil, {});
    }
    KeepsIsKeepsPayloads(m, n, h, h, {});
  }

  /** The sentinel may be written after the free block is listed: the two touch different words. */
  lemma SentinelLast(m: Memory, b: Addr, e: Addr, current: Addr, nil: Addr)
    requires b + 16 <= e
    requires current + 12 != e && current + 12 != e + 4
    ensures AddSentinel(InsertLinks(m, b, current, nil), b, e) == InsertLinks(AddSentinel(m, b, e), b, current, nil)
  {
    var w := WithPrevFree(WithFree(WithSize(W(m, e + 4), 0), false), true);
    assert W(InsertLinks(m, b, current, nil), e + 4) == W(m, e + 4);
    var one := m[b + 8 := current][b + 12 := nil][current + 12 := b][e := b][e + 4 := w];
    var two := m[e := b][e + 4 := w][b + 8 := current][b + 12 := nil][current + 12 := b];
    assert one.Keys == two.Keys;
    forall a | a in one ensures one[a] == two[a] {
    }
    assert one == two;
  }

  /** The first member of a list is never at the new sentinel's words. */
  lemma HeadMissesSentinel(h: Heap, nil: Addr, at: Addr, payload: nat, c: Class)
    requires InvOff(h, {}) && RegionFree(h, at, payload) && RegionLegal(at, payload)
    requires RegionMissesNull(at, payload, nil)
    ensures var current := At(h.List(c), 0, nil); current + 12 != at + payload && current + 12 != at + payload + 4
  {
    var s := h.List(c);
    if s != [] {
      assert s[0] in s;
      assert BlockOk(h, s[0]);
      RegionApart(h, at, payload, s[0]);
    }
  }

  lemma AddKept(h: Heap, at: Addr, payload: nat)
    requires Shape(h) && RegionFree(h, at, payload) && RegionLegal(at, payload)
    ensures LiveKept(h, AddBlocks(h, at, payload))
  {
    forall x | h.IsLive(x) ensures x != at - OVERHEAD && x != at + payload {
      RegionApart(h, at, payload, x);
    }
  }

  lemma AddInsert(m: Memory, ix: Index, h: Heap, nil: Addr, at: Addr, payload: nat)
    requires Consistent(m, ix, h, nil, {}) && RegionFree(h, at, payload) && RegionLegal(at, payload)
    requires RegionMissesNull(at, payload, nil)
    ensures Sized(ix) && MappingInsert(payload).InTable()
    ensures var current := ix.heads[MappingInsert(payload).Rank()];
            var n := AddHeaders(m, at - OVERHEAD, payload);
            && current == At(h.List(MappingInsert(payload)), 0, nil)
            && Consistent(InsertLinks(n, at - OVERHEAD, current, nil),
                          InsertIndex(ix, MappingInsert(payload), at - OVERHEAD),
                          Insert(AddBlocks(h, at, payload), at - OVERHEAD), nil, {})
            && KeepsPayloads(n, InsertLinks(n, at - OVERHEAD, current, nil), AddBlocks(h, at, payload))
  {
    var b := at - OVERHEAD;
    AddConsistent(m, ix, h, nil, at, payload);
    AddStep(h, at, payload);
    InsertConsistent(AddHeaders(m, b, payload), ix, AddBlocks(h, at, payload), nil, {b}, b);
    assert {b} - {b} == {};
  }

  /** The whole of `rtl_mem_pool_add_mem`, once the range test has passed. */
  lemma AddAll(m: Memory, ix: Index, h: Heap, nil: Addr, at: Addr, payload: nat)
    requires Consistent(m, ix, h, nil, {}) && RegionFree(h, at, payload) && RegionLegal(at, payload)
    requires RegionMissesNull(at, payload, nil)
    ensures Sized(ix) && MappingInsert(payload).InTable()
    ensures var current := ix.heads[MappingInsert(payload).Rank()];
            var n := InsertLinks(AddHeaders(m, at - OVERHEAD, payload), at - OVERHEAD, current, nil);
            && current + 12 != at + payload && current + 12 != at + payload + 4
            && Consistent(n, InsertIndex(ix, MappingInsert(payload), at - OVERHEAD),
                          Insert(AddBlocks(h, at, payload), at - OVERHEAD), nil, {})
            && KeepsPayloads(m, n, h)
  {
    AddInsert(m, ix, h, nil, at, payload);
    HeadMissesSentinel(h, nil, at, payload, MappingInsert(payload));
    var n := AddHeaders(m, at - OVERHEAD, payload);
    assert KeepsPayloads(m, n, h) by {
      AddConsistent(m, ix, h, nil, at, payload);
    }
    AddKept(h, at, payload);
    KeepsTwice(m, n, InsertLinks(n, at - OVERHEAD, ix.heads[MappingInsert(payload).Rank()], nil),
               h, AddBlocks(h, at, payload));
  }

  // The caller's side of the overlap

  /** A caller may write any word of its block, the last one included, where the next header keeps
      `prev_phys_block` while the block is free. */
  lemma StoreConsistent(m: Memory, ix: Index, h: Heap, nil: Addr, b: Addr, a: int, v: int)
    requires Consistent(m, ix, h, nil, {}) && h.IsLive(b) && Inside(h, b, a)
    ensures Consistent(m[a := v], ix, h, nil, {})
  {
    forall c | c in h.blocks ensures HeaderOk(m[a := v], h, c) && PrevPhysOk(m[a := v], h, c) {
      assert HeaderOk(m, h, c) && PrevPhysOk(m, h, c) && BlockOk(h, b) && BlockOk(h, c);
      InsideApart(h, b, a, c);
    }
    StoreKeeps(m, h, b, a, v);
    assert Links(m[a := v], h, nil) by {
      LinksSameLists(m, m[a := v], h, h, nil, {b});
    }
  }

  lemma StoreKeeps(m: Memory, h: Heap, b: Addr, a: int, v: int)
    requires BlocksOk(h) && Apart(h) && Inside(h, b, a)
    ensures Keeps(m, m[a := v], h, {b})
  {
    forall x: Addr, w: int | Inside(h, x, w) && x !in {b} ensures W(m[a := v], w) == W(m, w) {
      assert BlockOk(h, x) && BlockOk(h, b);
      if x < b {
        Gap(h, x, b);
      } else {
        Gap(h, b, x);
      }
    }
  }

  // The largest list

  /** The pool before any memory is added. */
  const EMPTY := Heap(map[], map[], map[])

  lemma EmptyConsistent(m: Memory, ix: Index, nil: Addr)
    requires ix.flBitmap == 0 && |ix.slBitmap| == FL_INDEX_COUNT && |ix.heads| == CLASS_COUNT
    requires forall i | 0 <= i < FL_INDEX_COUNT :: ix.slBitmap[i] == 0
    requires forall i | 0 <= i < CLASS_COUNT :: ix.heads[i] == nil
    ensures Consistent(m, ix, EMPTY, nil, {})
  {
    forall c: Class | c.InTable() ensures HeadOk(ix, EMPTY, nil, c) {
      NoBitsOfZero(c.sl);
    }
    forall fl: nat | fl < FL_INDEX_COUNT ensures RowOk(ix, fl) {
      NoBitsOfZero(fl);
    }
  }

  /** The two highest set bits name the last non-empty list. */
  lemma LastListOk(ix: Index, h: Heap, nil: Addr)
    requires Agrees(ix, h, nil) && ix.flBitmap != 0
    ensures var fl := Fls(ix.flBitmap);
            && 0 <= fl < FL_INDEX_COUNT && ix.slBitmap[fl] != 0 && 0 <= Fls(ix.slBitmap[fl]) < SL_INDEX_COUNT
            && IsLast(h, Class(fl, Fls(ix.slBitmap[fl])))
  {
    FlsHighestBit(ix.flBitmap);
    var fl := Fls(ix.flBitmap);
    if fl >= FL_INDEX_COUNT {
      HighBitsClear(ix.flBitmap, FL_INDEX_COUNT, fl);
    }
    assert RowOk(ix, fl);
    FlsHighestBit(ix.slBitmap[fl]);
    var c := Class(fl, Fls(ix.slBitmap[fl]));
    RowBitInTable(ix, c);
    assert HeadOk(ix, h, nil, c);
    forall d: Class | d.InTable() && d.Rank() > c.Rank() ensures h.List(d) == [] {
      assert HeadOk(ix, h, nil, d) && RowOk(ix, d.fl);
      if d.fl > fl {
        NoBitsOfZero(d.sl);
      }
    }
  }

  lemma NoListOk(ix: Index, h: Heap, nil: Addr)
    requires Agrees(ix, h, nil) && ix.flBitmap == 0
    ensures forall c: Class | c.InTable() :: h.List(c) == []
  {
    forall c: Class | c.InTable() ensures h.List(c) == [] {
      assert HeadOk(ix, h, nil, c) && RowOk(ix, c.fl);
      NoBitsOfZero(c.fl);
      NoBitsOfZero(c.sl);
    }
  }
}
