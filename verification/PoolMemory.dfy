/**
 How the abstract heap is laid out in words of memory, and that each write sequence of the allocator carries the
 layout from one abstract state to the next.

 Words are named by byte address. Besides its size word at b + 4, a block uses memory only while it is free: two
 links at b + 8 and b + 12, and the word at the start of the next header, which is the end of its own payload.
 Everything else in a payload belongs to the caller.
 */
module PoolMemory {
  import opened Bits
  import opened SizeClass
  import opened PoolHeap

  type Memory = map<int, int>

  /** Contents of a word. Words nobody wrote hold arbitrary values: a memory is an arbitrary map. */
  function W(m: Memory, a: int): int {
    if a in m then m[a] else 0
  }

  const FREE_BIT := 1
  const PREV_FREE_BIT := 2

  function SizeOf(w: int): int {
    w - w % 4
  }

  predicate FreeBit(w: int) {
    w % 2 == 1
  }

  predicate PrevFreeBit(w: int) {
    w / 2 % 2 == 1
  }

  function WithFree(w: int, on: bool): int {
    if FreeBit(w) == on then w else if on then w + FREE_BIT else w - FREE_BIT
  }

  function WithPrevFree(w: int, on: bool): int {
    if PrevFreeBit(w) == on then w else if on then w + PREV_FREE_BIT else w - PREV_FREE_BIT
  }

  /** `block_set_size`: the flags stay. */
  function WithSize(w: int, size: int): int {
    size + w % 4
  }

  function Encode(size: nat, free: bool, prevFree: bool): int {
    size + (if free then 1 else 0) + (if prevFree then 2 else 0)
  }

  /** Size and flags share the word without disturbing each other. */
  lemma Decode(size: nat, free: bool, prevFree: bool)
    requires size % 4 == 0
    ensures var w := Encode(size, free, prevFree);
            && SizeOf(w) == size && FreeBit(w) == free && PrevFreeBit(w) == prevFree
            && (forall on: bool :: WithFree(w, on) == Encode(size, on, prevFree))
            && (forall on: bool :: WithPrevFree(w, on) == Encode(size, free, on))
  {
  }

  lemma DecodeSum(size: nat, free: bool, prevFree: bool, more: nat)
    requires size % 4 == 0 && more % 4 == 0
    ensures SizeOf(Encode(size, free, prevFree) + more) == size + more
  {
    Decode(size + more, free, prevFree);
  }

  function Header(h: Heap, b: Addr): int
    requires b in h.blocks
  {
    Encode(h.blocks[b].size, h.blocks[b].free, h.PrevIsFree(b))
  }

  lemma DecodeHeader(m: Memory, h: Heap, b: Addr)
    requires b in h.blocks && BlockOk(h, b) && HeaderOk(m, h, b)
    ensures var w := W(m, b + 4);
            && SizeOf(w) == h.blocks[b].size && FreeBit(w) == h.blocks[b].free && PrevFreeBit(w) == h.PrevIsFree(b)
            && (forall on: bool :: WithFree(w, on) == Encode(h.blocks[b].size, on, h.PrevIsFree(b)))
            && (forall on: bool :: WithPrevFree(w, on) == Encode(h.blocks[b].size, h.blocks[b].free, on))
  {
    Decode(h.blocks[b].size, h.blocks[b].free, h.PrevIsFree(b));
  }

  // Layout

  ghost predicate HeaderOk(m: Memory, h: Heap, b: Addr)
    requires b in h.blocks
  {
    W(m, b + 4) == Header(h, b)
  }

  ghost predicate PrevPhysOk(m: Memory, h: Heap, b: Addr)
    requires b in h.blocks
  {
    h.PrevIsFree(b) ==> W(m, b) == h.blocks[b].prev
  }

  /** Size words are right, and `prev_phys_block` is right wherever the flag says it may be read. */
  ghost predicate Words(m: Memory, h: Heap) {
    forall b {:trigger HeaderOk(m, h, b)} {:trigger PrevPhysOk(m, h, b)} | b in h.blocks ::
      HeaderOk(m, h, b) && PrevPhysOk(m, h, b)
  }

  /** Neighbour of position i in a list, the sentinel outside. */
  function At(s: seq<Addr>, i: int, nil: Addr): Addr {
    if 0 <= i < |s| then s[i] else nil
  }

  ghost predicate LinkOk(m: Memory, s: seq<Addr>, nil: Addr, i: int)
    requires 0 <= i < |s|
  {
    W(m, s[i] + 8) == At(s, i + 1, nil) && W(m, s[i] + 12) == At(s, i - 1, nil)
  }

  ghost predicate LinksOk(m: Memory, s: seq<Addr>, nil: Addr) {
    forall i: int {:trigger LinkOk(m, s, nil, i)} | 0 <= i < |s| :: LinkOk(m, s, nil, i)
  }

  ghost predicate Links(m: Memory, h: Heap, nil: Addr) {
    forall c {:trigger h.List(c)} :: LinksOk(m, h.List(c), nil)
  }

  /** The control structure's sentinel lies outside every region. */
  ghost predicate NullApart(h: Heap, nil: Addr) {
    forall b | b in h.blocks :: b + START_OFFSET + h.blocks[b].size <= nil || nil + HEADER_SIZE <= b + OVERHEAD
  }

  ghost predicate Laid(m: Memory, h: Heap, nil: Addr) {
    NullApart(h, nil) && Words(m, h) && Links(m, h, nil)
  }

  /** A word of a block after its header: its own links while it is free, its caller's data while it is live. */
  ghost predicate Inside(h: Heap, b: Addr, a: int) {
    b in h.blocks && b + START_OFFSET <= a < b + START_OFFSET + h.blocks[b].size && a % 4 == 0
  }

  /** From m to n nothing changed inside the blocks, those in `except` aside. */
  ghost predicate Keeps(m: Memory, n: Memory, h: Heap, except: set<Addr>) {
    forall b: Addr, a: int {:trigger Inside(h, b, a)} | Inside(h, b, a) && b !in except :: W(n, a) == W(m, a)
  }

  /** From m to n no caller's data changed. */
  ghost predicate KeepsPayloads(m: Memory, n: Memory, h: Heap) {
    forall b: Addr, a: int {:trigger Inside(h, b, a)} | Inside(h, b, a) && h.IsLive(b) :: W(n, a) == W(m, a)
  }

  // Where words lie

  /** No header starts strictly inside a block, and linked headers are at least a minimal block apart. */
  lemma Gap(h: Heap, b: Addr, c: Addr)
    requires BlocksOk(h) && Apart(h) && b in h.blocks && c in h.blocks && b < c
    ensures b % 4 == 0 && c % 4 == 0 && h.Next(b) <= c
    ensures h.blocks[b].size > 0 ==> b + HEADER_SIZE <= c
    ensures h.blocks[c].prev != NO_BLOCK ==> b + HEADER_SIZE <= c
  {
    assert BlockOk(h, b) && BlockOk(h, c);
    var p := h.blocks[c].prev;
    if p != NO_BLOCK {
      assert BlockOk(h, p);
    }
  }

  /** Two states agree on a block: same block, same flags. */
  predicate SameBlock(h: Heap, g: Heap, c: Addr) {
    c in h.blocks && c in g.blocks && h.blocks[c] == g.blocks[c] && h.PrevIsFree(c) == g.PrevIsFree(c)
  }

  /** A block's words survive writes elsewhere. */
  lemma WordsFrame(m: Memory, h: Heap, n: Memory, g: Heap, c: Addr)
    requires SameBlock(h, g, c) && HeaderOk(m, h, c) && PrevPhysOk(m, h, c)
    requires W(n, c + 4) == W(m, c + 4)
    requires h.PrevIsFree(c) ==> W(n, c) == W(m, c)
    ensures HeaderOk(n, g, c) && PrevPhysOk(n, g, c)
  {
  }

  // Writes

  function MarkFree(m: Memory, h: Heap, b: Addr): Memory
    requires b in h.blocks
  {
    var n := h.Next(b);
    var m1 := m[n := b];
    var m2 := m1[n + 4 := WithPrevFree(W(m1, n + 4), true)];
    m2[b + 4 := WithFree(W(m2, b + 4), true)]
  }

  lemma MarkFreeWords(m: Memory, h: Heap, b: Addr)
    requires BlocksOk(h) && Apart(h) && Words(m, h) && h.IsLive(b)
    ensures Words(MarkFree(m, h, b), SetFree(h, b, true))
  {
    var g := SetFree(h, b, true);
    var n := h.Next(b);
    var m' := MarkFree(m, h, b);
    assert BlockOk(h, b) && BlockOk(h, n) && HeaderOk(m, h, b) && HeaderOk(m, h, n);
    forall c | c in g.blocks ensures HeaderOk(m', g, c) && PrevPhysOk(m', g, c) {
      assert HeaderOk(m, h, c) && PrevPhysOk(m, h, c);
      if c != b && c != n {
        MarkFreeElsewhere(m, h, b, c);
      } else {
        MarkFreeHere(m, h, b);
      }
    }
  }

  lemma MarkFreeHere(m: Memory, h: Heap, b: Addr)
    requires BlocksOk(h) && Apart(h) && h.IsLive(b) && h.Next(b) in h.blocks
    requires HeaderOk(m, h, b) && PrevPhysOk(m, h, b) && HeaderOk(m, h, h.Next(b))
    ensures HeaderOk(MarkFree(m, h, b), SetFree(h, b, true), b) && PrevPhysOk(MarkFree(m, h, b), SetFree(h, b, true), b)
    ensures HeaderOk(MarkFree(m, h, b), SetFree(h, b, true), h.Next(b))
    ensures PrevPhysOk(MarkFree(m, h, b), SetFree(h, b, true), h.Next(b))
  {
    assert BlockOk(h, b) && BlockOk(h, h.Next(b));
  }

  lemma MarkFreeElsewhere(m: Memory, h: Heap, b: Addr, c: Addr)
    requires BlocksOk(h) && Apart(h) && h.IsLive(b) && c in h.blocks && c != b && c != h.Next(b)
    requires HeaderOk(m, h, c) && PrevPhysOk(m, h, c)
    ensures HeaderOk(MarkFree(m, h, b), SetFree(h, b, true), c) && PrevPhysOk(MarkFree(m, h, b), SetFree(h, b, true), c)
  {
    var n := h.Next(b);
    assert BlockOk(h, b) && BlockOk(h, c);
    if c < b {
      Gap(h, c, b);
    } else {
      Gap(h, b, c);
    }
    if c > n {
      Gap(h, n, c);
    }
    assert SameBlock(h, SetFree(h, b, true), c);
    WordsFrame(m, h, MarkFree(m, h, b), SetFree(h, b, true), c);
  }

  /** Inside one block and at another block's header are different places. */
  lemma InsideApart(h: Heap, b: Addr, a: int, c: Addr)
    requires BlocksOk(h) && Apart(h) && Inside(h, b, a) && c in h.blocks
    ensures a != c + 4
    ensures c != h.Next(b) && h.blocks[c].prev != NO_BLOCK ==> a != c
  {
    assert BlockOk(h, b) && BlockOk(h, c);
    if c < b {
      Gap(h, c, b);
    } else if b < c {
      Gap(h, b, c);
    }
  }

  lemma MarkFreeKeeps(m: Memory, h: Heap, b: Addr)
    requires BlocksOk(h) && Apart(h) && h.IsLive(b)
    ensures Keeps(m, MarkFree(m, h, b), h, {b})
  {
    var n := h.Next(b);
    assert BlockOk(h, b) && BlockOk(h, n);
    forall x: Addr, a: int | Inside(h, x, a) && x !in {b} ensures W(MarkFree(m, h, b), a) == W(m, a) {
      InsideApart(h, x, a, b);
      InsideApart(h, x, a, n);
      assert BlockOk(h, x);
      assert h.Next(x) != n;
    }
  }

  function MarkUsed(m: Memory, h: Heap, b: Addr): Memory
    requires b in h.blocks
  {
    var n := h.Next(b);
    var m1 := m[n + 4 := WithPrevFree(W(m, n + 4), false)];
    m1[b + 4 := WithFree(W(m1, b + 4), false)]
  }

  lemma MarkUsedWords(m: Memory, h: Heap, b: Addr)
    requires BlocksOk(h) && Apart(h) && Words(m, h) && h.IsFree(b)
    ensures Words(MarkUsed(m, h, b), SetFree(h, b, false))
  {
    var g := SetFree(h, b, false);
    var n := h.Next(b);
    var m' := MarkUsed(m, h, b);
    MarkUsedHere(m, h, b);
    forall c | c in g.blocks ensures HeaderOk(m', g, c) && PrevPhysOk(m', g, c) {
      assert HeaderOk(m, h, c) && PrevPhysOk(m, h, c);
      if c != b && c != n {
        MarkUsedElsewhere(m, h, b, c);
      }
    }
  }

  lemma MarkUsedHere(m: Memory, h: Heap, b: Addr)
    requires BlocksOk(h) && Words(m, h) && h.IsFree(b)
    ensures var m' := MarkUsed(m, h, b);
            var g := SetFree(h, b, false);
            var n := h.Next(b);
            n in h.blocks && HeaderOk(m', g, b) && PrevPhysOk(m', g, b) && HeaderOk(m', g, n) && PrevPhysOk(m', g, n)
  {
    var n := h.Next(b);
    assert BlockOk(h, b) && BlockOk(h, n);
    assert HeaderOk(m, h, b) && PrevPhysOk(m, h, b) && HeaderOk(m, h, n);
    DecodeHeader(m, h, b);
    DecodeHeader(m, h, n);
    assert W(MarkUsed(m, h, b), n + 4) == WithPrevFree(W(m, n + 4), false);
    assert W(MarkUsed(m, h, b), b + 4) == WithFree(W(m, b + 4), false);
  }

  lemma MarkUsedElsewhere(m: Memory, h: Heap, b: Addr, c: Addr)
    requires BlocksOk(h) && Apart(h) && h.IsFree(b) && c in h.blocks && c != b && c != h.Next(b)
    requires HeaderOk(m, h, c) && PrevPhysOk(m, h, c)
    ensures HeaderOk(MarkUsed(m, h, b), SetFree(h, b, false), c)
    ensures PrevPhysOk(MarkUsed(m, h, b), SetFree(h, b, false), c)
  {
    var n := h.Next(b);
    assert BlockOk(h, b) && BlockOk(h, c);
    if c < b {
      Gap(h, c, b);
    } else {
      Gap(h, b, c);
    }
    if c > n {
      Gap(h, n, c);
    }
    assert SameBlock(h, SetFree(h, b, false), c);
    WordsFrame(m, h, MarkUsed(m, h, b), SetFree(h, b, false), c);
  }

  lemma MarkUsedKeeps(m: Memory, h: Heap, b: Addr)
    requires BlocksOk(h) && Apart(h) && h.IsFree(b)
    ensures Keeps(m, MarkUsed(m, h, b), h, {})
  {
    var n := h.Next(b);
    assert BlockOk(h, b);
    forall x: Addr, a: int | Inside(h, x, a) && x !in {} ensures W(MarkUsed(m, h, b), a) == W(m, a) {
      InsideApart(h, x, a, b);
      InsideApart(h, x, a, n);
    }
  }

  /** `block_absorb`, for a block p whose successor is free as well. */
  function AbsorbInto(m: Memory, h: Heap, p: Addr): Memory
    requires CanAbsorb(h, p)
  {
    var b := h.Next(p);
    m[p + 4 := W(m, p + 4) + SizeOf(W(m, b + 4)) + OVERHEAD][h.Next(b) := p]
  }

  lemma AbsorbWords(m: Memory, h: Heap, p: Addr)
    requires BlocksOk(h) && Apart(h) && Words(m, h) && CanAbsorb(h, p) && h.IsFree(p) && h.IsFree(h.Next(p))
    ensures Words(AbsorbInto(m, h, p), Absorb(h, p))
  {
    var g := Absorb(h, p);
    var m' := AbsorbInto(m, h, p);
    forall c | c in g.blocks ensures HeaderOk(m', g, c) && PrevPhysOk(m', g, c) {
      assert HeaderOk(m, h, c) && PrevPhysOk(m, h, c);
      if c != p && c != h.Next(h.Next(p)) {
        AbsorbElsewhere(m, h, p, c);
      } else {
        AbsorbHere(m, h, p);
      }
    }
  }

  /** The joined block and the one behind it. */
  lemma AbsorbHere(m: Memory, h: Heap, p: Addr)
    requires BlocksOk(h) && Apart(h) && Words(m, h) && CanAbsorb(h, p) && h.IsFree(p) && h.IsFree(h.Next(p))
    requires p in Absorb(h, p).blocks && h.Next(h.Next(p)) in Absorb(h, p).blocks
    ensures var m', g, n := AbsorbInto(m, h, p), Absorb(h, p), h.Next(h.Next(p));
            HeaderOk(m', g, p) && PrevPhysOk(m', g, p) && HeaderOk(m', g, n) && PrevPhysOk(m', g, n)
  {
    var b := h.Next(p);
    var n := h.Next(b);
    assert BlockOk(h, p) && BlockOk(h, b) && BlockOk(h, n);
    assert HeaderOk(m, h, p) && PrevPhysOk(m, h, p) && HeaderOk(m, h, b) && HeaderOk(m, h, n) && PrevPhysOk(m, h, n);
    Gap(h, p, b);
    Gap(h, b, n);
  }

  lemma AbsorbElsewhere(m: Memory, h: Heap, p: Addr, c: Addr)
    requires BlocksOk(h) && Apart(h) && CanAbsorb(h, p) && h.IsFree(p) && h.IsFree(h.Next(p))
    requires c in h.blocks && c != p && c != h.Next(p) && c != h.Next(h.Next(p))
    requires HeaderOk(m, h, c) && PrevPhysOk(m, h, c)
    ensures HeaderOk(AbsorbInto(m, h, p), Absorb(h, p), c) && PrevPhysOk(AbsorbInto(m, h, p), Absorb(h, p), c)
  {
    var b := h.Next(p);
    assert BlockOk(h, p) && BlockOk(h, b) && BlockOk(h, c);
    if c < p {
      Gap(h, c, p);
    } else {
      Gap(h, p, c);
      Gap(h, b, c);
    }
    assert SameBlock(h, Absorb(h, p), c);
    WordsFrame(m, h, AbsorbInto(m, h, p), Absorb(h, p), c);
  }

  lemma AbsorbKeeps(m: Memory, h: Heap, p: Addr)
    requires BlocksOk(h) && Apart(h) && CanAbsorb(h, p)
    ensures Keeps(m, AbsorbInto(m, h, p), h, {h.Next(p)})
  {
    var b := h.Next(p);
    var n := h.Next(b);
    assert BlockOk(h, b) && BlockOk(h, n);
    forall x: Addr, a: int | Inside(h, x, a) && x !in {b} ensures W(AbsorbInto(m, h, p), a) == W(m, a) {
      InsideApart(h, x, a, p);
      InsideApart(h, x, a, n);
      assert BlockOk(h, x);
      assert h.Next(x) != n;
    }
  }

  /** `block_split` and the two updates `block_trim_free` adds to it. The header of the remainder is made out of
      whatever the payload held there. */
  function SplitOff(m: Memory, h: Heap, b: Addr, size: nat): Memory
    requires b in h.blocks && h.Next(b) in h.blocks && size + HEADER_SIZE <= h.blocks[b].size
  {
    var rest := b + OVERHEAD + size;
    var n := h.Next(b);
    var m1 := m[rest + 4 := WithSize(W(m, rest + 4), h.blocks[b].size - size - OVERHEAD)];
    var m2 := m1[b + 4 := WithSize(W(m1, b + 4), size)];
    var m3 := m2[n := rest];
    var m4 := m3[n + 4 := WithPrevFree(W(m3, n + 4), true)];
    var m5 := m4[rest + 4 := WithFree(W(m4, rest + 4), true)];
    var m6 := m5[rest := b];
    m6[rest + 4 := WithPrevFree(W(m6, rest + 4), true)]
  }

  /** What `SplitOff` leaves in memory. The two flags of the remainder do not depend on what was there. */
  lemma SplitValues(m: Memory, h: Heap, b: Addr, size: nat)
    requires BlocksOk(h) && Words(m, h) && CanSplit(h, b, size) && h.IsFree(b)
    ensures var m' := SplitOff(m, h, b, size);
            var rest := b + OVERHEAD + size;
            var n := h.Next(b);
            && W(m', rest) == b && W(m', rest + 4) == Encode(h.blocks[b].size - size - OVERHEAD, true, true)
            && W(m', b + 4) == WithSize(W(m, b + 4), size)
            && W(m', n) == rest && W(m', n + 4) == W(m, n + 4)
            && forall a | a !in {rest, rest + 4, b + 4, n, n + 4} :: W(m', a) == W(m, a)
  {
    var rest := b + OVERHEAD + size;
    var left := h.blocks[b].size - size - OVERHEAD;
    assert BlockOk(h, b) && BlockOk(h, h.Next(b)) && HeaderOk(m, h, h.Next(b));
    DecodeHeader(m, h, h.Next(b));
    FlagsOverwritten(W(m, rest + 4), left);
  }

  lemma FlagsOverwritten(garbage: int, size: nat)
    requires size % 4 == 0
    ensures WithPrevFree(WithFree(WithSize(garbage, size), true), true) == Encode(size, true, true)
  {
  }

  lemma WithSizeEncode(w: int, size: nat, was: nat, free: bool, prevFree: bool)
    requires w == Encode(was, free, prevFree) && was % 4 == 0 && size % 4 == 0
    ensures WithSize(w, size) == Encode(size, free, prevFree)
  {
  }

  lemma SplitWords(m: Memory, h: Heap, b: Addr, size: nat)
    requires BlocksOk(h) && Apart(h) && Words(m, h) && CanSplit(h, b, size) && h.IsFree(b)
    ensures Words(SplitOff(m, h, b, size), Split(h, b, size))
  {
    var g := Split(h, b, size);
    var rest := b + OVERHEAD + size;
    var n := h.Next(b);
    var m' := SplitOff(m, h, b, size);
    SplitIsNew(h, b, size);
    SplitValues(m, h, b, size);
    assert HeaderOk(m, h, b) && PrevPhysOk(m, h, b) && HeaderOk(m, h, n);
    assert BlockOk(h, b) && BlockOk(h, n);
    WithSizeEncode(W(m, b + 4), size, h.blocks[b].size, true, h.PrevIsFree(b));
    forall c | c in g.blocks ensures HeaderOk(m', g, c) && PrevPhysOk(m', g, c) {
      if c in h.blocks && c != b && c != n {
        assert HeaderOk(m, h, c) && PrevPhysOk(m, h, c);
        SplitElsewhere(m, h, b, size, c);
      }
    }
  }

  lemma SplitElsewhere(m: Memory, h: Heap, b: Addr, size: nat, c: Addr)
    requires BlocksOk(h) && Apart(h) && Words(m, h) && CanSplit(h, b, size) && h.IsFree(b)
    requires c in h.blocks && c != b && c != h.Next(b)
    ensures HeaderOk(SplitOff(m, h, b, size), Split(h, b, size), c)
    ensures PrevPhysOk(SplitOff(m, h, b, size), Split(h, b, size), c)
  {
    SplitIsNew(h, b, size);
    SplitValues(m, h, b, size);
    assert BlockOk(h, b) && BlockOk(h, c);
    assert HeaderOk(m, h, c) && PrevPhysOk(m, h, c);
    if c < b {
      Gap(h, c, b);
    } else {
      Gap(h, b, c);
      Gap(h, h.Next(b), c);
    }
    assert SameBlock(h, Split(h, b, size), c);
    WordsFrame(m, h, SplitOff(m, h, b, size), Split(h, b, size), c);
  }

  lemma SplitKeeps(m: Memory, h: Heap, b: Addr, size: nat)
    requires BlocksOk(h) && Apart(h) && Words(m, h) && CanSplit(h, b, size) && h.IsFree(b)
    ensures Keeps(m, SplitOff(m, h, b, size), h, {b})
  {
    var n := h.Next(b);
    SplitValues(m, h, b, size);
    assert BlockOk(h, b) && BlockOk(h, n);
    forall x: Addr, a: int | Inside(h, x, a) && x !in {b} ensures W(SplitOff(m, h, b, size), a) == W(m, a) {
      InsideApart(h, x, a, b);
      InsideApart(h, x, a, n);
      assert BlockOk(h, x);
      assert h.Next(x) != n;
      if x < b {
        Gap(h, x, b);
      } else {
        Gap(h, b, x);
      }
    }
  }
}
