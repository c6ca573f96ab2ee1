/**
 The two-level index over the free lists: one bit per list, one bit per row of lists, and the heads.
 */
module PoolIndex {
  import opened Options
  import opened Bits
  import opened SizeClass
  import opened PoolHeap
  import opened Seqs
  import opened PoolMemory
  import opened PoolOps

  /** `heads` is the table `blocks[fl][sl]` in row-major order: a list's position is its rank. */
  datatype Index = Index(flBitmap: nat, slBitmap: seq<nat>, heads: seq<Addr>)

  ghost predicate Sized(ix: Index) {
    && ix.flBitmap < Pow2(FL_INDEX_COUNT)
    && |ix.slBitmap| == FL_INDEX_COUNT
    && |ix.heads| == CLASS_COUNT
    && forall fl | 0 <= fl < FL_INDEX_COUNT :: ix.slBitmap[fl] < Pow2(SL_INDEX_COUNT)
  }

  ghost predicate HeadOk(ix: Index, h: Heap, nil: Addr, c: Class)
    requires Sized(ix) && c.InTable()
  {
    && ix.heads[c.Rank()] == At(h.List(c), 0, nil)
    && (Bit(ix.slBitmap[c.fl], c.sl) <==> h.List(c) != [])
  }

  ghost predicate RowOk(ix: Index, fl: nat)
    requires Sized(ix) && fl < FL_INDEX_COUNT
  {
    Bit(ix.flBitmap, fl) <==> ix.slBitmap[fl] != 0
  }

  /** Heads are right, a second-level bit is set iff its list is not empty, a first-level bit iff its row is not 0. */
  ghost predicate Agrees(ix: Index, h: Heap, nil: Addr) {
    && Sized(ix)
    && (forall c: Class {:trigger HeadOk(ix, h, nil, c)} | c.InTable() :: HeadOk(ix, h, nil, c))
    && (forall fl: nat {:trigger RowOk(ix, fl)} | fl < FL_INDEX_COUNT :: RowOk(ix, fl))
  }

  function InsertIndex(ix: Index, c: Class, b: Addr): Index
    requires Sized(ix) && c.InTable()
  {
    Index(
      Or(ix.flBitmap, Pow2(c.fl)),
      ix.slBitmap[c.fl := Or(ix.slBitmap[c.fl], Pow2(c.sl))],
      ix.heads[c.Rank() := b])
  }

  function RemoveIndex(ix: Index, c: Class, b: Addr, next: Addr, nil: Addr): Index
    requires Sized(ix) && c.InTable()
  {
    if ix.heads[c.Rank()] != b then ix
    else if next != nil then ix.(heads := ix.heads[c.Rank() := next])
    else
      var row := AndNot(ix.slBitmap[c.fl], Pow2(c.sl));
      Index(
        if row == 0 then AndNot(ix.flBitmap, Pow2(c.fl)) else ix.flBitmap,
        ix.slBitmap[c.fl := row],
        ix.heads[c.Rank() := next])
  }

  lemma InsertSized(ix: Index, c: Class, b: Addr)
    requires Sized(ix) && c.InTable()
    ensures Sized(InsertIndex(ix, c, b))
  {
    Pow2Bound(c.fl, FL_INDEX_COUNT);
    Pow2Bound(c.sl, SL_INDEX_COUNT);
    OrBelow(ix.flBitmap, Pow2(c.fl), FL_INDEX_COUNT);
    OrBelow(ix.slBitmap[c.fl], Pow2(c.sl), SL_INDEX_COUNT);
  }

  lemma InsertHeadOk(ix: Index, h: Heap, nil: Addr, b: Addr, d: Class)
    requires Sized(ix) && b in h.blocks && h.ClassOf(b).InTable() && d.InTable() && HeadOk(ix, h, nil, d)
    requires Sized(InsertIndex(ix, h.ClassOf(b), b))
    ensures HeadOk(InsertIndex(ix, h.ClassOf(b), b), Insert(h, b), nil, d)
  {
    var c := h.ClassOf(b);
    SetBit(ix.slBitmap[c.fl], c.sl, d.sl);
  }

  lemma InsertAgrees(ix: Index, h: Heap, nil: Addr, b: Addr)
    requires Agrees(ix, h, nil) && b in h.blocks && h.ClassOf(b).InTable()
    ensures Agrees(InsertIndex(ix, h.ClassOf(b), b), Insert(h, b), nil)
  {
    var c := h.ClassOf(b);
    var ix' := InsertIndex(ix, c, b);
    InsertSized(ix, c, b);
    forall d: Class | d.InTable() ensures HeadOk(ix', Insert(h, b), nil, d) {
      assert HeadOk(ix, h, nil, d);
      InsertHeadOk(ix, h, nil, b, d);
    }
    forall fl: nat | fl < FL_INDEX_COUNT ensures RowOk(ix', fl) {
      assert RowOk(ix, fl);
      SetBit(ix.flBitmap, c.fl, fl);
      SetBit(ix.slBitmap[c.fl], c.sl, 0);
    }
  }

  lemma RemoveSized(ix: Index, c: Class, b: Addr, next: Addr, nil: Addr)
    requires Sized(ix) && c.InTable()
    ensures Sized(RemoveIndex(ix, c, b, next, nil))
  {
    ClearBit(ix.flBitmap, c.fl, 0);
    ClearBit(ix.slBitmap[c.fl], c.sl, 0);
  }

  lemma RemoveAgrees(ix: Index, h: Heap, nil: Addr, s: seq<Addr>, i: int)
    requires Agrees(ix, h, nil) && 0 <= i < |s| && NoDuplicates(s) && s[i] in h.blocks
    requires h.ClassOf(s[i]).InTable() && s == h.List(h.ClassOf(s[i])) && nil !in s
    ensures Agrees(RemoveIndex(ix, h.ClassOf(s[i]), s[i], At(s, i + 1, nil), nil), Remove(h, s[i]), nil)
  {
    var c := h.ClassOf(s[i]);
    var ix' := RemoveIndex(ix, c, s[i], At(s, i + 1, nil), nil);
    RemoveSized(ix, c, s[i], At(s, i + 1, nil), nil);
    WithoutHead(s, i, nil);
    forall d: Class | d.InTable() ensures HeadOk(ix', Remove(h, s[i]), nil, d) {
      RemoveHeadOk(ix, h, nil, s, i, d);
    }
    assert HeadOk(ix, h, nil, c);
    forall fl: nat | fl < FL_INDEX_COUNT ensures RowOk(ix', fl) {
      RemoveRowOk(ix, c, s[i], At(s, i + 1, nil), nil, fl);
    }
  }

  lemma RemoveHeadOk(ix: Index, h: Heap, nil: Addr, s: seq<Addr>, i: int, d: Class)
    requires Agrees(ix, h, nil) && 0 <= i < |s| && NoDuplicates(s) && s[i] in h.blocks
    requires h.ClassOf(s[i]).InTable() && s == h.List(h.ClassOf(s[i])) && nil !in s && d.InTable()
    requires Sized(RemoveIndex(ix, h.ClassOf(s[i]), s[i], At(s, i + 1, nil), nil))
    ensures HeadOk(RemoveIndex(ix, h.ClassOf(s[i]), s[i], At(s, i + 1, nil), nil), Remove(h, s[i]), nil, d)
  {
    var c := h.ClassOf(s[i]);
    assert HeadOk(ix, h, nil, c) && HeadOk(ix, h, nil, d);
    if d == c {
      RemoveOwnHead(ix, h, nil, s, i);
    } else {
      ClearBit(ix.slBitmap[c.fl], c.sl, d.sl);
    }
  }

  lemma RemoveOwnHead(ix: Index, h: Heap, nil: Addr, s: seq<Addr>, i: int)
    requires Sized(ix) && 0 <= i < |s| && NoDuplicates(s) && s[i] in h.blocks
    requires h.ClassOf(s[i]).InTable() && s == h.List(h.ClassOf(s[i])) && nil !in s
    requires HeadOk(ix, h, nil, h.ClassOf(s[i]))
    requires Sized(RemoveIndex(ix, h.ClassOf(s[i]), s[i], At(s, i + 1, nil), nil))
    ensures HeadOk(RemoveIndex(ix, h.ClassOf(s[i]), s[i], At(s, i + 1, nil), nil),
                   Remove(h, s[i]), nil, h.ClassOf(s[i]))
  {
    var c := h.ClassOf(s[i]);
    assert ix.heads[c.Rank()] == s[i] <==> i == 0;
    assert At(s, i + 1, nil) == nil <==> i + 1 == |s|;
    WithoutHead(s, i, nil);
    ClearBit(ix.slBitmap[c.fl], c.sl, c.sl);
  }

  lemma RemoveRowOk(ix: Index, c: Class, b: Addr, next: Addr, nil: Addr, fl: nat)
    requires Sized(ix) && c.InTable() && fl < FL_INDEX_COUNT && RowOk(ix, fl) && RowOk(ix, c.fl)
    requires Bit(ix.slBitmap[c.fl], c.sl)
    requires Sized(RemoveIndex(ix, c, b, next, nil))
    ensures RowOk(RemoveIndex(ix, c, b, next, nil), fl)
  {
    ClearBit(ix.flBitmap, c.fl, fl);
    BitOfNonZero(ix, c);
  }

  lemma BitOfNonZero(ix: Index, c: Class)
    requires Sized(ix) && c.InTable() && Bit(ix.slBitmap[c.fl], c.sl)
    ensures ix.slBitmap[c.fl] != 0
  {
    NoBitsOfZero(c.sl);
  }

  /** Unlinking the member at i: who is first afterwards. */
  lemma WithoutHead(s: seq<Addr>, i: int, nil: Addr)
    requires NoDuplicates(s) && 0 <= i < |s|
    ensures At(Without(s, s[i]), 0, nil) == if i == 0 then At(s, 1, nil) else s[0]
    ensures Without(s, s[i]) == [] <==> |s| == 1
  {
  }

  // The search

  /** `tlsf_ffs`: isolate the lowest set bit, then take its position from the leading zeros. */
  function TlsfFfs(w: Word): int {
    Fls(And(w, Complement(w) + 1))
  }

  /** `~w` on a 32-bit word. */
  function Complement(w: Word): Word {
    0xFFFF_FFFF - w
  }

  lemma TlsfFfsIsCtz(w: Word)
    requires w > 0
    ensures TlsfFfs(w) == Ctz(w)
  {
    Pow2Word();
    LowestBitIsolated(w, WORD_BITS);
  }

  /** `search_suitable_block`: the class it settles on. */
  function SearchIndex(ix: Index, from: Class): Option<Class>
    requires Sized(ix) && from.InTable()
  {
    var slMap := And(ix.slBitmap[from.fl], HighMask(from.sl));
    if slMap != 0 then Some(Class(from.fl, Ctz(slMap)))
    else
      var flMap := And(ix.flBitmap, HighMask(from.fl + 1));
      if flMap == 0 then None
      else
        var fl := Ctz(flMap);
        if fl < FL_INDEX_COUNT && ix.slBitmap[fl] > 0 then Some(Class(fl, Ctz(ix.slBitmap[fl]))) else None
  }

  lemma MaskedLowest(w: nat, k: nat)
    requires k <= WORD_BITS && w < 0x1_0000_0000
    ensures And(w, HighMask(k)) == 0 ==> forall i: nat | i >= k :: !Bit(w, i)
    ensures And(w, HighMask(k)) != 0 ==>
            var i := Ctz(And(w, HighMask(k)));
            i >= k && Bit(w, i) && forall j: nat | k <= j < i :: !Bit(w, j)
  {
    var masked := And(w, HighMask(k));
    Pow2Word();
    forall i: nat ensures Bit(masked, i) <==> Bit(w, i) && i >= k {
      AndBit(w, HighMask(k), i);
      HighMaskBit(k, i);
      if i >= WORD_BITS {
        HighBitsClear(w, WORD_BITS, i);
      }
    }
    if masked == 0 {
      forall i: nat | i >= k ensures !Bit(w, i) {
        NoBitsOfZero(i);
      }
    }
  }

  lemma FirstNonEmptyIs(h: Heap, rank: nat, c: Class)
    requires c.InTable() && rank <= c.Rank() && h.List(c) != []
    requires forall k | rank <= k < c.Rank() :: h.List(ClassAt(k)) == []
    ensures FirstNonEmpty(h, rank) == Some(c)
  {
    ClassAtRank(c);
    var r := FirstNonEmpty(h, rank);
    if r.Some? {
      ClassAtRank(r.value);
      assert r.value.Rank() == c.Rank();
    }
  }

  lemma SmallWord(ix: Index, fl: nat)
    requires Sized(ix) && fl < FL_INDEX_COUNT
    ensures ix.slBitmap[fl] < 0x1_0000_0000 && ix.flBitmap < 0x1_0000_0000
  {
    Pow2Word();
    Pow2Bound(SL_INDEX_COUNT, WORD_BITS);
    Pow2Bound(FL_INDEX_COUNT, WORD_BITS);
  }

  /** The two-level bitmap search finds the first non-empty list at or after the starting class. */
  lemma SearchFinds(ix: Index, h: Heap, nil: Addr, from: Class)
    requires Agrees(ix, h, nil) && from.InTable()
    ensures SearchIndex(ix, from) == FirstNonEmpty(h, from.Rank())
  {
    if And(ix.slBitmap[from.fl], HighMask(from.sl)) != 0 {
      SearchRow(ix, h, nil, from);
    } else {
      SearchRows(ix, h, nil, from);
    }
  }

  lemma SearchRow(ix: Index, h: Heap, nil: Addr, from: Class)
    requires Agrees(ix, h, nil) && from.InTable()
    requires And(ix.slBitmap[from.fl], HighMask(from.sl)) != 0
    ensures SearchIndex(ix, from) == FirstNonEmpty(h, from.Rank())
  {
    SmallWord(ix, from.fl);
    MaskedLowest(ix.slBitmap[from.fl], from.sl);
    SameRow(ix, h, nil, from, Ctz(And(ix.slBitmap[from.fl], HighMask(from.sl))));
  }

  /** The lowest bit at or after the start, in the row of the start, is the first list in use. */
  lemma SameRow(ix: Index, h: Heap, nil: Addr, from: Class, sl: nat)
    requires Agrees(ix, h, nil) && from.InTable() && from.sl <= sl && Bit(ix.slBitmap[from.fl], sl)
    requires forall j: nat | from.sl <= j < sl :: !Bit(ix.slBitmap[from.fl], j)
    ensures FirstNonEmpty(h, from.Rank()) == Some(Class(from.fl, sl))
  {
    var c := Class(from.fl, sl);
    RowBitInTable(ix, c);
    assert HeadOk(ix, h, nil, c);
    forall k | from.Rank() <= k < c.Rank() ensures h.List(ClassAt(k)) == [] {
      assert HeadOk(ix, h, nil, ClassAt(k));
    }
    FirstNonEmptyIs(h, from.Rank(), c);
  }

  lemma RowBitInTable(ix: Index, c: Class)
    requires Sized(ix) && c.fl < FL_INDEX_COUNT && Bit(ix.slBitmap[c.fl], c.sl)
    ensures c.InTable()
  {
    if c.sl >= SL_INDEX_COUNT {
      HighBitsClear(ix.slBitmap[c.fl], SL_INDEX_COUNT, c.sl);
    }
  }

  lemma SearchRows(ix: Index, h: Heap, nil: Addr, from: Class)
    requires Agrees(ix, h, nil) && from.InTable()
    requires And(ix.slBitmap[from.fl], HighMask(from.sl)) == 0
    ensures SearchIndex(ix, from) == FirstNonEmpty(h, from.Rank())
  {
    SmallWord(ix, from.fl);
    MaskedLowest(ix.slBitmap[from.fl], from.sl);
    MaskedLowest(ix.flBitmap, from.fl + 1);
    var flMap := And(ix.flBitmap, HighMask(from.fl + 1));
    if flMap != 0 {
      RowBelow(ix, Ctz(flMap));
      LaterRow(ix, h, nil, from, Ctz(flMap));
    } else {
      var r := FirstNonEmpty(h, from.Rank());
      if r.Some? {
        RowsEmpty(ix, h, nil, from, r.value);
      }
    }
  }

  lemma RowBelow(ix: Index, fl: nat)
    requires Sized(ix) && Bit(ix.flBitmap, fl)
    ensures fl < FL_INDEX_COUNT
  {
    if fl >= FL_INDEX_COUNT {
      HighBitsClear(ix.flBitmap, FL_INDEX_COUNT, fl);
    }
  }

  /** The lowest bit of the next row in use is the first list in use. */
  lemma LaterRow(ix: Index, h: Heap, nil: Addr, from: Class, fl: nat)
    requires Agrees(ix, h, nil) && from.InTable() && from.fl < fl < FL_INDEX_COUNT && Bit(ix.flBitmap, fl)
    requires forall i: nat | i >= from.sl :: !Bit(ix.slBitmap[from.fl], i)
    requires forall i: nat | from.fl < i < fl :: !Bit(ix.flBitmap, i)
    ensures ix.slBitmap[fl] > 0 && FirstNonEmpty(h, from.Rank()) == Some(Class(fl, Ctz(ix.slBitmap[fl])))
  {
    assert RowOk(ix, fl);
    var c := Class(fl, Ctz(ix.slBitmap[fl]));
    RowBitInTable(ix, c);
    assert HeadOk(ix, h, nil, c);
    forall k | from.Rank() <= k < c.Rank() ensures h.List(ClassAt(k)) == [] {
      EmptyBetween(ix, h, nil, from, fl, k);
    }
    FirstNonEmptyIs(h, from.Rank(), c);
  }

  /** Nothing is listed between the start of the search and the row it jumps to, nor there before the lowest bit. */
  lemma EmptyBetween(ix: Index, h: Heap, nil: Addr, from: Class, fl: nat, k: nat)
    requires Agrees(ix, h, nil) && from.InTable() && fl < FL_INDEX_COUNT && ix.slBitmap[fl] > 0
    requires forall i: nat | i >= from.sl :: !Bit(ix.slBitmap[from.fl], i)
    requires forall i: nat | from.fl < i < fl :: !Bit(ix.flBitmap, i)
    requires from.fl < fl && from.Rank() <= k < Class(fl, Ctz(ix.slBitmap[fl])).Rank() && ClassAt(k).InTable()
    ensures h.List(ClassAt(k)) == []
  {
    var d := ClassAt(k);
    RowBitInTable(ix, Class(fl, Ctz(ix.slBitmap[fl])));
    assert HeadOk(ix, h, nil, d) && RowOk(ix, d.fl);
    if d.fl == from.fl {
      assert !Bit(ix.slBitmap[from.fl], d.sl);
    } else if d.fl == fl {
      assert d.sl < Ctz(ix.slBitmap[fl]);
    } else {
      assert !Bit(ix.flBitmap, d.fl);
      NoBitsOfZero(d.sl);
    }
  }

  lemma RowsEmpty(ix: Index, h: Heap, nil: Addr, from: Class, d: Class)
    requires Agrees(ix, h, nil) && from.InTable() && d.InTable() && from.Rank() <= d.Rank()
    requires forall i: nat | i >= from.sl :: !Bit(ix.slBitmap[from.fl], i)
    requires forall i: nat | i >= from.fl + 1 :: !Bit(ix.flBitmap, i)
    ensures h.List(d) == []
  {
    assert HeadOk(ix, h, nil, d) && RowOk(ix, d.fl);
    if d.fl > from.fl {
      NoBitsOfZero(d.sl);
    }
  }

  /** When a search moves on to a later row, that row exists and holds a list. */
  lemma RowFound(ix: Index, from: Class)
    requires Sized(ix) && from.InTable() && And(ix.flBitmap, HighMask(from.fl + 1)) != 0
    requires forall fl: nat {:trigger RowOk(ix, fl)} | fl < FL_INDEX_COUNT :: RowOk(ix, fl)
    ensures var fl := Ctz(And(ix.flBitmap, HighMask(from.fl + 1))); fl < FL_INDEX_COUNT && ix.slBitmap[fl] != 0
  {
    SmallWord(ix, from.fl);
    MaskedLowest(ix.flBitmap, from.fl + 1);
    var fl := Ctz(And(ix.flBitmap, HighMask(from.fl + 1)));
    if fl >= FL_INDEX_COUNT {
      HighBitsClear(ix.flBitmap, FL_INDEX_COUNT, fl);
    }
    assert RowOk(ix, fl);
  }
}
