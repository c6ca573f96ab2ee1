/**
 The size-class arithmetic of the pool: how a block size is mapped to a first- and second-level list, and how
 a request is rounded up so that every block of the list it is mapped to is large enough.
 Sizes are `size_t` values, so below 2^32; the layout is the 32-bit one (4-byte words and alignment).
 */
module SizeClass {
  import opened Bits

  /** log2 of the pool's chunk limit: a build option, any value for which the tables make sense. */
  type ChunkLog2 = n: nat | 7 <= n <= 31 witness 15

  const FL_INDEX_MAX: ChunkLog2
  const SL_INDEX_COUNT_LOG2 := 4
  const SL_INDEX_COUNT := 16
  const ALIGN_SIZE := 4
  const FL_INDEX_SHIFT := 6
  const SMALL_BLOCK_SIZE := 64
  const FL_INDEX_COUNT: nat := FL_INDEX_MAX - FL_INDEX_SHIFT + 1
  const BLK_SIZE_MIN := 12
  const BLK_SIZE_MAX: nat := Pow2(FL_INDEX_MAX)

  datatype Class = Class(fl: nat, sl: nat) {
    /** Position of the list in the order the search visits the lists. */
    function Rank(): nat {
      SL_INDEX_COUNT * fl + sl
    }

    /** The list exists in the tables. */
    predicate InTable() {
      fl < FL_INDEX_COUNT && sl < SL_INDEX_COUNT
    }

    /** Smallest size kept in the list: `get_max_chunk_above_small_sz` and `get_max_chunk_below_small_sz`. */
    function MinSize(): nat {
      if fl == 0 then sl * (SMALL_BLOCK_SIZE / SL_INDEX_COUNT)
      else Pow2(fl + FL_INDEX_SHIFT - 1) + Pow2(fl + FL_INDEX_SHIFT - SL_INDEX_COUNT_LOG2 - 1) * sl
    }

    /** Number of consecutive sizes kept in the list. */
    function Width(): nat {
      if fl == 0 then ALIGN_SIZE else Pow2(fl + FL_INDEX_SHIFT - SL_INDEX_COUNT_LOG2 - 1)
    }
  }

  function MappingInsert(size: nat): Class {
    if size < SMALL_BLOCK_SIZE then
      Class(0, size / (SMALL_BLOCK_SIZE / SL_INDEX_COUNT))
    else
      LargeRow(size);
      var fl := Fls(size);
      Class(fl - (FL_INDEX_SHIFT - 1), Xor(size / Pow2(fl - SL_INDEX_COUNT_LOG2), Pow2(SL_INDEX_COUNT_LOG2)))
  }

  /** The request size that `mapping_search` hands to `mapping_insert`. */
  function RoundedRequest(size: nat): nat {
    if size >= SMALL_BLOCK_SIZE then
      LargeRow(size);
      size + Pow2(Fls(size) - SL_INDEX_COUNT_LOG2) - 1
    else size
  }

  function MappingSearch(size: nat): Class {
    MappingInsert(RoundedRequest(size))
  }

  function AlignUp(x: Word): Word {
    var bumped := (x + ALIGN_SIZE - 1) % 0x1_0000_0000;
    bumped - bumped % ALIGN_SIZE
  }

  /** Zero stands for a request that cannot be met. */
  function AdjustRequestSize(size: Word): Word {
    var aligned := AlignUp(size);
    if size == 0 || aligned >= BLK_SIZE_MAX then 0
    else if aligned < BLK_SIZE_MIN then BLK_SIZE_MIN else aligned
  }

  // Arithmetic helpers

  lemma LargeRow(size: nat)
    requires size >= SMALL_BLOCK_SIZE
    ensures Fls(size) >= FL_INDEX_SHIFT
    ensures Pow2(Fls(size)) <= size < 2 * Pow2(Fls(size))
    ensures Pow2(Fls(size)) == 16 * Pow2(Fls(size) - SL_INDEX_COUNT_LOG2)
  {
    FlsBounds(size);
    assert Pow2(6) == 64;
    if Fls(size) < 6 {
      Pow2Bound(Fls(size), 5);
      assert false;
    }
    Pow2Add(Fls(size) - 4, 4);
  }

  lemma LargeFls(size: nat)
    requires size >= SMALL_BLOCK_SIZE
    ensures Fls(size) >= FL_INDEX_SHIFT
  {
    LargeRow(size);
  }

  lemma Quotient(x: nat, p: nat)
    requires p > 0
    ensures (x / p) * p <= x < (x / p) * p + p
  {
  }

  lemma QuotientBounds(x: nat, p: nat, lo: nat, hi: nat)
    requires p > 0 && lo * p <= x < hi * p
    ensures lo <= x / p < hi
  {
    Quotient(x, p);
    var q := x / p;
    if q < lo {
      MulMono(q + 1, lo, p);
    }
    if q >= hi {
      MulMono(hi, q, p);
    }
  }

  lemma MulMono(a: nat, b: nat, p: nat)
    requires a <= b
    ensures a * p <= b * p
    ensures (a + 1) * p == a * p + p
  {
  }

  lemma QuotientIs(x: nat, p: nat, q: nat)
    requires p > 0 && q * p <= x < q * p + p
    ensures x / p == q
  {
    assert (q + 1) * p == q * p + p;
    QuotientBounds(x, p, q, q + 1);
  }

  lemma XorRow(q: nat)
    requires 16 <= q < 32
    ensures Xor(q, Pow2(SL_INDEX_COUNT_LOG2)) == q - 16
  {
    assert Pow2(4) == 16;
    XorHighestBit(q, 4);
  }

  lemma LargeClass(size: nat)
    requires size >= SMALL_BLOCK_SIZE
    ensures Fls(size) >= FL_INDEX_SHIFT
    ensures var q := size / Pow2(Fls(size) - SL_INDEX_COUNT_LOG2);
            16 <= q < 32 && MappingInsert(size) == Class(Fls(size) - 5, q - 16)
  {
    LargeQuotient(size);
    XorRow(size / Pow2(Fls(size) - SL_INDEX_COUNT_LOG2));
  }

  lemma LargeQuotient(size: nat)
    requires size >= SMALL_BLOCK_SIZE
    ensures Fls(size) >= FL_INDEX_SHIFT && 16 <= size / Pow2(Fls(size) - SL_INDEX_COUNT_LOG2) < 32
  {
    LargeRow(size);
    QuotientBounds(size, Pow2(Fls(size) - SL_INDEX_COUNT_LOG2), 16, 32);
  }

  /** A large size as row, quotient and remainder: the row's step divides the size q times, 16 <= q < 32. */
  lemma LargeSplit(size: nat)
    requires size >= SMALL_BLOCK_SIZE
    ensures Fls(size) >= FL_INDEX_SHIFT
    ensures var p := Pow2(Fls(size) - SL_INDEX_COUNT_LOG2);
            16 <= size / p < 32
            && MappingInsert(size) == Class(Fls(size) - 5, size / p - 16)
            && MappingInsert(size).MinSize() == (size / p) * p
            && MappingInsert(size).Width() == p
  {
    LargeClass(size);
    RowStart(Fls(size) - 5, size / Pow2(Fls(size) - SL_INDEX_COUNT_LOG2));
  }

  lemma RowFloor(c: Class)
    requires c.fl > 0
    ensures Pow2(c.fl + 5) <= c.MinSize() && c.Width() == Pow2(c.fl + 1)
  {
    assert Pow2(c.fl + 1) * c.sl >= 0;
  }

  /** The lower bound of a list of a large row, as a multiple of the row's step. */
  lemma RowStart(fl: nat, q: nat)
    requires fl > 0 && q >= 16
    ensures Class(fl, q - 16).MinSize() == q * Pow2(fl + 1)
    ensures Pow2(fl + 5) == 16 * Pow2(fl + 1)
  {
    var p := Pow2(fl + 1);
    Pow2Add(fl + 1, 4);
    assert Pow2(4) == 16;
    assert p * (q - 16) == q * p - 16 * p;
  }

  lemma ChunkLimit()
    ensures BLK_SIZE_MAX % 4 == 0 && 128 <= BLK_SIZE_MAX <= 0x8000_0000
  {
    Pow2Bound(7, FL_INDEX_MAX);
    Pow2Bound(FL_INDEX_MAX, 31);
    assert Pow2(7) == 128;
    HalfWord();
    FourTimesPow2(FL_INDEX_MAX);
  }

  lemma HalfWord()
    ensures Pow2(31) == 0x8000_0000
  {
    Pow2Word();
    assert Pow2(32) == 2 * Pow2(31);
  }

  lemma FourTimesPow2(k: nat)
    requires k >= 2
    ensures Pow2(k) % 4 == 0
  {
    assert Pow2(k) == 2 * Pow2(k - 1) == 4 * Pow2(k - 2);
  }

  // Main facts

  /** `mapping_insert` puts a size into the one list whose range contains it. */
  lemma MappingRange(size: nat)
    ensures var c := MappingInsert(size);
            c.sl < SL_INDEX_COUNT && c.MinSize() <= size < c.MinSize() + c.Width()
  {
    if size >= SMALL_BLOCK_SIZE {
      LargeSplit(size);
      Quotient(size, Pow2(Fls(size) - SL_INDEX_COUNT_LOG2));
    }
  }

  lemma MappingUnique(size: nat, c: Class)
    requires c.sl < SL_INDEX_COUNT && c.MinSize() <= size < c.MinSize() + c.Width()
    ensures MappingInsert(size) == c
  {
    if c.fl > 0 {
      var p := c.Width();
      var q := c.sl + 16;
      RowStart(c.fl, q);
      Sandwich(16, q, 32, p);
      Pow2Bound(6, c.fl + 5);
      assert Pow2(6) == 64;
      FlsUnique(size, c.fl + 5);
      QuotientIs(size, p, q);
      LargeSplit(size);
    }
  }

  lemma Sandwich(lo: nat, q: nat, hi: nat, p: nat)
    requires lo <= q < hi
    ensures lo * p <= q * p && q * p + p <= hi * p
  {
    assert (q + 1) * p == q * p + p;
    assert lo * p <= q * p && (q + 1) * p <= hi * p;
  }

  /** A block size fits the tables exactly when it is below the chunk limit. */
  lemma InTableIff(size: nat)
    ensures MappingInsert(size).InTable() <==> size < BLK_SIZE_MAX
  {
    MappingRange(size);
    assert Pow2(7) == 128;
    Pow2Bound(7, FL_INDEX_MAX);
    if size >= SMALL_BLOCK_SIZE {
      LargeSplit(size);
      LargeRow(size);
      if Fls(size) < FL_INDEX_MAX {
        Pow2Bound(Fls(size), FL_INDEX_MAX);
      } else {
        Pow2Bound(FL_INDEX_MAX, Fls(size));
      }
    }
  }

  /** The lists' ranges follow each other without gap, in search order. */
  lemma NextClass(c: Class)
    requires c.sl < SL_INDEX_COUNT
    ensures var next := if c.sl + 1 < SL_INDEX_COUNT then Class(c.fl, c.sl + 1) else Class(c.fl + 1, 0);
            next.Rank() == c.Rank() + 1 && next.MinSize() == c.MinSize() + c.Width()
  {
    if c.fl == 0 {
      assert Pow2(6) == 64;
    } else {
      var p := c.Width();
      assert p * (c.sl + 1) == p * c.sl + p;
      if c.sl == 15 {
        Pow2Add(c.fl + 1, 4);
        assert Pow2(4) == 16;
        assert Pow2(c.fl + 6) == 2 * Pow2(c.fl + 5);
      }
    }
  }

  /** A later list holds only larger sizes. */
  lemma {:induction false} RankOrder(c: Class, d: Class)
    requires c.sl < SL_INDEX_COUNT && d.sl < SL_INDEX_COUNT && c.Rank() < d.Rank()
    ensures c.MinSize() + c.Width() <= d.MinSize()
    decreases d.Rank() - c.Rank()
  {
    NextClass(c);
    var next := if c.sl + 1 < SL_INDEX_COUNT then Class(c.fl, c.sl + 1) else Class(c.fl + 1, 0);
    if next.Rank() == d.Rank() {
      assert next == d;
    } else {
      RankOrder(next, d);
    }
  }

  /** The mapping is monotone: a larger size is never mapped to an earlier list. */
  lemma MappingMonotone(a: nat, b: nat)
    requires a <= b
    ensures MappingInsert(a).Rank() <= MappingInsert(b).Rank()
  {
    MappingRange(a);
    MappingRange(b);
    if MappingInsert(b).Rank() < MappingInsert(a).Rank() {
      RankOrder(MappingInsert(b), MappingInsert(a));
    }
  }

  /** Rounding up: every size in the searched list, or in a later one, covers the request. The carry into the
      next power of two is the second case of the proof. */
  lemma GoodFit(size: nat, block: nat)
    requires size % ALIGN_SIZE == 0
    requires MappingSearch(size).Rank() <= MappingInsert(block).Rank()
    ensures size <= block
  {
    var c := MappingSearch(size);
    MappingRange(RoundedRequest(size));
    MappingRange(block);
    if c.Rank() < MappingInsert(block).Rank() {
      RankOrder(c, MappingInsert(block));
    } else {
      assert c == MappingInsert(block);
    }
    assert c.MinSize() <= block;
    assert size <= c.MinSize() by {
      if size >= SMALL_BLOCK_SIZE {
        SearchCeiling(size);
      }
    }
  }

  /** The row of a size is the position of its highest bit. */
  lemma RowOf(size: nat, k: nat)
    requires k >= FL_INDEX_SHIFT && Pow2(k) <= size < 2 * Pow2(k)
    ensures MappingInsert(size).Width() == Pow2(k - SL_INDEX_COUNT_LOG2)
    ensures Pow2(k) <= MappingInsert(size).MinSize()
  {
    Pow2Bound(6, k);
    assert Pow2(6) == 64;
    FlsUnique(size, k);
    LargeClass(size);
    RowFloor(MappingInsert(size));
  }

  /** A size rounded up by a step of row k ends in a list of that row, or carries into the next power of two. */
  lemma CeilingIn(size: nat, r: nat, k: nat)
    requires k >= FL_INDEX_SHIFT && size < 2 * Pow2(k) && r == size + Pow2(k - SL_INDEX_COUNT_LOG2) - 1
    requires Pow2(k) <= r < 2 * Pow2(k + 1)
    ensures size <= MappingInsert(r).MinSize()
  {
    if r < 2 * Pow2(k) {
      RowOf(r, k);
      MappingRange(r);
    } else {
      RowOf(r, k + 1);
    }
  }

  lemma SearchCeiling(size: nat)
    requires size >= SMALL_BLOCK_SIZE
    ensures size <= MappingSearch(size).MinSize()
  {
    LargeRow(size);
    CeilingIn(size, RoundedRequest(size), Fls(size));
  }

  /** Rounding never skips a list that could serve a request sitting on a list's lower bound. */
  lemma SearchAtMinSize(c: Class)
    requires c.sl < SL_INDEX_COUNT
    ensures MappingSearch(c.MinSize()) == c
  {
    if c.fl == 0 {
    } else {
      MappingUnique(c.MinSize(), c);
      Pow2Bound(6, c.fl + 5);
      assert Pow2(6) == 64;
      LargeSplit(c.MinSize());
      MappingUnique(RoundedRequest(c.MinSize()), c);
    }
  }

  /** The search row of an adjusted request lies in the tables exactly when the request leaves room for the
      rounding: above this bound the search reads one row past the end of `sl_bitmap`. */
  lemma SearchRowInTable(size: nat)
    requires size < BLK_SIZE_MAX
    ensures MappingSearch(size).InTable() <==> size <= BLK_SIZE_MAX - Pow2(FL_INDEX_MAX - 5) || size < SMALL_BLOCK_SIZE
  {
    InTableIff(RoundedRequest(size));
    RoundedBelowLimit(size);
  }

  lemma RoundedBelowLimit(size: nat)
    requires size < BLK_SIZE_MAX
    ensures RoundedRequest(size) < BLK_SIZE_MAX <==>
            size <= BLK_SIZE_MAX - Pow2(FL_INDEX_MAX - 5) || size < SMALL_BLOCK_SIZE
  {
    if size < SMALL_BLOCK_SIZE {
      ChunkLimit();
    } else {
      BelowLimit(size);
      RoundedLarge(size);
      if Fls(size) < FL_INDEX_MAX - 1 {
        LowRow(size);
      }
    }
  }

  lemma RoundedLarge(size: nat)
    requires size >= SMALL_BLOCK_SIZE
    ensures Fls(size) >= FL_INDEX_SHIFT && RoundedRequest(size) == size + Pow2(Fls(size) - 4) - 1
  {
    LargeFls(size);
  }

  lemma LowRow(size: nat)
    requires size >= SMALL_BLOCK_SIZE && FL_INDEX_SHIFT <= Fls(size) < FL_INDEX_MAX - 1
    ensures size + Pow2(Fls(size) - 4) - 1 < BLK_SIZE_MAX && size <= BLK_SIZE_MAX - Pow2(FL_INDEX_MAX - 5)
  {
    LargeRow(size);
    LowRowFits(size, Fls(size));
  }

  lemma BelowLimit(size: nat)
    requires SMALL_BLOCK_SIZE <= size < BLK_SIZE_MAX
    ensures FL_INDEX_SHIFT <= Fls(size) < FL_INDEX_MAX
  {
    LargeRow(size);
    if Fls(size) >= FL_INDEX_MAX {
      Pow2Bound(FL_INDEX_MAX, Fls(size));
    }
  }

  /** Below the last row there is room for the rounding. */
  lemma LowRowFits(size: nat, k: nat)
    requires 4 <= k < FL_INDEX_MAX - 1 && Pow2(k) <= size < 2 * Pow2(k)
    ensures size + Pow2(k - 4) - 1 < BLK_SIZE_MAX && size <= BLK_SIZE_MAX - Pow2(FL_INDEX_MAX - 5)
  {
    Pow2Bound(k, FL_INDEX_MAX - 2);
    Pow2Bound(k - 4, FL_INDEX_MAX - 6);
    Pow2Add(FL_INDEX_MAX - 6, 4);
    assert Pow2(4) == 16;
    assert Pow2(FL_INDEX_MAX) == 2 * Pow2(FL_INDEX_MAX - 1);
    assert Pow2(FL_INDEX_MAX - 1) == 2 * Pow2(FL_INDEX_MAX - 2);
    assert Pow2(FL_INDEX_MAX - 5) == 2 * Pow2(FL_INDEX_MAX - 6);
  }

  /** An adjusted request covers the requested bytes exactly when the alignment does not wrap around. */
  lemma AdjustCovers(size: Word)
    ensures (AdjustRequestSize(size) == 0 || size <= AdjustRequestSize(size)) <==> size <= 0xFFFF_FFFC
    ensures AdjustRequestSize(size) % ALIGN_SIZE == 0 && AdjustRequestSize(size) < BLK_SIZE_MAX
    ensures AdjustRequestSize(size) != 0 ==> AdjustRequestSize(size) >= BLK_SIZE_MIN
  {
    Pow2Bound(7, FL_INDEX_MAX);
    assert Pow2(7) == 128;
  }

  lemma AlignUpIs(x: Word)
    ensures if x <= 0xFFFF_FFFC then AlignUp(x) % 4 == 0 && x <= AlignUp(x) < x + 4 else AlignUp(x) == 0
  {
  }

  /** Which requests are refused, and what the others are rounded to. */
  lemma AdjustExact(size: Word)
    ensures var adjust := AdjustRequestSize(size);
            && (adjust == 0 <==> size == 0 || BLK_SIZE_MAX - ALIGN_SIZE < size <= 0xFFFF_FFFC)
            && (adjust != 0 && size <= 0xFFFF_FFFC ==>
                  && adjust % ALIGN_SIZE == 0 && size <= adjust && BLK_SIZE_MIN <= adjust < BLK_SIZE_MAX
                  && (adjust == BLK_SIZE_MIN || adjust < size + ALIGN_SIZE))
            && (size > 0xFFFF_FFFC ==> adjust == BLK_SIZE_MIN)
  {
    ChunkLimit();
    AlignUpIs(size);
  }

  // The exact reach of the search

  lemma {:induction false} FlsMonotone(a: nat, b: nat)
    requires a <= b
    ensures Fls(a) <= Fls(b)
  {
    if a > 0 {
      FlsMonotone(a / 2, b / 2);
    }
  }

  /** The search rounds up by less than a sixteenth. */
  lemma RoundedIs(size: nat)
    ensures size <= RoundedRequest(size) && 16 * (RoundedRequest(size) - size) <= size
    ensures size < SMALL_BLOCK_SIZE ==> RoundedRequest(size) == size
  {
    if size >= SMALL_BLOCK_SIZE {
      LargeRow(size);
    }
  }

  lemma RoundedMonotone(a: nat, b: nat)
    requires a <= b
    ensures RoundedRequest(a) <= RoundedRequest(b)
  {
    if a < SMALL_BLOCK_SIZE {
      RoundedIs(a);
      RoundedIs(b);
    } else {
      LargeFls(a);
      LargeFls(b);
      FlsMonotone(a, b);
      StepMonotone(Fls(a), Fls(b));
    }
  }

  lemma StepMonotone(k: nat, l: nat)
    requires 4 <= k <= l
    ensures Pow2(k - SL_INDEX_COUNT_LOG2) <= Pow2(l - SL_INDEX_COUNT_LOG2)
  {
    Pow2Bound(k - 4, l - 4);
  }

  /** The searched lists are exactly those whose every size covers the request. */
  lemma SearchExact(size: nat, c: Class)
    requires size % ALIGN_SIZE == 0 && c.sl < SL_INDEX_COUNT
    ensures MappingSearch(size).Rank() <= c.Rank() <==> size <= c.MinSize()
  {
    if MappingSearch(size).Rank() <= c.Rank() {
      SearchCovers(size, c);
    }
    if size <= c.MinSize() {
      SearchAtMinSize(c);
      RoundedMonotone(size, c.MinSize());
      MappingMonotone(RoundedRequest(size), RoundedRequest(c.MinSize()));
    }
  }

  lemma SearchCovers(size: nat, c: Class)
    requires size % ALIGN_SIZE == 0 && c.sl < SL_INDEX_COUNT && MappingSearch(size).Rank() <= c.Rank()
    ensures size <= c.MinSize()
  {
    SearchReaches(c);
    GoodFit(size, c.MinSize());
  }

  lemma SearchReaches(c: Class)
    requires c.sl < SL_INDEX_COUNT
    ensures MappingInsert(c.MinSize()) == c
  {
    MappingUnique(c.MinSize(), c);
  }

  /** A block of so many bytes is large enough for the rounded search of a request. */
  predicate Ample(size: nat, block: nat) {
    block >= BLK_SIZE_MIN && 16 * block >= 17 * (size + ALIGN_SIZE - 1)
  }

  lemma AmpleIsSearched(size: Word, block: nat)
    requires 0 < size <= BLK_SIZE_MAX - ALIGN_SIZE && Ample(size, block)
    ensures AdjustRequestSize(size) != 0
    ensures MappingSearch(AdjustRequestSize(size)).Rank() <= MappingInsert(block).Rank()
  {
    ChunkLimit();
    AdjustExact(size);
    RoundedIs(AdjustRequestSize(size));
    MappingMonotone(RoundedRequest(AdjustRequestSize(size)), block);
  }

}
