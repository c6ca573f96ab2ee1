/**
 Unsigned machine words as numbers, with the bit operations the kernel applies to them.

 A word is a `nat` below 2^32; `Or`, `And` and `AndNot` are `|`, `&` and `& ~` computed digit by digit.
 Everything the rest of the project needs is stated bit by bit, through `Bit`.
 */
module Bits {

  const WORD_BITS := 32

  type Word = w: nat | w < 0x1_0000_0000

  function Pow2(k: nat): (p: nat)
    ensures p > 0
  {
    if k == 0 then 1 else 2 * Pow2(k - 1)
  }

  predicate Bit(w: nat, i: nat) {
    if i == 0 then w % 2 == 1 else Bit(w / 2, i - 1)
  }

  function Digit(b: bool): nat {
    if b then 1 else 0
  }

  function Or(a: nat, b: nat): nat
    decreases a + b
  {
    if a + b == 0 then 0 else 2 * Or(a / 2, b / 2) + Digit(a % 2 == 1 || b % 2 == 1)
  }

  function And(a: nat, b: nat): nat {
    if a == 0 then 0 else 2 * And(a / 2, b / 2) + Digit(a % 2 == 1 && b % 2 == 1)
  }

  function AndNot(a: nat, b: nat): nat {
    if a == 0 then 0 else 2 * AndNot(a / 2, b / 2) + Digit(a % 2 == 1 && b % 2 == 0)
  }

  function Xor(a: nat, b: nat): nat
    decreases a + b
  {
    if a + b == 0 then 0 else 2 * Xor(a / 2, b / 2) + Digit(a % 2 != b % 2)
  }

  /** `~0 << k` on a 32-bit word. */
  function HighMask(k: nat): Word
    requires k <= WORD_BITS
  {
    Pow2Bound(k, WORD_BITS);
    assert Pow2(WORD_BITS) == 0x1_0000_0000 by { Pow2Word(); }
    Pow2(WORD_BITS) - Pow2(k)
  }

  /** Index of the lowest set bit: what a count of trailing zeros returns for a non-zero word. */
  function Ctz(w: nat): (k: nat)
    requires w > 0
    ensures Bit(w, k)
    ensures forall j: nat | j < k :: !Bit(w, j)
  {
    if w % 2 == 1 then 0
    else
      assert forall j: nat | 0 < j :: Bit(w, j) == Bit(w / 2, j - 1);
      Ctz(w / 2) + 1
  }

  /** Index of the highest set bit, -1 for zero: 31 minus the count of leading zeros. */
  function Fls(w: nat): (k: int)
    ensures k >= -1 && (k == -1 <==> w == 0)
  {
    if w == 0 then -1 else Fls(w / 2) + 1
  }

  // Powers of two

  lemma Pow2Add(a: nat, b: nat)
    ensures Pow2(a + b) == Pow2(a) * Pow2(b)
  {
    if a > 0 {
      Pow2Add(a - 1, b);
    }
  }

  lemma {:induction false} Pow2Bound(a: nat, b: nat)
    requires a <= b
    ensures Pow2(a) <= Pow2(b)
    ensures a < b ==> 2 * Pow2(a) <= Pow2(b)
  {
    if a < b {
      Pow2Bound(a, b - 1);
    }
  }

  lemma Pow2Word()
    ensures Pow2(WORD_BITS) == 0x1_0000_0000
  {
    assert Pow2(8) == 0x100;
    Pow2Add(8, 8);
    Pow2Add(16, 16);
  }

  // Bits of a result

  lemma {:induction false} OrBit(a: nat, b: nat, i: nat)
    ensures Bit(Or(a, b), i) <==> Bit(a, i) || Bit(b, i)
  {
    if a + b == 0 {
      NoBitsOfZero(i);
    } else if i > 0 {
      OrBit(a / 2, b / 2, i - 1);
    }
  }

  lemma {:induction false} AndBit(a: nat, b: nat, i: nat)
    ensures Bit(And(a, b), i) <==> Bit(a, i) && Bit(b, i)
  {
    if a == 0 {
      NoBitsOfZero(i);
    } else if i > 0 {
      AndBit(a / 2, b / 2, i - 1);
    }
  }

  lemma {:induction false} AndNotBit(a: nat, b: nat, i: nat)
    ensures Bit(AndNot(a, b), i) <==> Bit(a, i) && !Bit(b, i)
  {
    if a == 0 {
      NoBitsOfZero(i);
    } else if i > 0 {
      AndNotBit(a / 2, b / 2, i - 1);
    }
  }

  lemma {:induction false} NoBitsOfZero(i: nat)
    ensures !Bit(0, i)
  {
    if i > 0 {
      NoBitsOfZero(i - 1);
    }
  }

  lemma {:induction false} Pow2Bit(k: nat, i: nat)
    ensures Bit(Pow2(k), i) <==> i == k
  {
    if k == 0 && i > 0 {
      NoBitsOfZero(i - 1);
    } else if k > 0 && i > 0 {
      Pow2Bit(k - 1, i - 1);
    }
  }

  /** `2^n - 2^k` has exactly the bits from k up to n. */
  lemma {:induction false} RangeBit(n: nat, k: nat, i: nat)
    requires k <= n
    ensures Pow2(k) <= Pow2(n)
    ensures Bit(Pow2(n) - Pow2(k), i) <==> k <= i < n
  {
    Pow2Bound(k, n);
    if k == n {
      NoBitsOfZero(i);
    } else if k == 0 {
      if i > 0 {
        RangeBit(n - 1, 0, i - 1);
        assert (Pow2(n) - 1) / 2 == Pow2(n - 1) - 1;
      }
    } else if i > 0 {
      RangeBit(n - 1, k - 1, i - 1);
      assert (Pow2(n) - Pow2(k)) / 2 == Pow2(n - 1) - Pow2(k - 1);
    }
  }

  /** Flipping the highest bit of a number that has it subtracts it. */
  lemma {:induction false} XorHighestBit(q: nat, n: nat)
    requires Pow2(n) <= q < 2 * Pow2(n)
    ensures Xor(q, Pow2(n)) == q - Pow2(n)
  {
    if n == 0 {
      assert q == 1 && Xor(0, 0) == 0;
    } else {
      XorHighestBit(q / 2, n - 1);
    }
  }

  lemma HighMaskBit(k: nat, i: nat)
    requires k <= WORD_BITS
    ensures Bit(HighMask(k), i) <==> k <= i < WORD_BITS
  {
    RangeBit(WORD_BITS, k, i);
  }

  // Equality and size

  lemma {:induction false} SameBits(a: nat, b: nat)
    requires forall i: nat :: Bit(a, i) == Bit(b, i)
    ensures a == b
    decreases a + b
  {
    if a + b > 0 {
      assert Bit(a, 0) == Bit(b, 0);
      forall i: nat ensures Bit(a / 2, i) == Bit(b / 2, i) {
        assert Bit(a, i + 1) == Bit(b, i + 1);
      }
      SameBits(a / 2, b / 2);
    }
  }

  lemma {:induction false} HighBitsClear(w: nat, n: nat, i: nat)
    requires w < Pow2(n) && n <= i
    ensures !Bit(w, i)
  {
    if n == 0 {
      NoBitsOfZero(i);
    } else {
      HighBitsClear(w / 2, n - 1, i - 1);
    }
  }

  /** The highest set bit brackets the number between two powers of two. */
  lemma {:induction false} FlsBounds(w: nat)
    requires w > 0
    ensures Fls(w) >= 0 && Pow2(Fls(w)) <= w < 2 * Pow2(Fls(w))
  {
    if w > 1 {
      FlsBounds(w / 2);
    }
  }

  lemma {:induction false} FlsUnique(w: nat, k: nat)
    requires Pow2(k) <= w < 2 * Pow2(k)
    ensures Fls(w) == k
  {
    if k > 0 {
      FlsUnique(w / 2, k - 1);
    }
  }

  lemma {:induction false} FlsHighestBit(w: nat)
    ensures if w > 0 then Fls(w) >= 0 && Bit(w, Fls(w)) else Fls(w) == -1
    ensures forall j: nat | j > Fls(w) :: !Bit(w, j)
  {
    if w == 0 {
      forall j: nat ensures !Bit(w, j) {
        NoBitsOfZero(j);
      }
    } else if w == 1 {
      forall j: nat | j > 0 ensures !Bit(w, j) {
        NoBitsOfZero(j - 1);
      }
    } else {
      FlsHighestBit(w / 2);
      forall j: nat | j > Fls(w) ensures !Bit(w, j) {
        assert !Bit(w / 2, j - 1);
      }
    }
  }

  // Bitwise operations on words stay words

  lemma {:induction false} OrBelow(a: nat, b: nat, n: nat)
    requires a < Pow2(n) && b < Pow2(n)
    ensures Or(a, b) < Pow2(n)
  {
    if a + b > 0 {
      OrBelow(a / 2, b / 2, n - 1);
    }
  }

  lemma AndBelow(a: nat, b: nat)
    ensures And(a, b) <= a
  {
  }

  lemma AndNotBelow(a: nat, b: nat)
    ensures AndNot(a, b) <= a
  {
  }

  // Isolating the lowest set bit

  /** `a & (2^n - 1 - a)` clears everything: the complement shares no bit. */
  lemma {:induction false} AndComplement(a: nat, n: nat)
    requires a < Pow2(n)
    ensures And(a, Pow2(n) - 1 - a) == 0
  {
    if a > 0 {
      AndComplement(a / 2, n - 1);
      assert (Pow2(n) - 1 - a) / 2 == Pow2(n - 1) - 1 - a / 2;
    }
  }

  /** `w & (~w + 1)` keeps exactly the lowest set bit, so its highest bit is the lowest bit of w. */
  lemma {:induction false} LowestBitIsolated(w: nat, n: nat)
    requires 0 < w < Pow2(n)
    ensures And(w, Pow2(n) - w) == Pow2(Ctz(w))
    ensures Fls(And(w, Pow2(n) - w)) == Ctz(w)
  {
    if w % 2 == 1 {
      AndComplement(w / 2, n - 1);
      assert (Pow2(n) - w) / 2 == Pow2(n - 1) - 1 - w / 2;
    } else {
      LowestBitIsolated(w / 2, n - 1);
      assert (Pow2(n) - w) / 2 == Pow2(n - 1) - w / 2;
    }
    FlsUnique(Pow2(Ctz(w)), Ctz(w));
  }

  /** Setting one bit of a word. */
  lemma SetBit(w: nat, k: nat, i: nat)
    ensures Bit(Or(w, Pow2(k)), i) <==> i == k || Bit(w, i)
    ensures Or(w, Pow2(k)) != 0
  {
    OrBit(w, Pow2(k), i);
    Pow2Bit(k, i);
    OrBit(w, Pow2(k), k);
    Pow2Bit(k, k);
    NoBitsOfZero(k);
  }

  /** Clearing one bit of a word. */
  lemma ClearBit(w: nat, k: nat, i: nat)
    ensures Bit(AndNot(w, Pow2(k)), i) <==> i != k && Bit(w, i)
    ensures AndNot(w, Pow2(k)) <= w
  {
    AndNotBit(w, Pow2(k), i);
    Pow2Bit(k, i);
    AndNotBelow(w, Pow2(k));
  }
}
