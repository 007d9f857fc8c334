/** Machine words read as natural numbers, and the single-bit operations the
    frame bitmap performs on them. A bit is named by its position; the
    recursion peels the low bit, so every fact below is a short induction. */
module Words {

  const WORD_LIMIT: nat := 0x1_0000_0000_0000_0000
  const WORD_MAX: nat := 0xFFFF_FFFF_FFFF_FFFF

  /** A u64. */
  type Word = w: nat | w < WORD_LIMIT

  function Pow2(n: nat): (p: nat)
    ensures p >= 1
  {
    if n == 0 then 1 else 2 * Pow2(n - 1)
  }

  lemma Pow2Of64()
    ensures Pow2(64) == WORD_LIMIT
  {
    assert Pow2(8) == 256;
    assert Pow2(16) == 65536;
    assert Pow2(24) == 0x100_0000;
    assert Pow2(32) == 0x1_0000_0000;
    assert Pow2(40) == 0x100_0000_0000;
    assert Pow2(48) == 0x1_0000_0000_0000;
    assert Pow2(56) == 0x100_0000_0000_0000;
  }

  /** `w & (1 << i) != 0`. */
  predicate Bit(w: nat, i: nat) {
    if i == 0 then w % 2 == 1 else Bit(w / 2, i - 1)
  }

  /** `w | (1 << i)`. */
  function SetBit(w: nat, i: nat): nat {
    if i == 0 then w / 2 * 2 + 1 else 2 * SetBit(w / 2, i - 1) + w % 2
  }

  /** `w & !(1 << i)`. */
  function ClearBit(w: nat, i: nat): nat {
    if i == 0 then w / 2 * 2 else 2 * ClearBit(w / 2, i - 1) + w % 2
  }

  /** `(!w).trailing_zeros()`: how many low bits of `w` are set in a row. */
  function TrailingOnes(w: nat): nat
    decreases w
  {
    if w % 2 == 0 then 0 else 1 + TrailingOnes(w / 2)
  }

  lemma {:induction false} SetBitBits(w: nat, i: nat, j: nat)
    ensures Bit(SetBit(w, i), j) == (i == j || Bit(w, j))
  {
    if i == 0 {
      assert (w / 2 * 2 + 1) / 2 == w / 2;
    } else if j > 0 {
      SetBitBits(w / 2, i - 1, j - 1);
    }
  }

  lemma {:induction false} ClearBitBits(w: nat, i: nat, j: nat)
    ensures Bit(ClearBit(w, i), j) == (i != j && Bit(w, j))
  {
    if i == 0 {
      assert (w / 2 * 2) / 2 == w / 2;
    } else if j > 0 {
      ClearBitBits(w / 2, i - 1, j - 1);
    }
  }

  /** Setting or clearing a bit below the width leaves the word in range. */
  lemma {:induction false} BitOpsStayInRange(w: nat, i: nat, width: nat)
    requires i < width && w < Pow2(width)
    ensures SetBit(w, i) < Pow2(width) && ClearBit(w, i) < Pow2(width)
  {
    if i > 0 {
      BitOpsStayInRange(w / 2, i - 1, width - 1);
    }
  }

  /** A word that is not all ones has its lowest clear bit inside the width, and
      every bit below that one is set. */
  lemma {:induction false} TrailingOnesIsLowestClear(w: nat, width: nat)
    requires w < Pow2(width) && w != Pow2(width) - 1
    ensures TrailingOnes(w) < width
    ensures !Bit(w, TrailingOnes(w))
    ensures forall j :: 0 <= j < TrailingOnes(w) ==> Bit(w, j)
  {
    if w % 2 == 1 {
      TrailingOnesIsLowestClear(w / 2, width - 1);
      assert forall j :: 0 < j < TrailingOnes(w) ==> Bit(w, j) == Bit(w / 2, j - 1);
    }
  }

  /** Every bit below the width of the all-ones word is set. */
  lemma {:induction false} AllOnesBits(width: nat, j: nat)
    requires j < width
    ensures Bit(Pow2(width) - 1, j)
  {
    assert (Pow2(width) - 1) / 2 == Pow2(width - 1) - 1;
    if j > 0 {
      AllOnesBits(width - 1, j - 1);
    }
  }

  /** Two words of one width with the same bits are the same word. */
  lemma {:induction false} BitsDetermineWord(v: nat, w: nat, width: nat)
    requires v < Pow2(width) && w < Pow2(width)
    requires forall j :: 0 <= j < width ==> Bit(v, j) == Bit(w, j)
    ensures v == w
  {
    if width > 0 {
      assert Bit(v, 0) == Bit(w, 0);
      forall j | 0 <= j < width - 1 ensures Bit(v / 2, j) == Bit(w / 2, j) {
        assert Bit(v, j + 1) == Bit(w, j + 1);
      }
      BitsDetermineWord(v / 2, w / 2, width - 1);
    }
  }

  // ----- division -----

  /** Quotient and remainder, from any way of writing the number. */
  lemma QuotientIsUnique(x: nat, d: nat, q: nat, r: nat)
    requires d > 0 && r < d && x == q * d + r
    ensures x / d == q && x % d == r
  {
    var q', r' := x / d, x % d;
    assert x == q' * d + r';
    MulStep(q, q', d);
    MulStep(q', q, d);
  }

  lemma {:induction false} MulStep(q: nat, q': nat, d: nat)
    ensures q < q' ==> q' * d >= q * d + d
    decreases q'
  {
    if q + 1 < q' {
      MulStep(q, q' - 1, d);
    }
  }
}
