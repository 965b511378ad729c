/** Unsigned 32-bit words as natural numbers: shifts, masks and wrap-around written out. */
module Words {

  const WORD: nat := 0x1_0000_0000

  function Pow2(k: nat): (r: nat)
    ensures r > 0
  {
    if k == 0 then 1 else 2 * Pow2(k - 1)
  }

  lemma {:induction false} Pow2Increases(a: nat, b: nat)
    requires a < b
    ensures 2 * Pow2(a) <= Pow2(b)
    decreases b
  {
    if a < b - 1 { Pow2Increases(a, b - 1); }
  }

  /** Unsigned `x - y`. */
  function Sub(x: nat, y: nat): (r: nat)
    requires x < WORD && y < WORD
    ensures r < WORD
  {
    if x >= y then x - y else x - y + WORD
  }

  /** Unsigned `-x`. */
  function Neg(x: nat): (r: nat)
    requires x < WORD
    ensures r < WORD
  {
    if x == 0 then 0 else WORD - x
  }

  /** `x << 1` on a word. */
  function Double(x: nat): (r: nat)
    requires x < WORD
    ensures r < WORD
  {
    if 2 * x < WORD then 2 * x else 2 * x - WORD
  }

  /** `x >> k`. */
  function Shr(x: nat, k: nat): (r: nat)
    ensures r <= x
  {
    if k == 0 then x else Shr(x / 2, k - 1)
  }

  /** `x << k` on a word. */
  function Shl(x: nat, k: nat): (r: nat)
    requires x < WORD
    ensures r < WORD
    decreases k
  {
    if k == 0 then x else Shl(Double(x), k - 1)
  }

  /** Bit `k` of `x`. */
  predicate Bit(x: nat, k: nat) {
    Shr(x, k) % 2 == 1
  }

  /** `x & y`. */
  function And(x: nat, y: nat): (r: nat)
    ensures r <= x && r <= y
  {
    if x == 0 || y == 0 then 0
    else 2 * And(x / 2, y / 2) + (if x % 2 == 1 && y % 2 == 1 then 1 else 0)
  }

  /** `x | y`. */
  function Or(x: nat, y: nat): (r: nat)
    decreases x + y
  {
    if x == 0 && y == 0 then 0
    else 2 * Or(x / 2, y / 2) + (if x % 2 == 1 || y % 2 == 1 then 1 else 0)
  }

  /** `~x` on a 32-bit word. */
  function Not(x: nat): nat
    requires x < WORD
  {
    WORD - 1 - x
  }

  lemma {:induction false} Pow2Table()
    ensures Pow2(0) == 1 && Pow2(1) == 2 && Pow2(2) == 4 && Pow2(3) == 8
    ensures Pow2(4) == 16 && Pow2(5) == 32 && Pow2(6) == 64 && Pow2(7) == 128 && Pow2(8) == 256
    ensures Pow2(9) == 512 && Pow2(10) == 1024 && Pow2(11) == 2048 && Pow2(12) == 4096
    ensures Pow2(13) == 8192 && Pow2(14) == 16384 && Pow2(15) == 32768 && Pow2(16) == 65536
    ensures Pow2(22) == 0x400000 && Pow2(23) == 0x800000 && Pow2(24) == 0x1000000
    ensures Pow2(29) == 0x2000_0000 && Pow2(31) == 0x8000_0000 && Pow2(32) == WORD
  {
    assert Pow2(8) == 256;
    assert Pow2(16) == 65536;
    assert Pow2(24) == 0x1000000;
  }

  // ---- Shifts ----

  lemma {:induction false} ShrShr(x: nat, a: nat, b: nat)
    ensures Shr(Shr(x, a), b) == Shr(x, a + b)
    decreases a
  {
    if a > 0 {
      ShrShr(x / 2, a - 1, b);
    }
  }

  lemma {:induction false} ShrSteps(x: nat)
    ensures Shr(x, 1) == x / 2 && Shr(x, 3) == x / 8 && Shr(x, 4) == x / 16
  {
    assert Shr(x, 3) == Shr(x / 2, 2) == Shr(x / 4, 1) == x / 8;
    assert Shr(x, 4) == Shr(x / 2, 3) == Shr(x / 4, 2) == Shr(x / 8, 1) == x / 16;
  }

  lemma {:induction false} ShrEight(x: nat)
    ensures Shr(x, 8) == x / 256
  {
    ShrSteps(x);
    ShrSteps(x / 16);
    ShrShr(x, 4, 4);
  }

  lemma {:induction false} ShrTwelve(x: nat)
    ensures Shr(x, 12) == x / 4096
  {
    ShrEight(x);
    ShrSteps(x / 256);
    ShrShr(x, 8, 4);
  }

  lemma {:induction false} ShrFifteen(x: nat)
    ensures Shr(x, 15) == x / 32768
  {
    ShrTwelve(x);
    ShrSteps(x / 4096);
    ShrShr(x, 12, 3);
  }

  lemma {:induction false} ShrSixteen(x: nat)
    ensures Shr(x, 16) == x / 65536
  {
    ShrTwelve(x);
    ShrSteps(x / 4096);
    ShrShr(x, 12, 4);
  }

  lemma {:induction false} ShrOfPlusPow2(x: nat, m: nat, j: nat)
    requires j <= m
    ensures Shr(x + Pow2(m), j) == Shr(x, j) + Pow2(m - j)
  {
    if j > 0 {
      assert (x + Pow2(m)) / 2 == x / 2 + Pow2(m - 1);
      ShrOfPlusPow2(x / 2, m - 1, j - 1);
    }
  }

  /** A word in `[c * 2^k, (c + 1) * 2^k)` shifts down to `c`. */
  lemma {:induction false} ShrOfRange(x: nat, k: nat, c: nat)
    requires c <= 3
    requires (if c == 0 then 0 else if c == 1 then Pow2(k) else if c == 2 then 2 * Pow2(k) else 3 * Pow2(k))
          <= x < (if c == 0 then Pow2(k) else if c == 1 then 2 * Pow2(k) else if c == 2 then 3 * Pow2(k) else 4 * Pow2(k))
    ensures Shr(x, k) == c
  {
    if k > 0 {
      ShrOfRange(x / 2, k - 1, c);
    }
  }

  lemma {:induction false} BitOfLowPart(y: nat, j: nat)
    requires j < 31
    ensures Bit(y + 0x8000_0000, j) == Bit(y, j)
  {
    HighBitAbove(y, 31, j);
    assert Pow2(31) == 0x8000_0000 by { Pow2Table(); }
  }

  lemma {:induction false} HighBitAbove(y: nat, m: nat, j: nat)
    requires j < m
    ensures Bit(y + Pow2(m), j) == Bit(y, j)
  {
    ShrOfPlusPow2(y, m, j);
    assert Pow2(m - j) == 2 * Pow2(m - j - 1);
  }

  /** Shifting bit `j` of a word to position 31 and reading the sign bit reads bit `j`. */
  lemma {:induction false} ShiftedTopBit(x: nat, j: nat)
    requires x < WORD && j <= 31
    ensures (Shl(x, 31 - j) / 0x8000_0000 == 1) == Bit(x, j)
    decreases 31 - j
  {
    if j == 31 {
      assert Pow2(31) == 0x8000_0000 by { Pow2Table(); }
      ShrOfRange(x, 31, x / 0x8000_0000);
    } else {
      var low := if x >= 0x8000_0000 then x - 0x8000_0000 else x;
      assert Double(x) == 2 * low;
      ShiftedTopBit(2 * low, j + 1);
      assert 2 * low / 2 == low;
      BitOfLowPart(low, j);
    }
  }

  lemma {:induction false} ShlOnce(x: nat, k: nat)
    requires x < WORD
    ensures Double(Shl(x, k)) == Shl(x, k + 1)
    decreases k
  {
    if k > 0 {
      ShlOnce(Double(x), k - 1);
    }
  }

  // ---- Masks ----

  lemma {:induction false} AndHalf(x: nat, y: nat)
    ensures And(x, y) / 2 == And(x / 2, y / 2)
    ensures And(x, y) % 2 == 1 <==> x % 2 == 1 && y % 2 == 1
  {
  }

  lemma {:induction false} OrHalf(x: nat, y: nat)
    ensures Or(x, y) / 2 == Or(x / 2, y / 2)
    ensures Or(x, y) % 2 == 1 <==> x % 2 == 1 || y % 2 == 1
  {
  }

  lemma {:induction false} AndBit(x: nat, y: nat, k: nat)
    ensures Bit(And(x, y), k) == (Bit(x, k) && Bit(y, k))
    decreases k
  {
    AndHalf(x, y);
    if k > 0 {
      AndBit(x / 2, y / 2, k - 1);
    }
  }

  lemma {:induction false} OrBit(x: nat, y: nat, k: nat)
    ensures Bit(Or(x, y), k) == (Bit(x, k) || Bit(y, k))
    decreases k
  {
    OrHalf(x, y);
    if k > 0 {
      OrBit(x / 2, y / 2, k - 1);
    }
  }

  lemma {:induction false} ZeroBit(k: nat)
    ensures Shr(0, k) == 0
  {
    if k > 0 {
      ZeroBit(k - 1);
    }
  }

  lemma {:induction false} ComplementBit(x: nat, n: nat, k: nat)
    requires x < Pow2(n) && k < n
    ensures Bit(Pow2(n) - 1 - x, k) == !Bit(x, k)
  {
    if k > 0 {
      ComplementBit(x / 2, n - 1, k - 1);
      assert (Pow2(n) - 1 - x) / 2 == Pow2(n - 1) - 1 - x / 2;
    }
  }

  lemma {:induction false} PowerBit(i: nat, k: nat)
    ensures Bit(Pow2(i), k) == (i == k)
    decreases k
  {
    if i == 0 && k > 0 {
      assert Pow2(0) / 2 == 0;
      ZeroBit(k - 1);
    } else if k > 0 {
      PowerBit(i - 1, k - 1);
    }
  }

  lemma {:induction false} ShrOfMersenne(i: nat, k: nat)
    ensures Shr(Pow2(i) - 1, k) == if k <= i then Pow2(i - k) - 1 else 0
    decreases k
  {
    if k > 0 {
      if i == 0 {
        assert Pow2(0) - 1 == 0;
        ZeroBit(k);
      } else {
        assert (Pow2(i) - 1) / 2 == Pow2(i - 1) - 1;
        ShrOfMersenne(i - 1, k - 1);
      }
    }
  }

  lemma {:induction false} MersenneBit(i: nat, k: nat)
    ensures Bit(Pow2(i) - 1, k) == (k < i)
  {
    ShrOfMersenne(i, k);
    if k < i {
      assert Pow2(i - k) == 2 * Pow2(i - k - 1);
    }
  }

  lemma {:induction false} AndComplement(x: nat, n: nat)
    requires x < Pow2(n)
    ensures And(x, Pow2(n) - 1 - x) == 0
    decreases n
  {
    if x != 0 && n > 0 {
      AndComplement(x / 2, n - 1);
      assert (Pow2(n) - 1 - x) / 2 == Pow2(n - 1) - 1 - x / 2;
    }
  }

  lemma {:induction false} AndOne(x: nat)
    ensures And(x, 1) == x % 2
  {
    assert And(x / 2, 0) == 0;
  }

  lemma {:induction false} AndPow2(x: nat, i: nat)
    ensures And(x, Pow2(i)) == if Bit(x, i) then Pow2(i) else 0
    decreases i
  {
    if x == 0 {
      ZeroBit(i);
    } else if i > 0 {
      AndPow2(x / 2, i - 1);
    } else {
      assert Pow2(0) / 2 == 0;
    }
  }

  lemma {:induction false} AndThree(x: nat)
    ensures And(x, 3) == x % 4
  {
    AndOne(x / 2);
    assert And(x, 3) == 2 * And(x / 2, 1) + x % 2;
  }

  lemma {:induction false} DoubleBit(x: nat, j: nat)
    requires x < WORD && j < 32
    ensures Bit(Double(x), j) == (j > 0 && Bit(x, j - 1))
  {
    if j > 0 {
      var low := if x >= 0x8000_0000 then x - 0x8000_0000 else x;
      assert Double(x) == 2 * low && 2 * low / 2 == low;
      BitOfLowPart(low, j - 1);
    }
  }

  lemma {:induction false} ShlBit(x: nat, k: nat, j: nat)
    requires x < WORD && j < 32
    ensures Bit(Shl(x, k), j) == (j >= k && Bit(x, j - k))
    decreases k
  {
    if k > 0 {
      ShlBit(Double(x), k - 1, j);
      if j >= k - 1 { DoubleBit(x, j - (k - 1)); }
    }
  }

  /** Words with the same bits are equal. */
  lemma {:induction false} SameBits(x: nat, y: nat, n: nat)
    requires x < Pow2(n) && y < Pow2(n) && forall j | 0 <= j < n :: Bit(x, j) == Bit(y, j)
    ensures x == y
  {
    if n > 0 {
      assert Bit(x, 0) == Bit(y, 0);
      forall j | 0 <= j < n - 1
        ensures Bit(x / 2, j) == Bit(y / 2, j)
      {
        assert Bit(x, j + 1) == Bit(y, j + 1);
      }
      SameBits(x / 2, y / 2, n - 1);
    }
  }
}
