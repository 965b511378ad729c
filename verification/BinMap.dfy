/** Bin bitmaps: `idx2bit`, marking, `least_bit`, `left_bits` and `compute_bit2idx`. */
module BinMap {
  import opened Words

  type BinMap = m: nat | m < WORD witness 0

  function Idx2Bit(i: nat): nat
    requires i < 32
  {
    Pow2(i)
  }

  /** `smallmap_is_marked` / `treemap_is_marked`. */
  predicate Marked(m: BinMap, i: nat)
    requires i < 32
  {
    And(m, Idx2Bit(i)) != 0
  }

  lemma {:induction false} MarkedIsBit(m: BinMap, i: nat)
    requires i < 32
    ensures Marked(m, i) <==> Bit(m, i)
  {
    AndPow2(m, i);
  }

  lemma {:induction false} OrBound(x: nat, y: nat, n: nat)
    requires x < Pow2(n) && y < Pow2(n)
    ensures Or(x, y) < Pow2(n)
    decreases n
  {
    if n > 0 {
      OrBound(x / 2, y / 2, n - 1);
      OrHalf(x, y);
    } else {
      assert Or(0, 0) == 0;
    }
  }

  lemma {:induction false} PowerFits(i: nat)
    requires i < 32
    ensures 2 * Pow2(i) <= WORD
  {
    Pow2Increases(i, 32);
    Pow2Table();
  }

  /** `mark_smallmap` / `mark_treemap`. */
  function Mark(m: BinMap, i: nat): BinMap
    requires i < 32
  {
    PowerFits(i);
    Pow2Table();
    OrBound(m, Idx2Bit(i), 32);
    Or(m, Idx2Bit(i))
  }

  /** `clear_smallmap` / `clear_treemap`. */
  function Clear(m: BinMap, i: nat): BinMap
    requires i < 32
  {
    PowerFits(i);
    And(m, Not(Idx2Bit(i)))
  }

  /** Marking and clearing change exactly the given mark. */
  lemma {:induction false} MarkClear(m: BinMap, i: nat, j: nat)
    requires i < 32 && j < 32
    ensures Marked(Mark(m, i), j) <==> j == i || Marked(m, j)
    ensures Marked(Clear(m, i), j) <==> j != i && Marked(m, j)
  {
    MarkedIsBit(m, j);
    MarkedIsBit(Mark(m, i), j);
    MarkedIsBit(Clear(m, i), j);
    PowerBit(i, j);
    OrBit(m, Idx2Bit(i), j);
    PowerFits(i);
    AndBit(m, Not(Idx2Bit(i)), j);
    Pow2Table();
    ComplementBit(Pow2(i), 32, j);
  }

  // ---- Searching ----

  /** `least_bit(x)`: `x & -x`. */
  function LeastBit(x: BinMap): nat {
    And(x, Neg(x))
  }

  /** `left_bits(x)`: `(x << 1) | -(x << 1)`. */
  function LeftBits(x: BinMap): nat {
    Or(Double(x), Neg(Double(x)))
  }

  /** One stage of the search: how many positions bit `b` of `y >> sh` lets us skip. */
  function Skip(y: nat, sh: nat, b: nat): nat {
    And(Shr(y, sh), b)
  }

  function Search2(y: nat): nat {
    var k := Skip(y, 1, 1);
    k + Shr(y, k)
  }

  function Search4(y: nat): nat {
    var k := Skip(y, 1, 2);
    k + Search2(Shr(y, k))
  }

  function Search8(y: nat): nat {
    var k := Skip(y, 2, 4);
    k + Search4(Shr(y, k))
  }

  function Search16(y: nat): nat {
    var k := Skip(y, 5, 8);
    k + Search8(Shr(y, k))
  }

  /** `compute_bit2idx`, the portable binary search on `x - 1`, one stage per function. */
  function Bit2Idx(x: nat): nat
    requires x > 0
  {
    var y := x - 1;
    var k := Skip(y, 12, 16);
    k + Search16(Shr(y, k))
  }

  /** The first marked position, by linear scan. */
  ghost function FirstBit(x: nat): nat
    requires x > 0
  {
    if x % 2 == 1 then 0 else 1 + FirstBit(x / 2)
  }

  lemma {:induction false} FirstBitIsFirst(x: nat, j: nat)
    requires x > 0
    ensures Bit(x, FirstBit(x))
    ensures j < FirstBit(x) ==> !Bit(x, j)
  {
    if x % 2 == 0 {
      FirstBitIsFirst(x / 2, if j > 0 then j - 1 else 0);
    }
  }

  lemma {:induction false} AndNegation(x: nat, n: nat)
    requires 0 < x < Pow2(n)
    ensures And(x, Pow2(n) - x) == Pow2(FirstBit(x))
    ensures FirstBit(x) < n
    decreases n
  {
    if x % 2 == 1 {
      assert (Pow2(n) - x) / 2 == Pow2(n - 1) - 1 - x / 2;
      AndComplement(x / 2, n - 1);
    } else {
      AndNegation(x / 2, n - 1);
      assert (Pow2(n) - x) / 2 == Pow2(n - 1) - x / 2;
    }
  }

  /** One stage on `2^i - 1` skips `b` positions exactly when position `sh + j` is below `i`. */
  lemma {:induction false} SkipOnMersenne(i: nat, sh: nat, j: nat, b: nat) returns (rest: nat)
    requires b == Pow2(j) && b <= sh + j + 1
    ensures rest == if sh + j < i then i - b else i
    ensures Skip(Pow2(i) - 1, sh, b) == i - rest
    ensures Shr(Pow2(i) - 1, i - rest) == Pow2(rest) - 1
  {
    AndPow2(Shr(Pow2(i) - 1, sh), j);
    ShrShr(Pow2(i) - 1, sh, j);
    MersenneBit(i, sh + j);
    ShrOfMersenne(i, b);
    rest := if sh + j < i then i - b else i;
  }

  lemma {:induction false} Search2OfMersenne(i: nat)
    requires i <= 2
    ensures Search2(Pow2(i) - 1) == i
  {
    var rest := SkipOnMersenne(i, 1, 0, 1);
    assert rest == 0 || rest == 1;
  }

  lemma {:induction false} Search4OfMersenne(i: nat)
    requires i <= 4
    ensures Search4(Pow2(i) - 1) == i
  {
    var rest := SkipOnMersenne(i, 1, 1, 2);
    Search2OfMersenne(rest);
  }

  lemma {:induction false} Search8OfMersenne(i: nat)
    requires i <= 8
    ensures Search8(Pow2(i) - 1) == i
  {
    var rest := SkipOnMersenne(i, 2, 2, 4);
    Search4OfMersenne(rest);
  }

  lemma {:induction false} Search16OfMersenne(i: nat)
    requires i <= 16
    ensures Search16(Pow2(i) - 1) == i
  {
    var rest := SkipOnMersenne(i, 5, 3, 8);
    Search8OfMersenne(rest);
  }

  lemma {:induction false} Bit2IdxOfPower(i: nat)
    requires i < 32
    ensures Bit2Idx(Pow2(i)) == i
  {
    var rest := SkipOnMersenne(i, 12, 4, 16);
    Search16OfMersenne(rest);
  }

  lemma {:induction false} LeastBitIsPower(m: BinMap)
    requires m != 0
    ensures LeastBit(m) == Pow2(FirstBit(m)) && FirstBit(m) < 32
  {
    Pow2Table();
    AndNegation(m, 32);
  }

  /** `compute_bit2idx(least_bit(m))`. */
  function LeastIndex(m: BinMap): nat
    requires m != 0
  {
    LeastBitIsPower(m);
    Bit2Idx(LeastBit(m))
  }

  /** The branch-free pipeline finds what a linear scan for the first mark would find. */
  lemma {:induction false} LeastIndexIsLeast(m: BinMap)
    requires m != 0
    ensures LeastIndex(m) < 32 && Marked(m, LeastIndex(m))
    ensures forall j: nat | j < LeastIndex(m) :: !Marked(m, j)
  {
    LeastBitIsPower(m);
    Bit2IdxOfPower(FirstBit(m));
    MarkedIsBit(m, LeastIndex(m));
    FirstBitIsFirst(m, 0);
    forall j: nat | j < LeastIndex(m)
      ensures !Marked(m, j)
    {
      MarkedIsBit(m, j);
      FirstBitIsFirst(m, j);
    }
  }

  lemma {:induction false} LeftBitsWord(i: nat)
    requires i < 32
    ensures 2 * Pow2(i) <= WORD && LeftBits(Pow2(i)) < WORD
    ensures Double(Pow2(i)) == if i < 31 then Pow2(i + 1) else 0
  {
    PowerFits(i);
    assert Pow2(32) == WORD by { Pow2Table(); }
    if i < 31 { PowerFits(i + 1); }
    var x := Double(Pow2(i));
    OrBound(x, Neg(x), 32);
  }

  lemma {:induction false} LeftBitsAt(i: nat, j: nat)
    requires i < 32 && j < 32
    ensures 2 * Pow2(i) <= WORD
    ensures Bit(LeftBits(Idx2Bit(i)), j) <==> i < j
  {
    LeftBitsWord(i);
    var x := Double(Pow2(i));
    OrBit(x, Neg(x), j);
    if i < 31 {
      PowerBit(i + 1, j);
      assert Neg(x) == Pow2(32) - 1 - (x - 1) by { Pow2Table(); }
      ComplementBit(x - 1, 32, j);
      MersenneBit(i + 1, j);
    } else {
      ZeroBit(j);
    }
  }

  /** `left_bits(idx2bit(i)) & m`. */
  function MarksAbove(m: BinMap, i: nat): BinMap
    requires i < 32
  {
    PowerFits(i);
    And(m, LeftBits(Idx2Bit(i)))
  }

  /** The masked map holds exactly the marks above `i`. */
  lemma {:induction false} MarksAboveAt(m: BinMap, i: nat, j: nat)
    requires i < 32 && j < 32
    ensures Marked(MarksAbove(m, i), j) <==> i < j && Marked(m, j)
  {
    MarkedIsBit(m, j);
    MarkedIsBit(MarksAbove(m, i), j);
    LeftBitsAt(i, j);
    PowerFits(i);
    AndBit(m, LeftBits(Idx2Bit(i)), j);
  }

  lemma {:induction false} NoMarks(m: BinMap)
    ensures m == 0 <==> forall j: nat | j < 32 :: !Marked(m, j)
  {
    if m == 0 {
      forall j: nat | j < 32 ensures !Marked(m, j) {
        MarkedIsBit(m, j);
        ZeroBit(j);
      }
    } else {
      LeastIndexIsLeast(m);
    }
  }

  /** The least mark above `i`, or none, as the masked pipeline computes it. */
  lemma {:induction false} LeastIndexAbove(m: BinMap, i: nat)
    requires i < 32
    ensures var left := MarksAbove(m, i);
            && (left == 0 <==> forall j: nat | i < j < 32 :: !Marked(m, j))
            && (left != 0 ==>
                  && i < LeastIndex(left) < 32
                  && Marked(m, LeastIndex(left))
                  && forall j: nat | i < j < LeastIndex(left) :: !Marked(m, j))
  {
    var left := MarksAbove(m, i);
    forall j: nat | j < 32
      ensures Marked(left, j) <==> i < j && Marked(m, j)
    {
      MarksAboveAt(m, i, j);
    }
    NoMarks(left);
    if left != 0 {
      LeastIndexIsLeast(left);
    }
  }

  // ---- The small-request tests of dlmalloc, on `smallbits = smallmap >> idx` ----

  /** `smallbits & 3`: is this bin or the next one marked? */
  lemma {:induction false} NearMarks(m: BinMap, i: nat)
    requires i < 32
    ensures And(Shr(m, i), 3) != 0 <==> Marked(m, i) || (i + 1 < 32 && Marked(m, i + 1))
    ensures Shr(m, i) % 2 == 1 <==> Marked(m, i)
  {
    AndThree(Shr(m, i));
    ShrShr(m, i, 1);
    assert Shr(Shr(m, i), 1) == Shr(m, i) / 2;
    MarkedIsBit(m, i);
    if i + 1 < 32 {
      MarkedIsBit(m, i + 1);
    } else {
      assert Pow2(32) == WORD by { Pow2Table(); }
      ShrOfRange(m, 32, 0);
    }
  }

  lemma {:induction false} ShiftedBackBit(m: BinMap, i: nat, j: nat)
    requires i < 32 && j < 32
    ensures i < j ==> Bit(Shl(Shr(m, i), i), j) == Bit(m, j)
  {
    if i < j {
      ShlBit(Shr(m, i), i, j);
      ShrShr(m, i, j - i);
    }
  }

  /** `(smallbits << idx) & left_bits(idx2bit(idx))` is the map masked to the marks above `idx`. */
  lemma {:induction false} ShiftedBackMarks(m: BinMap, i: nat)
    requires i < 32
    ensures 2 * Pow2(i) <= WORD
    ensures And(Shl(Shr(m, i), i), LeftBits(Idx2Bit(i))) == MarksAbove(m, i)
  {
    PowerFits(i);
    var x, y := And(Shl(Shr(m, i), i), LeftBits(Idx2Bit(i))), MarksAbove(m, i);
    forall j | 0 <= j < 32
      ensures Bit(x, j) == Bit(y, j)
    {
      ShiftedBackBit(m, i, j);
      AndBit(Shl(Shr(m, i), i), LeftBits(Idx2Bit(i)), j);
      AndBit(m, LeftBits(Idx2Bit(i)), j);
      LeftBitsAt(i, j);
    }
    assert Pow2(32) == WORD by { Pow2Table(); }
    SameBits(x, y, 32);
  }

  /** A shifted map that is not zero, but has neither of its two low marks, has one further up. */
  lemma {:induction false} FarMarks(m: BinMap, i: nat)
    requires i < 32
    ensures Shr(m, i) == 0 <==> forall j: nat | i <= j < 32 :: !Marked(m, j)
  {
    if Shr(m, i) == 0 {
      forall j: nat | i <= j < 32
        ensures !Marked(m, j)
      {
        MarkedIsBit(m, j);
        ShrShr(m, i, j - i);
        ZeroBit(j - i);
      }
    } else {
      FirstBitIsFirst(Shr(m, i), 0);
      var k := FirstBit(Shr(m, i));
      ShrShr(m, i, k);
      if i + k >= 32 {
        assert Pow2(32) == WORD by { Pow2Table(); }
        ShrOfRange(m, 32, 0);
        ShrShr(m, 32, i + k - 32);
        ZeroBit(i + k - 32);
        assert false;
      }
      MarkedIsBit(m, i + k);
    }
  }

  lemma {:induction false} NotLow(x: nat)
    requires x < WORD
    ensures And(Not(x), 1) == 1 - x % 2
  {
    AndOne(Not(x));
  }

  /** A word that is not exhausted by `idx` has a mark from `idx` on. */
  lemma {:induction false} SomeMark(m: BinMap, idx: nat) returns (j: nat)
    requires idx < 32 && Shr(m, idx) != 0
    ensures idx <= j < 32 && Marked(m, j)
  {
    FarMarks(m, idx);
    j :| idx <= j < 32 && Marked(m, j);
  }

  lemma {:induction false} FarLeast(m: BinMap, idx: nat)
    requires idx < 32 && !Marked(m, idx) && (idx + 1 < 32 ==> !Marked(m, idx + 1)) && Shr(m, idx) != 0
    ensures MarksAbove(m, idx) != 0
    ensures var i := LeastIndex(MarksAbove(m, idx));
            idx + 2 <= i < 32 && Marked(m, i) && forall j: nat | idx <= j < i :: !Marked(m, j)
  {
    var j := SomeMark(m, idx);
    LeastIndexAbove(m, idx);
  }

  /** The remainderless choice: bin `idx` if marked, else the next one if marked. */
  method FitBin(m: BinMap, idx: nat) returns (found: bool, i: nat)
    requires idx < 32
    ensures found <==> Marked(m, idx) || (idx + 1 < 32 && Marked(m, idx + 1))
    ensures found ==> i < 32 && Marked(m, i) && i == if Marked(m, idx) then idx else idx + 1
  {
    var smallbits := Shr(m, idx);
    NearMarks(m, idx);
    found := And(smallbits, 3) != 0;
    NotLow(smallbits);
    i := idx + And(Not(smallbits), 1);
  }

  /** The first marked bin from `idx` on, known to be neither `idx` nor the next one. */
  method NextBin(m: BinMap, idx: nat) returns (found: bool, i: nat)
    requires idx < 32 && !Marked(m, idx) && (idx + 1 < 32 ==> !Marked(m, idx + 1))
    ensures !found ==> forall j: nat | idx <= j < 32 :: !Marked(m, j)
    ensures found ==> idx + 2 <= i < 32 && Marked(m, i) && forall j: nat | idx <= j < i :: !Marked(m, j)
  {
    var smallbits := Shr(m, idx);
    FarMarks(m, idx);
    found, i := smallbits != 0, 0;
    if found {
      ShiftedBackMarks(m, idx);
      FarLeast(m, idx);
      var left := And(Shl(smallbits, idx), LeftBits(Idx2Bit(idx)));
      i := LeastIndex(left);
    }
  }
}
