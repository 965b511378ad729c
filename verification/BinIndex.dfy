/** Selecting a tree bin: the branch-free index computation, bin bounds, and key digits. */
module BinIndex {
  import opened Words
  import opened Digits

  const NTREEBINS: nat := 32

  // ---- compute_tree_index ----

  /** One stage of the search: the bits by which `y`, if below `c`, is to be moved up. */
  function StageShift(y: nat, c: nat, b: nat): nat
    requires y < WORD && c < WORD
  {
    And(Shr(Sub(y, c), 16), b)
  }

  /** The shift-and-mask search for the highest set bit of a 16-bit value. */
  function TopBit(x: nat): int
    requires x < WORD
  {
    var n0 := StageShift(x, 0x100, 8);
    var y1 := Shl(x, n0);
    var k1 := StageShift(y1, 0x1000, 4);
    var y2 := Shl(y1, k1);
    var k2 := StageShift(y2, 0x4000, 2);
    var y3 := Shl(y2, k2);
    14 - (n0 + k1 + k2) + Shr(y3, 15)
  }

  lemma {:induction false} StageShiftIs(y: nat, c: nat, j: nat)
    requires 0 < y <= 0xFFFF && 0 < c <= 0x10000 && j < 16
    ensures StageShift(y, c, Pow2(j)) == if y < c then Pow2(j) else 0
  {
    var v := Shr(Sub(y, c), 16);
    ShrSixteen(Sub(y, c));
    AndPow2(v, j);
    if y < c {
      assert v == Pow2(16) - 1 by { Pow2Table(); }
      MersenneBit(16, j);
    } else {
      assert v == 0;
      ZeroBit(j);
    }
  }

  lemma {:induction false} ShlTwo(x: nat)
    requires x <= 0xFFFFFF
    ensures Shl(x, 2) == 4 * x
  {
    assert Shl(x, 2) == Shl(2 * x, 1) == Shl(4 * x, 0);
  }

  lemma {:induction false} ShlShl(x: nat, a: nat, b: nat)
    requires x < WORD
    ensures Shl(Shl(x, a), b) == Shl(x, a + b)
    decreases a
  {
    if a > 0 {
      ShlShl(Double(x), a - 1, b);
    }
  }

  lemma {:induction false} ShlFour(x: nat)
    requires x <= 0xFFFF
    ensures Shl(x, 4) == 16 * x
  {
    ShlTwo(x);
    ShlTwo(4 * x);
    ShlShl(x, 2, 2);
  }

  lemma {:induction false} ShlEight(x: nat)
    requires x <= 0xFFF
    ensures Shl(x, 8) == 256 * x
  {
    ShlFour(x);
    ShlFour(16 * x);
    ShlShl(x, 4, 4);
  }

  lemma {:induction false} FirstStage(x: nat)
    requires 0 < x <= 0xFFFF
    ensures StageShift(x, 0x100, 8) == if x < 0x100 then 8 else 0
    ensures Shl(x, StageShift(x, 0x100, 8)) == if x < 0x100 then 256 * x else x
  {
    assert Pow2(3) == 8;
    StageShiftIs(x, 0x100, 3);
    if x < 0x100 { ShlEight(x); }
  }

  lemma {:induction false} SecondStage(x: nat)
    requires 0 < x <= 0xFFFF
    ensures StageShift(x, 0x1000, 4) == if x < 0x1000 then 4 else 0
    ensures Shl(x, StageShift(x, 0x1000, 4)) == if x < 0x1000 then 16 * x else x
  {
    assert Pow2(2) == 4;
    StageShiftIs(x, 0x1000, 2);
    if x < 0x1000 { ShlFour(x); }
  }

  lemma {:induction false} ThirdStage(x: nat)
    requires 0 < x <= 0xFFFF
    ensures StageShift(x, 0x4000, 2) == if x < 0x4000 then 2 else 0
    ensures Shl(x, StageShift(x, 0x4000, 2)) == if x < 0x4000 then 4 * x else x
  {
    assert Pow2(1) == 2;
    StageShiftIs(x, 0x4000, 1);
    if x < 0x4000 { ShlTwo(x); }
  }

  lemma {:induction false} TopBitByRange(x: nat, n: nat, f: nat, y: nat)
    requires 0 < x <= 0xFFFF && 0x4000 <= y <= 0xFFFF && y == f * x
    requires (n == 0 && f == 1) || (n == 2 && f == 4) || (n == 4 && f == 16) || (n == 6 && f == 64)
          || (n == 8 && f == 256) || (n == 10 && f == 1024) || (n == 12 && f == 4096) || (n == 14 && f == 16384)
    ensures var k := 14 - n + Shr(y, 15); 0 <= k <= 15 && Pow2(k) <= x < 2 * Pow2(k)
  {
    Pow2Table();
    ShrFifteen(y);
    assert Shr(y, 15) == if y < 0x8000 then 0 else 1;
  }

  function MovedUp(y: nat, c: nat, b: nat): nat {
    if y < c then b * y else y
  }

  /** What the three stages compute, by comparison instead of masking. */
  function StagedLog(x: nat): int {
    var y1 := MovedUp(x, 0x100, 256);
    var y2 := MovedUp(y1, 0x1000, 16);
    var y3 := MovedUp(y2, 0x4000, 4);
    14 - ((if x < 0x100 then 8 else 0) + (if y1 < 0x1000 then 4 else 0) + (if y2 < 0x4000 then 2 else 0))
      + Shr(y3, 15)
  }

  lemma {:induction false} TopBitStages(x: nat)
    requires 0 < x <= 0xFFFF
    ensures TopBit(x) == StagedLog(x)
  {
    FirstStage(x);
    SecondStage(MovedUp(x, 0x100, 256));
    ThirdStage(MovedUp(MovedUp(x, 0x100, 256), 0x1000, 16));
  }

  lemma {:induction false} StagedLogIsLog(x: nat)
    requires 0 < x <= 0xFFFF
    ensures 0 <= StagedLog(x) <= 15
    ensures Pow2(StagedLog(x)) <= x < 2 * Pow2(StagedLog(x))
  {
    var y1 := MovedUp(x, 0x100, 256);
    var y2 := MovedUp(y1, 0x1000, 16);
    var y3 := MovedUp(y2, 0x4000, 4);
    var n, f := 0, 1;
    if x < 0x100 { n, f := 8, 256; }
    if y1 < 0x1000 { n, f := n + 4, if n == 0 then 16 else 4096; }
    if y2 < 0x4000 { n, f := n + 2, 4 * f; }
    TopBitByRange(x, n, f, y3);
  }

  lemma {:induction false} TopBitIsLog(x: nat)
    requires 0 < x <= 0xFFFF
    ensures 0 <= TopBit(x) <= 15
    ensures Pow2(TopBit(x)) <= x < 2 * Pow2(TopBit(x))
  {
    TopBitStages(x);
    StagedLogIsLog(x);
  }

  /** Two bins per power of two: the digit below the highest one selects between them. */
  function IndexAt(s: nat, k: nat): nat {
    2 * k + And(Shr(s, k + 7), 1)
  }

  /** `compute_tree_index`, portable form. */
  function TreeIndex(s: nat): nat
    requires s < WORD
  {
    var x := Shr(s, 8);
    if x == 0 then 0
    else if x > 0xFFFF then NTREEBINS - 1
    else
      TopBitIsLog(x);
      IndexAt(s, TopBit(x))
  }

  /** `minsize_for_tree_index`. */
  function MinSize(i: nat): nat {
    Pow2(i / 2 + 8) + (if i % 2 == 1 then Pow2(i / 2 + 7) else 0)
  }

  /** `s` lies between the bounds of tree bin `i`; the last bin is open-ended. */
  ghost predicate InBin(i: nat, s: nat) {
    && i < NTREEBINS
    && MinSize(i) <= s < WORD
    && (i < NTREEBINS - 1 ==> s < MinSize(i + 1))
  }

  lemma {:induction false} MinSizeSteps(k: nat)
    ensures MinSize(2 * k) == 2 * Pow2(k + 7)
    ensures MinSize(2 * k + 1) == 3 * Pow2(k + 7)
    ensures MinSize(2 * k + 2) == 4 * Pow2(k + 7)
  {
    assert Pow2(k + 8) == 2 * Pow2(k + 7);
    assert Pow2(k + 9) == 4 * Pow2(k + 7);
    assert (2 * k + 1) / 2 == k && (2 * k + 2) / 2 == k + 1;
  }

  lemma {:induction false} SizeOfTop(s: nat, k: nat, j: nat)
    requires Pow2(k) <= Shr(s, j) < 2 * Pow2(k)
    ensures Pow2(k + j) <= s < 2 * Pow2(k + j)
    decreases j
  {
    if j > 0 {
      SizeOfTop(s / 2, k, j - 1);
    }
  }

  lemma {:induction false} IndexFromTopBit(s: nat, k: nat)
    requires s < WORD && k <= 15 && Pow2(k) <= Shr(s, 8) < 2 * Pow2(k)
    ensures InBin(IndexAt(s, k), s)
  {
    SizeOfTop(s, k, 8);
    var h := Pow2(k + 7);
    assert Pow2(k + 8) == 2 * h;
    var c := if s < 3 * h then 2 else 3;
    ShrOfRange(s, k + 7, c);
    AndOne(c);
    HalfOfPower(s, k, c);
  }

  lemma {:induction false} HalfOfPower(s: nat, k: nat, c: nat)
    requires s < WORD && k <= 15 && 2 <= c <= 3 && c * Pow2(k + 7) <= s < (c + 1) * Pow2(k + 7)
    ensures InBin(2 * k + c % 2, s)
  {
    MinSizeSteps(k);
    if c == 2 {
      assert InBin(2 * k, s);
    } else {
      assert InBin(2 * k + 1, s);
    }
  }

  /** The computed index brackets every large size between consecutive bin minima. */
  lemma {:induction false} TreeIndexBrackets(s: nat)
    requires 256 <= s < WORD
    ensures InBin(TreeIndex(s), s)
  {
    var x := Shr(s, 8);
    assert x == s / 256 by { ShrEight(s); }
    if x <= 0xFFFF {
      TopBitIsLog(x);
      var k := TopBit(x);
      assert TreeIndex(s) == IndexAt(s, k);
      IndexFromTopBit(s, k);
    } else {
      LastBin(s);
    }
  }

  lemma {:induction false} LastBin(s: nat)
    requires 0x1000000 <= s < WORD
    ensures InBin(NTREEBINS - 1, s)
  {
    Pow2Table();
    assert MinSize(31) == 0xC00000;
  }

  lemma {:induction false} MinSizeMonotone(i: nat, j: nat)
    requires i < j
    ensures MinSize(i) < MinSize(j)
    decreases j
  {
    var k := (j - 1) / 2;
    MinSizeSteps(k);
    assert j == 2 * k + 1 || j == 2 * k + 2;
    if i < j - 1 {
      MinSizeMonotone(i, j - 1);
    }
  }

  /** Every size in a lower bin is smaller than every size in a higher bin. */
  lemma {:induction false} BinOrder(i: nat, j: nat, s: nat, t: nat)
    requires InBin(i, s) && InBin(j, t) && i < j
    ensures s < t
  {
    if i + 1 < j {
      MinSizeMonotone(i + 1, j);
    }
  }

  /** The brackets determine the index, so the branch-free form equals a linear scan of the bounds. */
  lemma {:induction false} TreeIndexUnique(i: nat, s: nat)
    requires 256 <= s < WORD
    ensures InBin(i, s) <==> i == TreeIndex(s)
  {
    TreeIndexBrackets(s);
    var j := TreeIndex(s);
    if InBin(i, s) {
      if i < j { BinOrder(i, j, s, s); }
      if j < i { BinOrder(j, i, s, s); }
    }
  }

  // ---- The digits that tell the sizes of one bin apart ----

  /** How many digits distinguish the sizes of bin `i`, the low three being always zero. */
  function KeyLen(i: nat): nat {
    if i == NTREEBINS - 1 then 29 else i / 2 + 4
  }

  /** `leftshift_for_tree_index`. */
  function LeftShift(i: nat): nat
    requires i < NTREEBINS
  {
    if i == NTREEBINS - 1 then 0 else 31 - (i / 2 + 6)
  }

  /** The path along which a size is filed in bin `i`. */
  ghost function Key(i: nat, s: nat): Path {
    Bits(Shr(s, 3), KeyLen(i))
  }

  /** Shifting the size left once per level presents the next step in the sign bit. */
  lemma {:induction false} KeyStep(i: nat, s: nat, p: Path)
    requires i < NTREEBINS && s < WORD && Under(Key(i, s), p) && Key(i, s) != p
    ensures Depth(p) < KeyLen(i)
    ensures (Shl(s, LeftShift(i) + Depth(p)) / 0x8000_0000 == 1) == StepTo(Key(i, s), p)
  {
    var n := KeyLen(i);
    BitsStep(Shr(s, 3), n, p);
    ShrShr(s, 3, n - 1 - Depth(p));
    ShiftedTopBit(s, n + 2 - Depth(p));
  }

  lemma {:induction false} SameAboveKey(i: nat, s: nat, t: nat)
    requires InBin(i, s) && InBin(i, t)
    ensures Shr(Shr(s, 3), KeyLen(i)) == Shr(Shr(t, 3), KeyLen(i))
  {
    var n := KeyLen(i);
    ShrShr(s, 3, n);
    ShrShr(t, 3, n);
    AboveKey(i, s);
    AboveKey(i, t);
  }

  lemma {:induction false} AboveKey(i: nat, s: nat)
    requires InBin(i, s)
    ensures Shr(s, KeyLen(i) + 3) == if i == NTREEBINS - 1 then 0 else 2 + i % 2
  {
    if i < NTREEBINS - 1 {
      AboveKeyBelowLast(s, i / 2, i % 2);
    } else {
      assert Pow2(32) == WORD by { Pow2Table(); }
      ShrOfRange(s, 32, 0);
    }
  }

  lemma {:induction false} AboveKeyBelowLast(s: nat, k: nat, d: nat)
    requires d < 2 && MinSize(2 * k + d) <= s < MinSize(2 * k + d + 1)
    ensures Shr(s, k + 7) == 2 + d
  {
    MinSizeSteps(k);
    if d == 0 {
      ShrOfRange(s, k + 7, 2);
    } else {
      ShrOfRange(s, k + 7, 3);
    }
  }

  lemma {:induction false} KeyInjective(i: nat, s: nat, t: nat)
    requires InBin(i, s) && InBin(i, t) && s % 8 == 0 && t % 8 == 0
    requires Key(i, s) == Key(i, t)
    ensures s == t
  {
    SameAboveKey(i, s, t);
    BitsInjective(Shr(s, 3), Shr(t, 3), KeyLen(i));
    ShrSteps(s);
    ShrSteps(t);
  }

  /** Within a bin, the first differing key digit decides the order of two sizes. */
  lemma {:induction false} KeyOrder(i: nat, s: nat, t: nat, q: Path)
    requires InBin(i, s) && InBin(i, t)
    requires Under(Key(i, s), Down(q, false)) && Under(Key(i, t), Down(q, true))
    ensures s < t
  {
    SameAboveKey(i, s, t);
    BitsOrder(Shr(s, 3), Shr(t, 3), KeyLen(i), q);
    ShrSteps(s);
    ShrSteps(t);
  }
}
