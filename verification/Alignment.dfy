/** Alignments of `internal_memalign`: rounding to a power of two, and rounding an address up. */
module Alignment {
  import opened Words

  const MAX_POWER: nat := 0x8000_0000

  /** The first of `a`, `2a`, `4a`, ... that is at least `x`. */
  function RoundUp(a: nat, x: nat): (r: nat)
    requires a > 0
    ensures r >= x && r >= a
    decreases x - a
  {
    if a >= x then a else RoundUp(2 * a, x)
  }

  /** Rounding up from a power of two gives the least power of two, from there on, that is large enough. */
  lemma {:induction false} RoundUpLeast(j: nat, x: nat) returns (k: nat)
    ensures k >= j && RoundUp(Pow2(j), x) == Pow2(k) >= x && (k > j ==> Pow2(k - 1) < x)
    decreases x - Pow2(j)
  {
    if Pow2(j) >= x {
      k := j;
    } else {
      assert Pow2(j + 1) == 2 * Pow2(j);
      k := RoundUpLeast(j + 1, x);
    }
  }

  lemma {:induction false} RoundUpFixed(j: nat, k: nat)
    requires j <= k
    ensures RoundUp(Pow2(j), Pow2(k)) == Pow2(k)
    decreases k - j
  {
    if j < k {
      Pow2Increases(j, k);
      assert Pow2(j + 1) == 2 * Pow2(j);
      RoundUpFixed(j + 1, k);
    }
  }

  lemma {:induction false} AndSelf(x: nat)
    ensures And(x, x) == x
    decreases x
  {
    if x > 0 { AndSelf(x / 2); }
  }

  /** `(x & (x - 1)) == 0` only for powers of two. */
  lemma {:induction false} PowerTest(x: nat) returns (k: nat)
    requires x > 0
    ensures And(x, x - 1) == 0 ==> x == Pow2(k)
    decreases x
  {
    k := 0;
    if x % 2 == 1 {
      AndSelf(x / 2);
      assert x > 1 ==> And(x, x - 1) == 2 * And(x / 2, x / 2);
    } else {
      k := PowerTest(x / 2);
      assert And(x, x - 1) == 2 * And(x / 2, x / 2 - 1);
      k := k + 1;
    }
  }

  lemma {:induction false} PowerPasses(k: nat)
    ensures And(Pow2(k), Pow2(k) - 1) == 0
  {
    if k > 0 {
      PowerPasses(k - 1);
      var h := Pow2(k - 1);
      assert And(2 * h, 2 * h - 1) == 2 * And(h, h - 1);
    }
  }

  /** The value of `a` after `k` rounds of `a <<= 1` on a 32-bit word. */
  function Shifted(k: nat): (a: nat)
    ensures a < WORD
  {
    if k == 0 then 16 else Double(Shifted(k - 1))
  }

  lemma {:induction false} ShiftedIs(k: nat)
    ensures Shifted(k) == if k <= 27 then Pow2(k + 4) else 0
    ensures k <= 27 ==> Pow2(k + 4) <= MAX_POWER
  {
    Pow2Table();
    if k > 0 {
      ShiftedIs(k - 1);
      if k <= 27 {
        assert Pow2(k + 4) == 2 * Pow2(k + 3);
        if k < 27 { Pow2Increases(k + 4, 31); }
      } else if k == 28 {
        assert Shifted(27) == Pow2(31) == MAX_POWER;
      }
    }
  }

  /** The loop that rounds `alignment` up ends if and only if `alignment` is at most the largest 32-bit power of two. */
  lemma {:induction false} RoundingEnds(alignment: nat)
    requires 16 < alignment
    ensures (exists k: nat :: Shifted(k) >= alignment) <==> alignment <= MAX_POWER
  {
    if alignment <= MAX_POWER {
      ShiftedIs(27);
      Pow2Table();
      assert Shifted(27) >= alignment;
    } else {
      forall k: nat
        ensures Shifted(k) < alignment
      {
        ShiftedIs(k);
      }
    }
  }

  /** Beyond that, the loop is always entered. */
  lemma {:induction false} LargeIsNoPower(alignment: nat)
    requires MAX_POWER < alignment < WORD
    ensures And(alignment, alignment - 1) != 0
  {
    var k := PowerTest(alignment);
    Pow2Table();
    if k < 31 { Pow2Increases(k, 31); }
    if k > 32 { Pow2Increases(32, k); }
  }

  /** The alignment actually used: the least power of two from 16 on that is at least `alignment`. */
  method PowerOfTwo(alignment: nat) returns (a: nat)
    requires 16 <= alignment <= MAX_POWER
    ensures a == RoundUp(16, alignment) <= MAX_POWER
  {
    Pow2Table();
    if And(alignment, alignment - 1) != 0 {
      a := 16;
      ghost var k := 4;
      while a < alignment
        invariant 4 <= k <= 31 && a == Pow2(k) <= MAX_POWER && RoundUp(16, alignment) == RoundUp(a, alignment)
        decreases 31 - k
      {
        if k < 31 { Pow2Increases(k, 31); }
        assert Pow2(k + 1) == 2 * Pow2(k);
        if k < 30 { Pow2Increases(k + 1, 31); }
        a := Double(a);
        k := k + 1;
      }
    } else {
      a := alignment;
      ghost var k := PowerTest(alignment);
      if k < 4 { Pow2Increases(k, 4); }
      RoundUpFixed(4, k);
    }
  }

  // ---- Rounding an address ----

  /** The last `k` bits of `x`. */
  function Low(x: nat, k: nat): (r: nat)
    ensures r < Pow2(k) && r <= x
  {
    if k == 0 then 0 else x % 2 + 2 * Low(x / 2, k - 1)
  }

  lemma {:induction false} LowIsRemainder(x: nat, k: nat)
    ensures Low(x, k) == x % Pow2(k)
    decreases k
  {
    if k > 0 {
      LowIsRemainder(x / 2, k - 1);
      TwiceRemainder(x, Pow2(k - 1));
    }
  }

  lemma {:induction false} TwiceRemainder(x: nat, p: nat)
    requires p > 0
    ensures x % (2 * p) == x % 2 + 2 * (x / 2 % p)
  {
    var h := x / 2;
    var q, r := h / p, h % p;
    Division(h, p);
    Twice(x, h, p, q, r);
    Remainder(x, 2 * p, q, x % 2 + 2 * r);
  }

  lemma {:induction false} Division(h: nat, p: nat)
    requires p > 0
    ensures h == p * (h / p) + h % p && h % p < p
  {
  }

  lemma {:induction false} Twice(x: nat, h: nat, p: nat, q: nat, r: nat)
    requires h == x / 2 && h == p * q + r
    ensures x == q * (2 * p) + (x % 2 + 2 * r)
  {
    assert q * (2 * p) == 2 * (p * q);
  }

  lemma {:induction false} Remainder(x: nat, d: nat, q: nat, r: nat)
    requires r < d && x == q * d + r
    ensures x % d == r
  {
    assert x == d * (x / d) + x % d;
    var e := x / d;
    if q < e { Multiples(q, e, d); }
    if e < q { Multiples(e, q, d); }
  }

  lemma {:induction false} Multiples(a: nat, b: nat, d: nat)
    requires a < b
    ensures a * d + d <= b * d
    decreases b
  {
    assert b * d == (b - 1) * d + d;
    if a < b - 1 { Multiples(a, b - 1, d); }
  }

  /** `x & -2^k` on a `w`-bit word clears the last `k` bits. */
  lemma {:induction false} Masked(x: nat, k: nat, w: nat)
    requires k <= w && x < Pow2(w)
    ensures Pow2(k) <= Pow2(w) && And(x, Pow2(w) - Pow2(k)) == x - Low(x, k)
    decreases w
  {
    if k == 0 {
      AllOnes(x, w);
    } else {
      Masked(x / 2, k - 1, w - 1);
      var y := Pow2(w - 1) - Pow2(k - 1);
      assert 2 * y == Pow2(w) - Pow2(k);
      AndHalf(x, 2 * y);
    }
  }

  lemma {:induction false} AllOnes(x: nat, w: nat)
    requires x < Pow2(w)
    ensures And(x, Pow2(w) - 1) == x
    decreases w
  {
    if w > 0 {
      AllOnes(x / 2, w - 1);
      var p := Pow2(w - 1);
      assert (2 * p - 1) / 2 == p - 1;
      AndHalf(x, 2 * p - 1);
    }
  }

  lemma {:induction false} NextCleared(mem: nat, k: nat)
    requires 3 <= k && Low(mem, k) != 0
    ensures var x := mem + Pow2(k) - 1;
            var r := x - Low(x, k);
            Low(r, k) == 0 && r % 8 == 0 && mem < r < mem + Pow2(k)
  {
    var x := mem + Pow2(k) - 1;
    LowCleared(x, k);
    EightDivides(x - Low(x, k), k);
  }

  /** `(mem + alignment - 1) & -alignment` for a misaligned `mem`. */
  lemma {:induction false} NextAligned(mem: nat, k: nat)
    requires 3 <= k < 32 && mem % Pow2(k) != 0 && mem + Pow2(k) <= WORD && Pow2(k) < WORD
    ensures var r := And(mem + Pow2(k) - 1, Neg(Pow2(k)));
            r % Pow2(k) == 0 && r % 8 == 0 && mem < r < mem + Pow2(k)
  {
    var x := mem + Pow2(k) - 1;
    MaskedWord(x, k);
    var r := x - Low(x, k);
    assert Low(mem, k) != 0 by { LowIsRemainder(mem, k); }
    NextCleared(mem, k);
    assert r % Pow2(k) == 0 by { LowIsRemainder(r, k); }
  }

  lemma {:induction false} MaskedWord(x: nat, k: nat)
    requires k < 32 && x < WORD && Pow2(k) < WORD
    ensures And(x, Neg(Pow2(k))) == x - Low(x, k)
  {
    assert Pow2(32) == WORD by { Pow2Table(); }
    Masked(x, k, 32);
  }

  lemma {:induction false} LowCleared(x: nat, k: nat)
    ensures Low(x - Low(x, k), k) == 0
    decreases k
  {
    if k > 0 {
      LowCleared(x / 2, k - 1);
      assert x - Low(x, k) == 2 * (x / 2 - Low(x / 2, k - 1));
    }
  }

  lemma {:induction false} EightDivides(r: nat, k: nat)
    requires 3 <= k && Low(r, k) == 0
    ensures r % 8 == 0
  {
    assert Low(r / 2, k - 1) == 0 && r % 2 == 0;
    assert Low(r / 4, k - 2) == 0 && r / 2 % 2 == 0;
    assert r / 4 % 2 == 0;
  }

  lemma {:induction false} PowerByEight(k: nat) returns (q: nat)
    requires 4 <= k
    ensures Pow2(k) == 8 * q >= 16
  {
    q := Pow2(k - 3);
    assert Pow2(k - 1) == 2 * Pow2(k - 2) && Pow2(k - 2) == 2 * q && q == 2 * Pow2(k - 4);
  }

  /** Moving an aligned address on by the alignment. */
  lemma {:induction false} StillAligned(r: nat, a: nat)
    requires a > 0 && r % a == 0
    ensures (r + a) % a == 0
  {
    assert r == a * (r / a);
    assert (r / a + 1) * a == a * (r / a) + a;
    Remainder(r + a, a, r / a + 1, 0);
  }

  /** From `mem` to the aligned spot `r` behind it, or the next one if that leaves no room for a chunk. */
  function Lead(mem: nat, r: nat, a: nat): (n: nat)
    requires mem < r
  {
    if r - mem >= 16 then r - mem else r - mem + a
  }

  lemma {:induction false} LeadBounds(mem: nat, r: nat, a: nat, q: nat)
    requires mem < r < mem + a && mem % 8 == 0 && r % 8 == 0 && a == 8 * q >= 16
    ensures 16 <= Lead(mem, r, a) <= a + 8 && Lead(mem, r, a) % 8 == 0
  {
  }

  lemma {:induction false} LeadFits(mem: nat, k: nat)
    requires 4 <= k < 32 && mem % 8 == 0 && mem % Pow2(k) != 0 && mem + Pow2(k) <= WORD && Pow2(k) < WORD
    ensures var r := And(mem + Pow2(k) - 1, Neg(Pow2(k)));
            && mem < r
            && var n := Lead(mem, r, Pow2(k)); 16 <= n <= Pow2(k) + 8 && n % 8 == 0 && (mem + n) % Pow2(k) == 0
  {
    NextAligned(mem, k);
    var a := Pow2(k);
    var r := And(mem + a - 1, Neg(a));
    var q := PowerByEight(k);
    LeadBounds(mem, r, a, q);
    if r - mem < 16 { StillAligned(r, a); }
    assert mem + Lead(mem, r, a) == if r - mem >= 16 then r else r + a;
  }
}
