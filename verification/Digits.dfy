/** Binary digits of a number, most significant first: the paths of the size tries. */
module Digits {
  import opened Words

  /** A path from the root of a trie, its last step outermost. */
  datatype Path = Root | Down(up: Path, digit: bool)

  ghost function Depth(p: Path): nat {
    match p
    case Root => 0
    case Down(up, _) => 1 + Depth(up)
  }

  /** `p` lies on the way from the root to `q`, or is `q`. */
  ghost predicate Under(q: Path, p: Path) {
    q == p || (q.Down? && Under(q.up, p))
  }

  lemma {:induction false} UnderDepth(q: Path, p: Path)
    requires Under(q, p)
    ensures Depth(p) <= Depth(q)
    ensures Depth(p) == Depth(q) ==> p == q
  {
    if q != p { UnderDepth(q.up, p); }
  }

  lemma {:induction false} UnderTransitive(r: Path, q: Path, p: Path)
    requires Under(r, q) && Under(q, p)
    ensures Under(r, p)
  {
    if r != q { UnderTransitive(r.up, q, p); }
  }

  lemma {:induction false} UnderRoot(q: Path)
    ensures Under(q, Root)
  {
    if q.Down? { UnderRoot(q.up); }
  }

  /** Two stops on the way to one path are ordered by depth. */
  lemma {:induction false} SameWay(q: Path, a: Path, b: Path)
    requires Under(q, a) && Under(q, b) && Depth(a) <= Depth(b)
    ensures Under(b, a)
  {
    if q == b {
    } else if q == a {
      UnderDepth(q, b);
    } else {
      SameWay(q.up, a, b);
    }
  }

  /** The step to take at `p` on the way to `q`. */
  ghost function StepTo(q: Path, p: Path): (b: bool)
    requires Under(q, p) && q != p
    ensures Under(q, Down(p, b))
  {
    if q.up == p then q.digit else StepTo(q.up, p)
  }

  lemma StepUnique(q: Path, p: Path, b: bool)
    requires Under(q, Down(p, b))
    ensures Under(q, p) && q != p && StepTo(q, p) == b
  {
    UnderTransitive(q, Down(p, b), p);
    UnderDepth(q, Down(p, b));
    var c := StepTo(q, p);
    SameWay(q, Down(p, b), Down(p, c));
    UnderDepth(Down(p, c), Down(p, b));
  }

  /** Two paths, neither on the way to the other, part at some stop. */
  lemma {:induction false} Parting(a: Path, b: Path) returns (c: Path, d: bool)
    requires !Under(a, b) && !Under(b, a)
    ensures Under(a, Down(c, d)) && Under(b, Down(c, !d))
    decreases a
  {
    if a == Root {
      UnderRoot(b);
      assert false;
    }
    if Under(b, a.up) {
      c := a.up;
      d := a.digit;
      var e := StepTo(b, c);
      assert e != d;
    } else {
      assert Under(a.up, b) ==> Under(a, b);
      c, d := Parting(a.up, b);
      UnderTransitive(a, a.up, Down(c, d));
    }
  }

  // ---- Numbers as paths ----

  /** The `n` low binary digits of `x`. */
  ghost function Bits(x: nat, n: nat): Path {
    if n == 0 then Root else Down(Bits(x / 2, n - 1), x % 2 == 1)
  }

  lemma {:induction false} BitsDepth(x: nat, n: nat)
    ensures Depth(Bits(x, n)) == n
  {
    if n > 0 { BitsDepth(x / 2, n - 1); }
  }

  lemma {:induction false} BitsStep(x: nat, n: nat, p: Path)
    requires Under(Bits(x, n), p) && Bits(x, n) != p
    ensures Depth(p) < n && StepTo(Bits(x, n), p) == Bit(x, n - 1 - Depth(p))
  {
    BitsDepth(x, n);
    UnderDepth(Bits(x, n), p);
    if Bits(x / 2, n - 1) == p {
      BitsDepth(x / 2, n - 1);
    } else {
      BitsStep(x / 2, n - 1, p);
    }
  }

  /** Numbers that agree above the low `n` digits are told apart by those digits. */
  lemma {:induction false} BitsInjective(x: nat, y: nat, n: nat)
    requires Shr(x, n) == Shr(y, n) && Bits(x, n) == Bits(y, n)
    ensures x == y
  {
    if n > 0 { BitsInjective(x / 2, y / 2, n - 1); }
  }

  /** The first digit in which two such numbers differ decides their order. */
  lemma {:induction false} BitsOrder(x: nat, y: nat, n: nat, q: Path)
    requires Shr(x, n) == Shr(y, n)
    requires Under(Bits(x, n), Down(q, false)) && Under(Bits(y, n), Down(q, true))
    ensures x < y
  {
    var bx, by_ := Bits(x, n), Bits(y, n);
    if bx == Down(q, false) {
      BitsDepth(x, n);
      BitsDepth(y, n);
      UnderDepth(by_, Down(q, true));
      BitsInjective(x / 2, y / 2, n - 1);
    } else if by_ == Down(q, true) {
      BitsDepth(x, n);
      BitsDepth(y, n);
      UnderDepth(bx, Down(q, false));
    } else {
      BitsOrder(x / 2, y / 2, n - 1, q);
    }
  }
}
