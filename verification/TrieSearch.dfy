/** Best-fit search inside one tree bin. */
module TrieSearch {
  import opened Words
  import opened Digits
  import opened BinIndex
  import opened Rings
  import opened Trie

  /** Sizes below the left child of a node are smaller than sizes below its right child. */
  lemma {:induction false} LeftBeforeRight(size: Sizes, i: nat, v: View, c: Path, a: Addr, b: Addr)
    requires Filed(size, i, v) && a in v.at && b in v.at
    requires Under(v.at[a], Down(c, false)) && Under(v.at[b], Down(c, true))
    ensures size[a] < size[b]
  {
    UnderTransitive(Key(i, size[a]), v.at[a], Down(c, false));
    UnderTransitive(Key(i, size[b]), v.at[b], Down(c, true));
    KeyOrder(i, size[a], size[b], c);
  }

  // ---- The leftmost walk ----

  /** `leftmost_child`. */
  function LeftmostChild(n: Node): Addr {
    if n.left != 0 then n.left else n.right
  }

  /** Every chunk below `p0` is below the walk's position, at least as large as the best, or larger than
      the node the walk stands on. */
  ghost predicate LeftWalk(size: Sizes, v: View, p0: Path, p: Path, t: Addr, best: nat)
    requires forall a | a in v.at :: a in size
  {
    && (t != 0 ==> p in v.ring && t == Head(v, p) && Under(p, p0) && t in size)
    && forall a {:trigger v.at[a]} | a in v.at && Under(v.at[a], p0) ::
         || (t != 0 && Under(v.at[a], p))
         || best <= size[a]
         || (t != 0 && size[t] <= size[a])
  }

  lemma {:induction false} SubtreeSplit(size: Sizes, i: nat, v: View, p: Path, a: Addr)
    requires Shape(v) && Filed(size, i, v) && p in v.ring && a in v.at && Under(v.at[a], p)
    ensures Head(v, p) in size
    ensures v.at[a] == p ==> size[a] == size[Head(v, p)]
    ensures v.at[a] != p ==> (Under(v.at[a], Down(p, false)) && Down(p, false) in v.ring)
                             || (Under(v.at[a], Down(p, true)) && Down(p, true) in v.ring)
  {
    HeadFacts(size, i, v, p);
    if v.at[a] != p {
      var b := StepTo(v.at[a], p);
      AncestorsPresent(v, v.at[a], Down(p, b));
    }
  }

  lemma {:induction false} LeftWalkStep(nodes: Nodes, size: Sizes, i: nat, root: Addr, v: View, p0: Path, p: Path, t: Addr, best: nat, best': nat)
    requires Valid(nodes, size, i, root, v) && t != 0 && LeftWalk(size, v, p0, p, t, best)
    requires best' <= best && best' <= size[t]
    ensures t in nodes && Depth(p) <= KeyLen(i)
    ensures var c := LeftmostChild(nodes[t]);
            LeftWalk(size, v, p0, Down(p, nodes[t].left == 0), c, best')
            && (c != 0 ==> Depth(Down(p, nodes[t].left == 0)) <= KeyLen(i))
  {
    NodeWords(nodes, size, i, root, v, p);
    var c := LeftmostChild(nodes[t]);
    var q := Down(p, nodes[t].left == 0);
    if c != 0 {
      NodeWords(nodes, size, i, root, v, q);
      UnderTransitive(q, p, p0);
      HeadFacts(size, i, v, q);
    }
    forall a | a in v.at && Under(v.at[a], p0)
      ensures (c != 0 && Under(v.at[a], q)) || best' <= size[a] || (c != 0 && size[c] <= size[a])
    {
      if Under(v.at[a], p) {
        SubtreeSplit(size, i, v, p, a);
        if v.at[a] != p && Under(v.at[a], Down(p, true)) && nodes[t].left != 0 {
          LeftBeforeRight(size, i, v, p, c, a);
        }
      }
    }
  }

  /** The loop that finds the smallest chunk of a subtree whose sizes are all at least `nb`; after an exact
      fit it changes nothing. */
  method SmallestBelow(nodes: Nodes, size: Sizes, i: nat, root: Addr, nb: nat, t0: Addr, best0: Addr, rsize0: nat,
                       ghost v: View, ghost p0: Path)
    returns (best: Addr, rsize: nat)
    requires Valid(nodes, size, i, root, v) && p0 in v.ring && t0 == Head(v, p0)
    requires nb < WORD
    requires rsize0 > 0 ==> forall a | a in v.at && Under(v.at[a], p0) :: nb <= size[a]
    ensures rsize <= rsize0
    ensures rsize0 > 0 ==> forall a | a in v.at && Under(v.at[a], p0) :: nb + rsize <= size[a]
    ensures rsize == rsize0 ==> best == best0
    ensures rsize < rsize0 ==> best in v.at && size[best] == nb + rsize && IsNode(v, best)
  {
    var t := t0;
    best, rsize := best0, rsize0;
    ghost var p := p0;
    HeadFacts(size, i, v, p0);
    while t != 0
      invariant LeftWalk(size, v, p0, p, t, if rsize0 > 0 then nb + rsize else 0)
      invariant t != 0 ==> Depth(p) <= KeyLen(i)
      invariant rsize <= rsize0
      invariant rsize == rsize0 ==> best == best0
      invariant rsize < rsize0 ==> best in v.at && size[best] == nb + rsize && IsNode(v, best)
      decreases if t != 0 then KeyLen(i) - Depth(p) + 1 else 0
    {
      HeadFacts(size, i, v, p);
      ghost var was := if rsize0 > 0 then nb + rsize else 0;
      var trem := Sub(size[t], nb);
      if trem < rsize {
        rsize := trem;
        best := t;
      }
      LeftWalkStep(nodes, size, i, root, v, p0, p, t, was, if rsize0 > 0 then nb + rsize else 0);
      p := Down(p, nodes[t].left == 0);
      t := LeftmostChild(nodes[t]);
    }
  }

  // ---- The walk towards the requested size ----

  /** At `c` the way to `e` turned left although there is a right subtree. */
  ghost predicate Passed(v: View, e: Path, c: Path) {
    Under(e, Down(c, false)) && Down(c, true) in v.ring
  }

  /** `rst` is the deepest right subtree passed on the way to `e`, hanging at `c`; 0 if none was passed. */
  ghost predicate DeepestPassed(v: View, e: Path, rst: Addr, c: Path) {
    && (rst == 0 ==> forall d :: !Passed(v, e, d))
    && (rst != 0 ==> Passed(v, e, c) && rst == Head(v, Down(c, true)) && forall d | Passed(v, e, d) :: Under(c, d))
  }

  lemma {:induction false} PassedStep(v: View, e: Path, b: bool, d: Path)
    ensures Passed(v, Down(e, b), d) <==> Passed(v, e, d) || (d == e && !b && Down(e, true) in v.ring)
  {
    assert Under(Down(e, b), Down(d, false)) <==> Down(e, b) == Down(d, false) || Under(e, Down(d, false));
  }

  lemma {:induction false} DeepestStep(v: View, e: Path, rst: Addr, c: Path, b: bool, rt: Addr)
    requires Shape(v) && DeepestPassed(v, e, rst, c) && rt == Head(v, Down(e, true))
    ensures !b && rt != 0 ==> DeepestPassed(v, Down(e, b), rt, e)
    ensures b || rt == 0 ==> DeepestPassed(v, Down(e, b), rst, c)
  {
    assert rt != 0 <==> Down(e, true) in v.ring by {
      if Down(e, true) in v.ring { assert v.ring[Down(e, true)][0] in v.at; }
    }
    forall d
      ensures Passed(v, Down(e, b), d) <==> Passed(v, e, d) || (d == e && !b && Down(e, true) in v.ring)
      ensures Passed(v, e, d) ==> Under(e, d)
    {
      PassedStep(v, e, b, d);
      if Passed(v, e, d) { UnderTransitive(e, Down(d, false), d); }
    }
  }

  /** Chunks at stops before `e` have been taken into account in `rsize`. */
  ghost predicate Considered(size: Sizes, v: View, nb: nat, e: Path, rsize: nat)
    requires forall a | a in v.at :: a in size
  {
    forall a {:trigger v.at[a]} | a in v.at && Under(e, v.at[a]) && v.at[a] != e :: size[a] < nb || nb + rsize <= size[a]
  }

  lemma {:induction false} ConsideredStep(size: Sizes, i: nat, v: View, nb: nat, e: Path, b: bool, rsize: nat, rsize': nat)
    requires Shape(v) && Filed(size, i, v) && e in v.ring && Considered(size, v, nb, e, rsize) && rsize' <= rsize
    requires Head(v, e) in size && (size[Head(v, e)] < nb || nb + rsize' <= size[Head(v, e)])
    ensures Considered(size, v, nb, Down(e, b), rsize')
  {
    HeadFacts(size, i, v, e);
    forall a | a in v.at && Under(Down(e, b), v.at[a]) && v.at[a] != Down(e, b)
      ensures size[a] < nb || nb + rsize' <= size[a]
    {
      if v.at[a] == e { assert size[a] == size[Head(v, e)]; }
    }
  }

  /** When the walk has run out, an unconsidered fitting chunk lies below a passed right subtree. */
  lemma {:induction false} MissedChunk(size: Sizes, i: nat, v: View, nb: nat, e: Path, rsize: nat, a: Addr) returns (c: Path)
    requires Shape(v) && Filed(size, i, v) && InBin(i, nb) && Under(Key(i, nb), e) && e !in v.ring
    requires Considered(size, v, nb, e, rsize) && a in v.at && nb <= size[a] < nb + rsize
    ensures Passed(v, e, c) && Under(v.at[a], Down(c, true))
  {
    var q, key := v.at[a], Key(i, nb);
    HeadFacts(size, i, v, q);
    if Under(key, q) {
      if Depth(q) <= Depth(e) {
        SameWay(key, q, e);
        assert false;
      }
      SameWay(key, e, q);
      AncestorsPresent(v, q, e);
      assert false;
    }
    if Under(q, key) {
      UnderDepth(q, key);
      BitsDepth(Shr(nb, 3), KeyLen(i));
      assert false;
    }
    var d;
    c, d := Parting(q, key);
    UnderTransitive(Key(i, size[a]), q, Down(c, d));
    if !d {
      KeyOrder(i, size[a], nb, c);
      assert false;
    }
    AncestorsPresent(v, q, Down(c, true));
    UnderTransitive(key, Down(c, false), c);
    if Depth(e) <= Depth(c) {
      SameWay(key, e, c);
      assert Under(Down(c, true), e);
      AncestorsPresent(v, Down(c, true), e);
      assert false;
    }
    SameWay(key, Down(c, false), e);
  }

  /** Chunks below the deepest passed subtree exceed `nb` and are below every other passed chunk. */
  lemma {:induction false} PassedOrder(size: Sizes, i: nat, v: View, nb: nat, e: Path, c: Path, z: Addr)
    requires Filed(size, i, v) && InBin(i, nb) && Under(Key(i, nb), e)
    requires Passed(v, e, c) && z in v.at && Under(v.at[z], Down(c, true))
    ensures nb < size[z]
  {
    UnderTransitive(Key(i, size[z]), v.at[z], Down(c, true));
    UnderTransitive(Key(i, nb), e, Down(c, false));
    KeyOrder(i, nb, size[z], c);
  }

  lemma {:induction false} ShallowerIsLarger(size: Sizes, i: nat, v: View, e: Path, c: Path, d: Path, z: Addr, a: Addr)
    requires Filed(size, i, v) && Passed(v, e, c) && Passed(v, e, d) && Under(c, d) && c != d
    requires z in v.at && Under(v.at[z], Down(c, true)) && a in v.at && Under(v.at[a], Down(d, true))
    ensures size[z] < size[a]
  {
    UnderTransitive(e, Down(c, false), c);
    var b := StepTo(c, d);
    UnderTransitive(e, c, Down(d, b));
    StepUnique(e, d, b);
    StepUnique(e, d, false);
    UnderTransitive(v.at[z], Down(c, true), c);
    UnderTransitive(v.at[z], c, Down(d, false));
    LeftBeforeRight(size, i, v, d, z, a);
  }

  /** No chunk of the bin that fits beats `rsize`. */
  ghost predicate Best(size: Sizes, v: View, nb: nat, rsize: nat)
    requires forall a | a in v.at :: a in size
  {
    forall a {:trigger v.at[a]} | a in v.at :: size[a] < nb || nb + rsize <= size[a]
  }

  /** What is left after the walk: only chunks below `p`, all larger than `nb`, can beat `rsize`. */
  ghost predicate BestBut(size: Sizes, v: View, nb: nat, rsize: nat, p: Path)
    requires forall a | a in v.at :: a in size
  {
    && p in v.ring && Head(v, p) in size
    && (forall a {:trigger v.at[a]} | a in v.at && Under(v.at[a], p) :: nb < size[a])
    && (forall a {:trigger v.at[a]} | a in v.at ::
          size[a] < nb || nb + rsize <= size[a] || Under(v.at[a], p) || size[Head(v, p)] < size[a])
  }

  lemma {:induction false} WalkedOut(size: Sizes, i: nat, v: View, nb: nat, e: Path, rsize: nat, rst: Addr, c: Path)
    requires Shape(v) && Filed(size, i, v) && InBin(i, nb) && Under(Key(i, nb), e) && e !in v.ring
    requires Considered(size, v, nb, e, rsize) && DeepestPassed(v, e, rst, c)
    ensures rst == 0 ==> Best(size, v, nb, rsize)
    ensures rst != 0 ==> BestBut(size, v, nb, rsize, Down(c, true))
  {
    if rst != 0 {
      HeadFacts(size, i, v, Down(c, true));
      forall z | z in v.at && Under(v.at[z], Down(c, true))
        ensures nb < size[z]
      {
        PassedOrder(size, i, v, nb, e, c, z);
      }
    }
    forall a | a in v.at && nb <= size[a] < nb + rsize
      ensures rst != 0 && (Under(v.at[a], Down(c, true)) || size[Head(v, Down(c, true))] < size[a])
    {
      var d := MissedChunk(size, i, v, nb, e, rsize, a);
      assert Passed(v, e, d);
      if d != c {
        ShallowerIsLarger(size, i, v, e, c, d, Head(v, Down(c, true)), a);
      }
    }
  }

  /** The state of the walk towards `nb`, standing at the node at `e`. */
  ghost predicate Seeking(size: Sizes, i: nat, v: View, nb: nat, e: Path, k: nat, best: Addr, rsize: nat, rst: Addr, c: Path)
    requires i < NTREEBINS && nb < WORD && forall a | a in v.at :: a in size
  {
    && Under(Key(i, nb), e) && k == Shl(nb, LeftShift(i) + Depth(e))
    && Considered(size, v, nb, e, rsize)
    && DeepestPassed(v, e, rst, c)
    && (best == 0 ==> rsize == Neg(nb))
    && (best != 0 ==> best in v.at && size[best] == nb + rsize && rsize < Neg(nb))
  }

  lemma {:induction false} SeekStart(size: Sizes, i: nat, v: View, nb: nat)
    requires Shape(v) && Filed(size, i, v) && InBin(i, nb)
    ensures Seeking(size, i, v, nb, Root, Shl(nb, LeftShift(i)), 0, Neg(nb), 0, Root)
  {
    UnderRoot(Key(i, nb));
  }

  lemma {:induction false} SeekDigit(size: Sizes, i: nat, v: View, nb: nat, e: Path, k: nat)
    requires Shape(v) && Filed(size, i, v) && InBin(i, nb) && nb % 8 == 0 && e in v.ring
    requires Head(v, e) in size && size[Head(v, e)] != nb
    requires Under(Key(i, nb), e) && k == Shl(nb, LeftShift(i) + Depth(e))
    ensures Under(Key(i, nb), Down(e, TopDigit(k))) && Depth(e) < KeyLen(i)
    ensures k < WORD && Double(k) == Shl(nb, LeftShift(i) + Depth(Down(e, TopDigit(k))))
  {
    NewSizeHasRoom(size, i, v, e, nb);
    KeyStep(i, nb, e);
    ShlOnce(nb, LeftShift(i) + Depth(e));
  }

  /** Taking a node into account and following the sign bit keeps the state of the walk. */
  lemma {:induction false} SeekStep(nodes: Nodes, size: Sizes, i: nat, root: Addr, v: View, nb: nat, e: Path, k: nat,
                                    best: Addr, rsize: nat, rst: Addr, c: Path, best': Addr, rsize': nat, rst': Addr, c': Path)
    requires Valid(nodes, size, i, root, v) && InBin(i, nb) && nb % 8 == 0 && e in v.ring
    requires Seeking(size, i, v, nb, e, k, best, rsize, rst, c)
    requires Head(v, e) in nodes && Head(v, e) in size
    requires var trem := Sub(size[Head(v, e)], nb);
             if trem < rsize then rsize' == trem && best' == Head(v, e) else rsize' == rsize && best' == best
    requires rsize' != 0 && k < WORD
    requires var rt, t' := nodes[Head(v, e)].right, Child(nodes[Head(v, e)], TopDigit(k));
             if rt != 0 && rt != t' then rst' == rt && c' == e else rst' == rst && c' == c
    ensures Depth(e) < KeyLen(i)
    ensures Child(nodes[Head(v, e)], TopDigit(k)) == Head(v, Down(e, TopDigit(k)))
    ensures Head(v, Down(e, TopDigit(k))) != 0 <==> Down(e, TopDigit(k)) in v.ring
    ensures Seeking(size, i, v, nb, Down(e, TopDigit(k)), Double(k), best', rsize', rst', c')
  {
    HeadFacts(size, i, v, e);
    NodeWords(nodes, size, i, root, v, e);
    var b, t := TopDigit(k), Head(v, e);
    SeekSize(size[t], nb, rsize);
    SeekDigit(size, i, v, nb, e, k);
    ConsideredStep(size, i, v, nb, e, b, rsize, rsize');
    SeekRight(nodes, v, e, b, rst, c, rst', c');
  }

  /** The untaken right subtree, if there is one, becomes the deepest passed. */
  lemma {:induction false} SeekRight(nodes: Nodes, v: View, e: Path, b: bool, rst: Addr, c: Path, rst': Addr, c': Path)
    requires Shape(v) && DeepestPassed(v, e, rst, c) && Head(v, e) in nodes
    requires nodes[Head(v, e)].left == Head(v, Down(e, false)) && nodes[Head(v, e)].right == Head(v, Down(e, true))
    requires var rt, t' := nodes[Head(v, e)].right, Child(nodes[Head(v, e)], b);
             if rt != 0 && rt != t' then rst' == rt && c' == e else rst' == rst && c' == c
    ensures DeepestPassed(v, Down(e, b), rst', c')
  {
    var rt := nodes[Head(v, e)].right;
    if rt != 0 && !b { DistinctHeads(v, Down(e, true), Down(e, false)); }
    DeepestStep(v, e, rst, c, b, rt);
  }

  /** The unsigned remainder of a chunk that is too small never beats the initial `-nb`. */
  lemma {:induction false} SeekSize(s: nat, nb: nat, rsize: nat)
    requires 0 < s < WORD && 0 < nb < WORD && rsize <= Neg(nb)
    ensures Sub(s, nb) < rsize ==> nb <= s && s == nb + Sub(s, nb)
    ensures Sub(s, nb) >= rsize ==> s < nb || nb + rsize <= s
    ensures s == nb ==> Sub(s, nb) == 0
  {
  }

  /** The first loop of `tmalloc_large`: the walk towards `nb`, remembering the deepest untaken right subtree. */
  method SeekSizeInBin(nodes: Nodes, size: Sizes, i: nat, root: Addr, nb: nat, ghost v: View)
    returns (best: Addr, rsize: nat, t: Addr, ghost p: Path)
    requires Valid(nodes, size, i, root, v) && root != 0 && InBin(i, nb) && nb % 8 == 0
    ensures best == 0 ==> rsize == Neg(nb)
    ensures best != 0 ==> best in v.at && size[best] == nb + rsize && rsize < Neg(nb) && IsNode(v, best)
    ensures t != 0 ==> p in v.ring && t == Head(v, p)
    ensures t == 0 ==> rsize > 0 && Best(size, v, nb, rsize)
    ensures t != 0 && rsize > 0 ==> BestBut(size, v, nb, rsize, p)
  {
    t, best, rsize := root, 0, Neg(nb);
    var k: nat := Shl(nb, LeftShift(i));
    var rst: Addr := 0;
    ghost var c := Root;
    p := Root;
    SeekStart(size, i, v, nb);
    MinSizePositive(i);
    while true
      invariant p in v.ring && t == Head(v, p) && k < WORD && rsize > 0 && Depth(p) <= KeyLen(i)
      invariant Seeking(size, i, v, nb, p, k, best, rsize, rst, c) && (best != 0 ==> IsNode(v, best))
      decreases KeyLen(i) - Depth(p)
    {
      HeadFacts(size, i, v, p);
      NodeWords(nodes, size, i, root, v, p);
      SeekSize(size[t], nb, rsize);
      ghost var best0, rsize0, rst0, c0, k0, e := best, rsize, rst, c, k, p;
      var trem := Sub(size[t], nb);
      if trem < rsize {
        best, rsize := t, trem;
        if rsize == 0 {
          return;
        }
      }
      var rt := nodes[t].right;
      var next := Child(nodes[t], TopDigit(k));
      if rt != 0 && rt != next {
        rst, c := rt, p;
      }
      SeekStep(nodes, size, i, root, v, nb, e, k0, best0, rsize0, rst0, c0, best, rsize, rst, c);
      t, p := next, Down(p, TopDigit(k));
      k := Double(k);
      if t == 0 {
        WalkedOut(size, i, v, nb, p, rsize, rst, c);
        t, p := rst, Down(c, true);
        return;
      }
    }
  }

  lemma {:induction false} MinSizePositive(i: nat)
    ensures MinSize(i) > 0
  {
  }
}
