/** Boundary tags: the chunks of one contiguous segment, their head words and their footers. */
module Tiling {
  import opened Words
  import opened Rings

  const MIN_CHUNK_SIZE: nat := 16

  /** A head word: the size and its two flag bits. */
  datatype Head = Head(size: nat, cinuse: bool, pinuse: bool)

  type Heads = map<Addr, Head>

  /** `prev_foot` words, by the address of the chunk they precede. */
  type Feet = map<Addr, nat>

  /** Where the segment starts, where its last chunk `top` starts, and where `top` ends. */
  datatype Span = Span(base: Addr, top: Addr, limit: Addr)

  function Size(h: Heads, p: Addr): nat {
    if p in h then h[p].size else 0
  }

  ghost function NextOf(h: Heads, p: Addr): Addr {
    p + Size(h, p)
  }

  /** `do_check_any_chunk`, `do_check_inuse_chunk`, `do_check_free_chunk` and `do_check_top_chunk`, bins aside. */
  ghost predicate ChunkOk(h: Heads, f: Feet, c: set<Addr>, s: Span, p: Addr) {
    p in c ==>
      && p in h && p % 8 == 0 && h[p].size % 8 == 0
      && s.base <= p <= s.top
      && (p == s.top ==> h[p].size > 0 && p + h[p].size == s.limit && !h[p].cinuse && h[p].pinuse)
      && (p != s.top ==>
            && h[p].size >= MIN_CHUNK_SIZE
            && var n := p + h[p].size;
            && n in c && n in h && h[n].pinuse == h[p].cinuse
            && (!h[p].cinuse ==> h[p].pinuse && n != s.top && h[n].cinuse && n in f && f[n] == h[p].size))
  }

  /** The chunks `c` tile the segment and their tags are consistent. */
  ghost predicate Tiled(h: Heads, f: Feet, c: set<Addr>, s: Span) {
    && 0 < s.base && s.limit < WORD
    && s.base in c && s.top in c && s.base in h && h[s.base].pinuse
    && (forall p {:trigger ChunkOk(h, f, c, s, p)} :: ChunkOk(h, f, c, s, p))
    && (forall p, q {:trigger p in c, q in c} | p in c && q in c && p < q :: NextOf(h, p) <= q)
  }

  /** Every chunk but the first is preceded by one; if that one is free, the footer leads to it. */
  lemma {:induction false} Predecessor(h: Heads, f: Feet, c: set<Addr>, s: Span, p: Addr) returns (q: Addr)
    requires Tiled(h, f, c, s) && p in c && p != s.base
    ensures q in c && q != s.top && q < p && q in h && q + h[q].size == p && p in h && h[p].pinuse == h[q].cinuse
    ensures !h[p].pinuse ==> !h[q].cinuse && p in f && f[p] == h[q].size
  {
    assert ChunkOk(h, f, c, s, p);
    q := Latest(c, p, s.base);
    assert ChunkOk(h, f, c, s, q);
    assert q < p ==> NextOf(h, q) <= p;
    assert ChunkOk(h, f, c, s, NextOf(h, q));
  }

  lemma {:induction false} Latest(c: set<Addr>, p: Addr, b: Addr) returns (q: Addr)
    requires b in c && b < p
    ensures q in c && q < p && forall r | r in c && r < p :: r <= q
    decreases c
  {
    if r :| r in c && b < r < p {
      q := Latest(c - {b}, p, r);
      forall x | x in c && x < p
        ensures x <= q
      {
        assert r in c - {b};
        assert x != b ==> x in c - {b};
      }
    } else {
      q := b;
    }
  }

  lemma {:induction false} NextInjective(h: Heads, f: Feet, c: set<Addr>, s: Span, p: Addr, q: Addr)
    requires Tiled(h, f, c, s) && p in c && q in c && p != s.top && q != s.top && p != q
    ensures NextOf(h, p) != NextOf(h, q)
  {
    assert ChunkOk(h, f, c, s, p);
    assert ChunkOk(h, f, c, s, q);
    assert ChunkOk(h, f, c, s, NextOf(h, p));
  }

  /** What is known of a chunk that is not `top`, and of its successor. */
  lemma {:induction false} ChunkFacts(h: Heads, f: Feet, c: set<Addr>, s: Span, p: Addr)
    requires Tiled(h, f, c, s) && p in c
    ensures p in h && 0 < p && p % 8 == 0 && h[p].size % 8 == 0 && h[p].size < WORD && s.base <= p <= s.top
    ensures p != s.top ==> h[p].size >= MIN_CHUNK_SIZE && NextOf(h, p) in c && NextOf(h, p) in h
    ensures p != s.top ==> h[NextOf(h, p)].pinuse == h[p].cinuse
    ensures p != s.top && !h[p].cinuse ==>
              && h[p].pinuse && NextOf(h, p) != s.top && h[NextOf(h, p)].cinuse
              && NextOf(h, p) in f && f[NextOf(h, p)] == h[p].size
    ensures p == s.top ==> NextOf(h, p) == s.limit && !h[p].cinuse && h[p].pinuse && h[p].size > 0
    ensures !h[p].pinuse ==> p != s.base
  {
    assert ChunkOk(h, f, c, s, p);
    assert ChunkOk(h, f, c, s, s.top);
    if p != s.top {
      assert p < s.top;
      assert ChunkOk(h, f, c, s, NextOf(h, p));
    }
  }

  // ---- malloc: using a whole free chunk, a part of one, or a part of top ----

  lemma {:induction false} TakeTiled(h: Heads, f: Feet, c: set<Addr>, s: Span, p: Addr, h': Heads)
    requires Tiled(h, f, c, s) && p in c && p != s.top && p in h && !h[p].cinuse
    requires NextOf(h, p) in h
    requires h' == h[p := Head(h[p].size, true, true)][NextOf(h, p) := h[NextOf(h, p)].(pinuse := true)]
    ensures Tiled(h', f, c, s)
  {
    ChunkFacts(h, f, c, s, p);
    ChunkFacts(h, f, c, s, NextOf(h, p));
    forall q
      ensures ChunkOk(h', f, c, s, q)
    {
      assert ChunkOk(h, f, c, s, q);
      if q in c && q != s.top && q != p {
        NextInjective(h, f, c, s, p, q);
      }
    }
  }

  /** Cutting the free chunk `p` in two: the first part in use, the second free. */
  ghost predicate Split(h: Heads, f: Feet, c: set<Addr>, s: Span, p: Addr, nb: nat, h': Heads, f': Feet) {
    && Tiled(h, f, c, s) && p in c && p != s.top && p in h && !h[p].cinuse
    && nb % 8 == 0 && nb >= MIN_CHUNK_SIZE && nb + MIN_CHUNK_SIZE <= h[p].size
    && h' == h[p := Head(nb, true, true)][p + nb := Head(h[p].size - nb, false, true)]
    && f' == f[NextOf(h, p) := h[p].size - nb]
  }

  lemma {:induction false} SplitFresh(h: Heads, f: Feet, c: set<Addr>, s: Span, p: Addr, nb: nat, h': Heads, f': Feet)
    requires Split(h, f, c, s, p, nb, h', f')
    ensures p + nb !in c
  {
    assert ChunkOk(h, f, c, s, p);
  }

  lemma {:induction false} SplitAt(h: Heads, f: Feet, c: set<Addr>, s: Span, p: Addr, nb: nat, h': Heads, f': Feet, q: Addr)
    requires Split(h, f, c, s, p, nb, h', f')
    ensures ChunkOk(h', f', c + {p + nb}, s, q)
  {
    SplitFresh(h, f, c, s, p, nb, h', f');
    ChunkFacts(h, f, c, s, p);
    if q in c && q != p {
      SplitBeside(h, f, c, s, p, nb, h', f', q);
    } else if q == p + nb {
      ChunkFacts(h, f, c, s, NextOf(h, p));
    }
  }

  /** A chunk other than the one split. */
  lemma {:induction false} SplitBeside(h: Heads, f: Feet, c: set<Addr>, s: Span, p: Addr, nb: nat, h': Heads, f': Feet, q: Addr)
    requires Split(h, f, c, s, p, nb, h', f') && q in c && q != p
    ensures ChunkOk(h', f', c + {p + nb}, s, q)
  {
    SplitFresh(h, f, c, s, p, nb, h', f');
    assert ChunkOk(h, f, c, s, q) && ChunkOk(h, f, c, s, p);
    if q != s.top { NextInjective(h, f, c, s, p, q); }
  }

  lemma {:induction false} SplitTiled(h: Heads, f: Feet, c: set<Addr>, s: Span, p: Addr, nb: nat, h': Heads, f': Feet)
    requires Split(h, f, c, s, p, nb, h', f')
    ensures p + nb !in c
    ensures Tiled(h', f', c + {p + nb}, s)
  {
    SplitFresh(h, f, c, s, p, nb, h', f');
    var c' := c + {p + nb};
    forall q
      ensures ChunkOk(h', f', c', s, q)
    {
      SplitAt(h, f, c, s, p, nb, h', f', q);
    }
    ChunkFacts(h, f, c, s, p);
    ChunkFacts(h, f, c, s, s.base);
    forall a, b | a in c' && b in c' && a < b
      ensures NextOf(h', a) <= b
    {
      assert a in c && a != p && b == p + nb ==> a < p || NextOf(h, p) <= a;
      assert b in c && a == p + nb ==> p < b;
    }
  }

  lemma {:induction false} SplitTopTiled(h: Heads, f: Feet, c: set<Addr>, s: Span, nb: nat, h': Heads)
    requires Tiled(h, f, c, s) && s.top in h && nb % 8 == 0 && MIN_CHUNK_SIZE <= nb < h[s.top].size
    requires h' == h[s.top := Head(nb, true, true)][s.top + nb := Head(h[s.top].size - nb, false, true)]
    ensures s.top + nb !in c
    ensures Tiled(h', f, c + {s.top + nb}, s.(top := s.top + nb))
  {
    var p, r := s.top, s.top + nb;
    ChunkFacts(h, f, c, s, p);
    assert r !in c by { if r in c { ChunkFacts(h, f, c, s, r); } }
    var c', s' := c + {r}, s.(top := r);
    forall q
      ensures ChunkOk(h', f, c', s', q)
    {
      if q in c && q != p {
        assert ChunkOk(h, f, c, s, q);
        ChunkFacts(h, f, c, s, NextOf(h, q));
      }
    }
    forall a, b | a in c' && b in c' && a < b
      ensures NextOf(h', a) <= b
    {
      assert a in c ==> a <= p by { if a in c { ChunkFacts(h, f, c, s, a); } }
      assert b in c ==> b <= p by { if b in c { ChunkFacts(h, f, c, s, b); } }
    }
  }

  // ---- free: turning a run of chunks into one free chunk, or into top ----

  /** The chunks outside the run that starts at `a` and ends before `e`, and `a` itself. */
  ghost function Coalesced(c: set<Addr>, a: Addr, e: Addr): set<Addr> {
    set q | q in c && (q <= a || e <= q)
  }

  ghost predicate Merge(h: Heads, f: Feet, c: set<Addr>, s: Span, a: Addr, e: Addr, h': Heads, f': Feet) {
    && Tiled(h, f, c, s) && a in c && e in c && a + MIN_CHUNK_SIZE <= e && e != s.top
    && a in h && e in h && h[a].pinuse && h[e].cinuse
    && h' == h[a := Head(e - a, false, true)][e := h[e].(pinuse := false)]
    && f' == f[e := e - a]
  }

  lemma {:induction false} MergeAt(h: Heads, f: Feet, c: set<Addr>, s: Span, a: Addr, e: Addr, h': Heads, f': Feet, q: Addr)
    requires Merge(h, f, c, s, a, e, h', f')
    ensures ChunkOk(h', f', Coalesced(c, a, e), s, q)
  {
    ChunkFacts(h, f, c, s, a);
    ChunkFacts(h, f, c, s, e);
    if q in c && (q <= a || e <= q) {
      assert ChunkOk(h, f, c, s, q);
      if q != s.top && q != a {
        ChunkFacts(h, f, c, s, q);
        assert q < a ==> NextOf(h, q) <= a;
      }
    }
  }

  lemma {:induction false} MergeTiled(h: Heads, f: Feet, c: set<Addr>, s: Span, a: Addr, e: Addr, h': Heads, f': Feet)
    requires Merge(h, f, c, s, a, e, h', f')
    ensures Tiled(h', f', Coalesced(c, a, e), s)
  {
    var c' := Coalesced(c, a, e);
    ChunkFacts(h, f, c, s, a);
    ChunkFacts(h, f, c, s, e);
    ChunkFacts(h, f, c, s, s.base);
    assert s.base in c' by { assert ChunkOk(h, f, c, s, a); }
    assert s.top in c';
    forall q
      ensures ChunkOk(h', f', c', s, q)
    {
      MergeAt(h, f, c, s, a, e, h', f', q);
    }
    forall x, y | x in c' && y in c' && x < y
      ensures NextOf(h', x) <= y
    {
    }
  }

  ghost predicate MergeTop(h: Heads, f: Feet, c: set<Addr>, s: Span, a: Addr, h': Heads) {
    && Tiled(h, f, c, s) && a in c && a in h && h[a].pinuse && a < s.limit
    && h' == h[a := Head(s.limit - a, false, true)]
  }

  lemma {:induction false} MergeTopAt(h: Heads, f: Feet, c: set<Addr>, s: Span, a: Addr, h': Heads, q: Addr)
    requires MergeTop(h, f, c, s, a, h')
    ensures ChunkOk(h', f, Coalesced(c, a, s.limit), s.(top := a), q)
  {
    ChunkFacts(h, f, c, s, a);
    ChunkFacts(h, f, c, s, s.top);
    if q in c && q <= a {
      assert ChunkOk(h, f, c, s, q);
      if q < a {
        ChunkFacts(h, f, c, s, q);
        assert NextOf(h, q) <= a;
      }
    } else if q in c {
      ChunkFacts(h, f, c, s, q);
    }
  }

  lemma {:induction false} MergeTopTiled(h: Heads, f: Feet, c: set<Addr>, s: Span, a: Addr, h': Heads)
    requires MergeTop(h, f, c, s, a, h')
    ensures Tiled(h', f, Coalesced(c, a, s.limit), s.(top := a))
  {
    var c', s' := Coalesced(c, a, s.limit), s.(top := a);
    ChunkFacts(h, f, c, s, a);
    forall q
      ensures ChunkOk(h', f, c', s', q)
    {
      MergeTopAt(h, f, c, s, a, h', q);
    }
    forall x, y | x in c' && y in c' && x < y
      ensures NextOf(h', x) <= y
    {
      ChunkFacts(h, f, c, s, y);
    }
  }

  /** `init_top` on a contiguous extension: only `top` grows. */
  lemma {:induction false} ExtendTiled(h: Heads, f: Feet, c: set<Addr>, s: Span, n: nat, h': Heads)
    requires Tiled(h, f, c, s) && s.top in h && n % 8 == 0 && s.limit + n < WORD
    requires h' == h[s.top := Head(h[s.top].size + n, false, true)]
    ensures Tiled(h', f, c, s.(limit := s.limit + n))
  {
    ChunkFacts(h, f, c, s, s.top);
    var s' := s.(limit := s.limit + n);
    forall q
      ensures ChunkOk(h', f, c, s', q)
    {
      assert ChunkOk(h, f, c, s, q);
    }
    forall x, y | x in c && y in c && x < y
      ensures NextOf(h', x) <= y
    {
      ChunkFacts(h, f, c, s, y);
    }
  }

  /** A segment that is all `top`. */
  lemma {:induction false} FreshTiled(base: Addr, n: nat, f: Feet)
    requires 0 < base && base % 8 == 0 && n > 0 && n % 8 == 0 && base + n < WORD
    ensures Tiled(map[base := Head(n, false, true)], f, {base}, Span(base, base, base + n))
  {
    var h, c, s := map[base := Head(n, false, true)], {base}, Span(base, base, base + n);
    forall q
      ensures ChunkOk(h, f, c, s, q)
    {
    }
  }

  // ---- memalign: cutting a chunk in use in two, both in use ----

  ghost predicate Cut(h: Heads, f: Feet, c: set<Addr>, s: Span, p: Addr, n: nat, h': Heads) {
    && Tiled(h, f, c, s) && p in c && p != s.top && p in h && h[p].cinuse
    && n % 8 == 0 && n >= MIN_CHUNK_SIZE && n + MIN_CHUNK_SIZE <= h[p].size
    && h' == h[p := h[p].(size := n)][p + n := Head(h[p].size - n, true, true)]
  }

  lemma {:induction false} CutFresh(h: Heads, f: Feet, c: set<Addr>, s: Span, p: Addr, n: nat, h': Heads)
    requires Cut(h, f, c, s, p, n, h')
    ensures p + n !in c
  {
    assert ChunkOk(h, f, c, s, p);
  }

  lemma {:induction false} CutAt(h: Heads, f: Feet, c: set<Addr>, s: Span, p: Addr, n: nat, h': Heads, q: Addr)
    requires Cut(h, f, c, s, p, n, h')
    ensures ChunkOk(h', f, c + {p + n}, s, q)
  {
    CutFresh(h, f, c, s, p, n, h');
    ChunkFacts(h, f, c, s, p);
    if q in c {
      ChunkFacts(h, f, c, s, q);
      assert ChunkOk(h, f, c, s, q);
      if q != s.top && q != p {
        NextInjective(h, f, c, s, p, q);
      }
    } else if q == p + n {
      ChunkFacts(h, f, c, s, NextOf(h, p));
    }
  }

  lemma {:induction false} CutTiled(h: Heads, f: Feet, c: set<Addr>, s: Span, p: Addr, n: nat, h': Heads)
    requires Cut(h, f, c, s, p, n, h')
    ensures p + n !in c
    ensures Tiled(h', f, c + {p + n}, s)
  {
    CutFresh(h, f, c, s, p, n, h');
    var c' := c + {p + n};
    forall q
      ensures ChunkOk(h', f, c', s, q)
    {
      CutAt(h, f, c, s, p, n, h', q);
    }
    ChunkFacts(h, f, c, s, p);
    ChunkFacts(h, f, c, s, s.base);
    forall a, b | a in c' && b in c' && a < b
      ensures NextOf(h', a) <= b
    {
      assert a in c && a != p && b == p + n ==> a < p || NextOf(h, p) <= a;
      assert b in c && a == p + n ==> p < b;
    }
  }
}
