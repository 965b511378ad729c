/** What the caller gets: payloads that overlap neither one another nor the allocator's own words. */
module Payload {
  import opened Words
  import opened Rings
  import opened Tiling
  import opened Layout
  import SmallBins
  import TreeBins

  /** The bytes `[lo, hi)` meet the payload of the chunk `p` of size `s`, which is `[p + 8, p + s + 4)`. */
  predicate Touches(p: Addr, s: nat, lo: Addr, hi: Addr) {
    lo < p + s + 4 && p + 8 < hi
  }

  /** The payload of a chunk in use is aligned, lies in the segment and meets no other payload. */
  lemma {:induction false} PayloadsDisjoint(m: Mem, g: Plan, p: Addr, q: Addr)
    requires Inv(m, g, {}) && p in Live(m, g) && q in Live(m, g)
    ensures (p + 8) % 8 == 0 && g.base + 8 <= p + 8 < p + Live(m, g)[p] + 4 < g.limit
    ensures p != q ==> !Touches(p, Live(m, g)[p], q + 8, q + Live(m, g)[q] + 4)
  {
    ChunkFacts(m.head, m.foot, g.chunks, SpanOf(m, g), p);
    ChunkFacts(m.head, m.foot, g.chunks, SpanOf(m, g), q);
    TopFacts(m, g, {});
    assert p < q ==> NextOf(m.head, p) <= q;
    assert q < p ==> NextOf(m.head, q) <= p;
    assert p < m.top ==> NextOf(m.head, p) <= m.top;
  }

  /** `m'` is `m` with arbitrary words in the payload of the chunk `p` of size `s`. */
  ghost predicate Written(m: Mem, m': Mem, p: Addr, s: nat) {
    && m' == m.(head := m'.head, foot := m'.foot, small := m.small.(nodes := m'.small.nodes),
                tree := m.tree.(nodes := m'.tree.nodes))
    && (forall a {:trigger SameWord(m.head, m'.head, a)} | !Touches(p, s, a + 4, a + 8) :: SameWord(m.head, m'.head, a))
    && (forall a {:trigger SameWord(m.foot, m'.foot, a)} | !Touches(p, s, a, a + 4) :: SameWord(m.foot, m'.foot, a))
    && (forall a {:trigger SameWord(m.small.nodes, m'.small.nodes, a)} | !Touches(p, s, a + 8, a + 16) ::
          SameWord(m.small.nodes, m'.small.nodes, a))
    && (forall a {:trigger SameWord(m.tree.nodes, m'.tree.nodes, a)} | !Touches(p, s, a + 8, a + 32) ::
          SameWord(m.tree.nodes, m'.tree.nodes, a))
  }

  /** Words to be put into a payload, as head words, footers or links as may be. */
  datatype Contents = Contents(heads: Heads, feet: Feet, small: Nodes, tree: Nodes) {
    /** They meet the payload of the chunk `p` of size `s`. */
    predicate Land(p: Addr, s: nat) {
      && (forall a | a in heads :: Touches(p, s, a + 4, a + 8)) && (forall a | a in feet :: Touches(p, s, a, a + 4))
      && (forall a | a in small :: Touches(p, s, a + 8, a + 16)) && (forall a | a in tree :: Touches(p, s, a + 8, a + 32))
    }
  }

  ghost function Overlaid(m: Mem, w: Contents): Mem {
    m.(head := m.head + w.heads, foot := m.foot + w.feet,
       small := m.small.(nodes := m.small.nodes + w.small), tree := m.tree.(nodes := m.tree.nodes + w.tree))
  }

  lemma {:induction false} OverlaidWritten(m: Mem, w: Contents, p: Addr, s: nat)
    requires w.Land(p, s)
    ensures Written(m, Overlaid(m, w), p, s)
  {
  }

  /** No payload covers the head word of a chunk. */
  lemma {:induction false} HeadKept(m: Mem, g: Plan, p: Addr, m': Mem, q: Addr)
    requires Inv(m, g, {}) && p in Live(m, g) && Written(m, m', p, Live(m, g)[p]) && q in g.chunks
    ensures q in m.head && q in m'.head && m'.head[q] == m.head[q]
  {
    ChunkFacts(m.head, m.foot, g.chunks, SpanOf(m, g), p);
    ChunkFacts(m.head, m.foot, g.chunks, SpanOf(m, g), q);
    TopFacts(m, g, {});
    assert p < q ==> NextOf(m.head, p) <= q;
    assert q < p ==> NextOf(m.head, q) <= p;
    assert SameWord(m.head, m'.head, q);
  }

  lemma {:induction false} WrittenTag(m: Mem, g: Plan, p: Addr, m': Mem, q: Addr)
    requires Inv(m, g, {}) && p in Live(m, g) && Written(m, m', p, Live(m, g)[p])
    ensures ChunkOk(m'.head, m'.foot, g.chunks, SpanOf(m, g), q)
  {
    var s := SpanOf(m, g);
    assert ChunkOk(m.head, m.foot, g.chunks, s, q);
    if q in g.chunks {
      HeadKept(m, g, p, m', q);
      TopFacts(m, g, {});
      if q != m.top {
        var n := q + m.head[q].size;
        HeadKept(m, g, p, m', n);
        ChunkFacts(m.head, m.foot, g.chunks, s, p);
        if !m.head[q].cinuse {
          NextInjective(m.head, m.foot, g.chunks, s, p, q);
          assert p < n ==> NextOf(m.head, p) <= n;
          assert n < p ==> NextOf(m.head, n) <= p;
          assert SameWord(m.foot, m'.foot, n);
        }
      }
    }
  }

  /** No payload covers the links of a free chunk or of a bin header. */
  lemma {:induction false} LinksKept(m: Mem, g: Plan, p: Addr, m': Mem, a: Addr)
    requires Inv(m, g, {}) && p in Live(m, g) && Written(m, m', p, Live(m, g)[p])
    ensures a < 0 || a in SmallBins.Held(g.ls) ==> SameWord(m.small.nodes, m'.small.nodes, a)
    ensures a in TreeBins.Held(g.vs) ==> SameWord(m.tree.nodes, m'.tree.nodes, a)
  {
    ChunkFacts(m.head, m.foot, g.chunks, SpanOf(m, g), p);
    if a in Binned(g) {
      FreeFacts(m, g, {}, a);
      SmallOrLarge(m, g, {}, a);
      assert PlacedAt(m, g, {}, p);
      assert p < a ==> NextOf(m.head, p) <= a;
      assert a < p ==> NextOf(m.head, a) <= p;
    }
  }

  /** Whatever the caller writes into a payload, the heap stays consistent and the chunks in use stay the same. */
  lemma {:induction false} WriteKeeps(m: Mem, g: Plan, p: Addr, m': Mem)
    requires Inv(m, g, {}) && p in Live(m, g) && Written(m, m', p, Live(m, g)[p])
    ensures Inv(m', g, {}) && Live(m', g) == Live(m, g)
  {
    forall q | q in g.chunks
      ensures q in m.head && q in m'.head && m'.head[q] == m.head[q]
    {
      HeadKept(m, g, p, m', q);
    }
    var s := SpanOf(m, g);
    assert Tiled(m'.head, m'.foot, g.chunks, s) by {
      forall q
        ensures ChunkOk(m'.head, m'.foot, g.chunks, s, q)
      {
        WrittenTag(m, g, p, m', q);
      }
    }
    WrittenBins(m, g, p, m');
    TopFacts(m, g, {});
    if m.dv != 0 { FreeFacts(m, g, {}, m.dv); }
    forall q
      ensures PlacedAt(m', g, {}, q)
    {
      assert PlacedAt(m, g, {}, q);
    }
  }

  lemma {:induction false} WrittenBins(m: Mem, g: Plan, p: Addr, m': Mem)
    requires Inv(m, g, {}) && p in Live(m, g) && Written(m, m', p, Live(m, g)[p])
    requires forall q | q in g.chunks :: q in m.head && q in m'.head && m'.head[q] == m.head[q]
    ensures Bins(m', g)
  {
    forall a | a in Binned(g)
      ensures a in g.chunks
    {
      FreeFacts(m, g, {}, a);
    }
    BinsFrame(m, g, {}, m.(head := m'.head));
    forall a
      ensures a in m.small.nodes && (a in SmallBins.Held(g.ls) || a < 0) ==>
                a in m'.small.nodes && m'.small.nodes[a] == m.small.nodes[a]
      ensures a in m.tree.nodes && a in TreeBins.Held(g.vs) ==>
                a in m'.tree.nodes && m'.tree.nodes[a] == m.tree.nodes[a]
    {
      LinksKept(m, g, p, m', a);
    }
    SmallBins.NodesFrame(m.small, SizesOf(m'.head), g.ls, m'.small.nodes);
    TreeBins.NodesFrame(m.tree, SizesOf(m'.head), g.vs, m'.tree.nodes);
  }

  // ---- What the allocator leaves alone ----

  /** No word that meets the payload of the chunk `p` of size `s` differs. */
  ghost predicate Spared(m: Mem, m': Mem, p: Addr, s: nat) {
    && (forall a {:trigger SameWord(m.head, m'.head, a)} | Touches(p, s, a + 4, a + 8) :: SameWord(m.head, m'.head, a))
    && (forall a {:trigger SameWord(m.foot, m'.foot, a)} | Touches(p, s, a, a + 4) :: SameWord(m.foot, m'.foot, a))
    && (forall a {:trigger SameWord(m.small.nodes, m'.small.nodes, a)} | Touches(p, s, a + 8, a + 16) ::
          SameWord(m.small.nodes, m'.small.nodes, a))
    && (forall a {:trigger SameWord(m.tree.nodes, m'.tree.nodes, a)} | Touches(p, s, a + 8, a + 32) ::
          SameWord(m.tree.nodes, m'.tree.nodes, a))
  }

  ghost predicate SparedAt(m: Mem, g: Plan, m': Mem, g': Plan, p: Addr) {
    p in Live(m, g) && p in Live(m', g') && Live(m', g')[p] == Live(m, g)[p] ==> Spared(m, m', p, Live(m, g)[p])
  }

  /** The payloads of all chunks that stay in use are as they were. */
  ghost predicate Untouched(m: Mem, g: Plan, m': Mem, g': Plan) {
    forall p {:trigger SparedAt(m, g, m', g', p)} :: SparedAt(m, g, m', g', p)
  }

  /** The payloads of all chunks that stay in use, but for `x`, are as they were. */
  ghost predicate UntouchedBut(m: Mem, g: Plan, m': Mem, g': Plan, x: Addr) {
    forall p {:trigger SparedAt(m, g, m', g', p)} | p != x :: SparedAt(m, g, m', g', p)
  }

  /** All chunks but `x` stay in use. */
  ghost predicate StayBut(u: map<Addr, nat>, u': map<Addr, nat>, x: Addr) {
    forall p {:trigger u[p]} | p in u && p != x :: p in u' && u'[p] == u[p]
  }

  lemma {:induction false} UntouchedButTwice(m: Mem, g: Plan, m1: Mem, g1: Plan, m2: Mem, g2: Plan, x: Addr)
    requires UntouchedBut(m, g, m1, g1, x) && UntouchedBut(m1, g1, m2, g2, x) && StayBut(Live(m, g), Live(m1, g1), x)
    ensures UntouchedBut(m, g, m2, g2, x)
  {
    forall p | p != x
      ensures SparedAt(m, g, m2, g2, p)
    {
      if p in Live(m, g) && p in Live(m2, g2) && Live(m2, g2)[p] == Live(m, g)[p] {
        assert SparedAt(m, g, m1, g1, p) && SparedAt(m1, g1, m2, g2, p);
        SparedTwice(m, m1, m2, p, Live(m, g)[p]);
      }
    }
  }

  /** What was done to the chunk `x` does not matter to those in use before it was. */
  lemma {:induction false} UntouchedFresh(m: Mem, g: Plan, m1: Mem, g1: Plan, m2: Mem, g2: Plan, x: Addr)
    requires Untouched(m, g, m1, g1) && UntouchedBut(m1, g1, m2, g2, x) && x !in Live(m, g) && StayBut(Live(m, g), Live(m1, g1), x)
    ensures Untouched(m, g, m2, g2)
  {
    UntouchedButTwice(m, g, m1, g1, m2, g2, x);
    forall p
      ensures SparedAt(m, g, m2, g2, p)
    {
    }
  }

  /** Every chunk in use at first, or at last, is in use in between. */
  ghost predicate Between(m: Mem, g: Plan, m1: Mem, g1: Plan, m2: Mem, g2: Plan) {
    || (forall p | p in Live(m, g) :: p in Live(m1, g1) && Live(m1, g1)[p] == Live(m, g)[p])
    || (forall p | p in Live(m2, g2) :: p in Live(m1, g1) && Live(m1, g1)[p] == Live(m2, g2)[p])
  }

  lemma {:induction false} SparedTwice(m: Mem, m1: Mem, m2: Mem, p: Addr, s: nat)
    requires Spared(m, m1, p, s) && Spared(m1, m2, p, s)
    ensures Spared(m, m2, p, s)
  {
    forall a | Touches(p, s, a + 4, a + 8)
      ensures SameWord(m.head, m2.head, a)
    {
      assert SameWord(m.head, m1.head, a) && SameWord(m1.head, m2.head, a);
    }
    forall a | Touches(p, s, a, a + 4)
      ensures SameWord(m.foot, m2.foot, a)
    {
      assert SameWord(m.foot, m1.foot, a) && SameWord(m1.foot, m2.foot, a);
    }
    forall a | Touches(p, s, a + 8, a + 16)
      ensures SameWord(m.small.nodes, m2.small.nodes, a)
    {
      assert SameWord(m.small.nodes, m1.small.nodes, a) && SameWord(m1.small.nodes, m2.small.nodes, a);
    }
    forall a | Touches(p, s, a + 8, a + 32)
      ensures SameWord(m.tree.nodes, m2.tree.nodes, a)
    {
      assert SameWord(m.tree.nodes, m1.tree.nodes, a) && SameWord(m1.tree.nodes, m2.tree.nodes, a);
    }
  }

  lemma {:induction false} UntouchedTwice(m: Mem, g: Plan, m1: Mem, g1: Plan, m2: Mem, g2: Plan)
    requires Untouched(m, g, m1, g1) && Untouched(m1, g1, m2, g2) && Between(m, g, m1, g1, m2, g2)
    ensures Untouched(m, g, m2, g2)
  {
    forall p
      ensures SparedAt(m, g, m2, g2, p)
    {
      if p in Live(m, g) && p in Live(m2, g2) && Live(m2, g2)[p] == Live(m, g)[p] {
        assert SparedAt(m, g, m1, g1, p) && SparedAt(m1, g1, m2, g2, p);
        SparedTwice(m, m1, m2, p, Live(m, g)[p]);
      }
    }
  }

  lemma {:induction false} NothingWritten(m: Mem, g: Plan, m': Mem, g': Plan)
    requires m'.head == m.head && m'.foot == m.foot && m'.small.nodes == m.small.nodes && m'.tree.nodes == m.tree.nodes
    ensures Untouched(m, g, m', g')
  {
  }

  /** A free chunk's own words: its head, its footer behind it, and its links. */
  ghost predicate FreeAt(h: Heads, c: set<Addr>, q: Addr) {
    q in c && q in h && !h[q].cinuse && h[q].size >= MIN_CHUNK_SIZE
  }

  /** No payload covers a head word, or the footer or the links of a free chunk. */
  lemma {:induction false} OwnWords(h: Heads, f: Feet, c: set<Addr>, s: Span, p: Addr, q: Addr)
    requires Tiled(h, f, c, s) && p in c && p in h && h[p].cinuse && q in c && q in h
    ensures !Touches(p, h[p].size, q + 4, q + 8)
    ensures FreeAt(h, c, q) ==> !Touches(p, h[p].size, q + h[q].size, q + h[q].size + 4) && !Touches(p, h[p].size, q + 8, q + 16)
    ensures FreeAt(h, c, q) && h[q].size >= 32 ==> !Touches(p, h[p].size, q + 8, q + 32)
  {
    ChunkFacts(h, f, c, s, p);
    ChunkFacts(h, f, c, s, q);
    assert p < q ==> NextOf(h, p) <= q;
    assert q < p ==> NextOf(h, q) <= p;
    if p != q && q != s.top && p != s.top { NextInjective(h, f, c, s, p, q); }
  }

  ghost predicate HeadWrite(g: Plan, g': Plan, h: Heads, h': Heads, a: Addr) {
    SameWord(h, h', a) || a in g.chunks || a in g'.chunks
  }

  /** Head words of chunks, old or new, and the footer of the free chunk `q` were written. */
  lemma {:induction false} TagsWritten(m: Mem, g: Plan, m': Mem, g': Plan, q: Addr)
    requires Tiled(m.head, m.foot, g.chunks, SpanOf(m, g)) && Tiled(m'.head, m'.foot, g'.chunks, SpanOf(m', g'))
    requires m'.small.nodes == m.small.nodes && m'.tree.nodes == m.tree.nodes
    requires forall a {:trigger HeadWrite(g, g', m.head, m'.head, a)} :: HeadWrite(g, g', m.head, m'.head, a)
    requires m'.foot == m.foot || (FreeAt(m'.head, g'.chunks, q) && m'.foot == m.foot[q + m'.head[q].size := m'.head[q].size])
    ensures Untouched(m, g, m', g')
  {
    forall p
      ensures SparedAt(m, g, m', g', p)
    {
      if p in Live(m, g) && p in Live(m', g') && Live(m', g')[p] == Live(m, g)[p] {
        TagsSpared(m, g, m', g', q, p);
      }
    }
  }

  lemma {:induction false} TagsSpared(m: Mem, g: Plan, m': Mem, g': Plan, q: Addr, p: Addr)
    requires Tiled(m.head, m.foot, g.chunks, SpanOf(m, g)) && Tiled(m'.head, m'.foot, g'.chunks, SpanOf(m', g'))
    requires m'.small.nodes == m.small.nodes && m'.tree.nodes == m.tree.nodes
    requires forall a {:trigger HeadWrite(g, g', m.head, m'.head, a)} :: HeadWrite(g, g', m.head, m'.head, a)
    requires m'.foot == m.foot || (FreeAt(m'.head, g'.chunks, q) && m'.foot == m.foot[q + m'.head[q].size := m'.head[q].size])
    requires p in Live(m, g) && p in Live(m', g') && Live(m', g')[p] == Live(m, g)[p]
    ensures Spared(m, m', p, Live(m, g)[p])
  {
    forall a | Touches(p, m.head[p].size, a + 4, a + 8)
      ensures SameWord(m.head, m'.head, a)
    {
      assert HeadWrite(g, g', m.head, m'.head, a);
      if a in g.chunks {
        ChunkFacts(m.head, m.foot, g.chunks, SpanOf(m, g), a);
        OwnWords(m.head, m.foot, g.chunks, SpanOf(m, g), p, a);
      } else if a in g'.chunks {
        ChunkFacts(m'.head, m'.foot, g'.chunks, SpanOf(m', g'), a);
        OwnWords(m'.head, m'.foot, g'.chunks, SpanOf(m', g'), p, a);
      }
    }
    if FreeAt(m'.head, g'.chunks, q) { OwnWords(m'.head, m'.foot, g'.chunks, SpanOf(m', g'), p, q); }
  }

  /** The head words `x` and `y` of chunks, old or new, and the footer of the free chunk `q` were written. */
  lemma {:induction false} TwoTagsWritten(m: Mem, g: Plan, x: Addr, hx: Head, y: Addr, hy: Head, q: Addr, m': Mem, g': Plan)
    requires Tiled(m.head, m.foot, g.chunks, SpanOf(m, g)) && Tiled(m'.head, m'.foot, g'.chunks, SpanOf(m', g'))
    requires m'.small.nodes == m.small.nodes && m'.tree.nodes == m.tree.nodes
    requires (x in g.chunks || x in g'.chunks) && (y in g.chunks || y in g'.chunks) && m'.head == m.head[x := hx][y := hy]
    requires m'.foot == m.foot || (FreeAt(m'.head, g'.chunks, q) && m'.foot == m.foot[q + m'.head[q].size := m'.head[q].size])
    ensures Untouched(m, g, m', g')
  {
    forall a
      ensures HeadWrite(g, g', m.head, m'.head, a)
    {
    }
    TagsWritten(m, g, m', g', q);
  }

  ghost predicate SmallWrite(m: Mem, g: Plan, n: Nodes, a: Addr) {
    SameWord(m.small.nodes, n, a) || a < 0 || FreeAt(m.head, g.chunks, a)
  }

  ghost predicate TreeWrite(m: Mem, g: Plan, n: Nodes, a: Addr) {
    SameWord(m.tree.nodes, n, a) || (FreeAt(m.head, g.chunks, a) && m.head[a].size >= 32)
  }

  /** Links of free chunks and of bin headers were written. */
  lemma {:induction false} LinksWritten(m: Mem, g: Plan, m': Mem, g': Plan)
    requires Tiled(m.head, m.foot, g.chunks, SpanOf(m, g))
    requires m'.head == m.head && m'.foot == m.foot && g'.chunks == g.chunks
    requires forall a {:trigger SmallWrite(m, g, m'.small.nodes, a)} :: SmallWrite(m, g, m'.small.nodes, a)
    requires forall a {:trigger TreeWrite(m, g, m'.tree.nodes, a)} :: TreeWrite(m, g, m'.tree.nodes, a)
    ensures Untouched(m, g, m', g')
  {
    forall p
      ensures SparedAt(m, g, m', g', p)
    {
      if p in Live(m, g) { LinksSpared(m, g, m', p); }
    }
  }

  lemma {:induction false} LinksSpared(m: Mem, g: Plan, m': Mem, p: Addr)
    requires Tiled(m.head, m.foot, g.chunks, SpanOf(m, g)) && m'.head == m.head && m'.foot == m.foot && p in Live(m, g)
    requires forall a {:trigger SmallWrite(m, g, m'.small.nodes, a)} :: SmallWrite(m, g, m'.small.nodes, a)
    requires forall a {:trigger TreeWrite(m, g, m'.tree.nodes, a)} :: TreeWrite(m, g, m'.tree.nodes, a)
    ensures Spared(m, m', p, Live(m, g)[p])
  {
    ChunkFacts(m.head, m.foot, g.chunks, SpanOf(m, g), p);
    forall a | Touches(p, m.head[p].size, a + 8, a + 16)
      ensures SameWord(m.small.nodes, m'.small.nodes, a)
    {
      assert SmallWrite(m, g, m'.small.nodes, a);
      if FreeAt(m.head, g.chunks, a) { OwnWords(m.head, m.foot, g.chunks, SpanOf(m, g), p, a); }
    }
    forall a | Touches(p, m.head[p].size, a + 8, a + 32)
      ensures SameWord(m.tree.nodes, m'.tree.nodes, a)
    {
      assert TreeWrite(m, g, m'.tree.nodes, a);
      if FreeAt(m.head, g.chunks, a) { OwnWords(m.head, m.foot, g.chunks, SpanOf(m, g), p, a); }
    }
  }

  /** The free chunk `p` was given its head and its footer, and the head word of `next`, if another chunk, was adjusted. */
  lemma {:induction false} FreeWritten(m: Mem, g: Plan, next: Addr, w: Head, p: Addr, m': Mem, g': Plan, loose: set<Addr>)
    requires Tiled(m.head, m.foot, g.chunks, SpanOf(m, g)) && Inv(m', g', loose) && (next == p || next in g.chunks)
    requires m'.small.nodes == m.small.nodes && m'.tree.nodes == m.tree.nodes
    requires (p in loose || (p == m'.dv && p != 0)) && p in m'.head && m'.head == m.head[next := w][p := m'.head[p]]
    requires m'.foot == m.foot[p + m'.head[p].size := m'.head[p].size]
    ensures Untouched(m, g, m', g')
  {
    FreeFacts(m', g', loose, p);
    TwoTagsWritten(m, g, next, w, p, m'.head[p], p, m', g');
  }

  /** Only the free chunk `p` was given its head and its footer. */
  lemma {:induction false} RunWritten(m: Mem, g: Plan, p: Addr, m': Mem, g': Plan, loose: set<Addr>)
    requires Tiled(m.head, m.foot, g.chunks, SpanOf(m, g)) && Inv(m', g', loose)
    requires m'.small.nodes == m.small.nodes && m'.tree.nodes == m.tree.nodes
    requires (p in loose || (p == m'.dv && p != 0)) && p in m'.head && m'.head == m.head[p := m'.head[p]]
    requires m'.foot == m.foot[p + m'.head[p].size := m'.head[p].size]
    ensures Untouched(m, g, m', g')
  {
    FreeWritten(m, g, p, m'.head[p], p, m', g', loose);
  }

  /** The head word of `top`, which starts at `p`, was written. */
  lemma {:induction false} TopWritten(m: Mem, g: Plan, p: Addr, m': Mem, g': Plan)
    requires Tiled(m.head, m.foot, g.chunks, SpanOf(m, g)) && Inv(m', g', {}) && p == m'.top
    requires m'.small.nodes == m.small.nodes && m'.tree.nodes == m.tree.nodes && m'.foot == m.foot
    requires p in m'.head && m'.head == m.head[p := m'.head[p]]
    ensures Untouched(m, g, m', g')
  {
    TopFacts(m', g', {});
    TwoTagsWritten(m, g, p, m'.head[p], p, m'.head[p], p, m', g');
  }

  /** Links in the small bins, and those of the free chunk `x`, were written. */
  lemma {:induction false} SmallLinksWritten(m: Mem, g: Plan, loose: set<Addr>, x: Addr, m': Mem, g': Plan)
    requires Inv(m, g, loose) && m' == m.(small := m'.small) && g'.chunks == g.chunks && IsFree(m, g, x)
    requires forall a {:trigger SameWord(m.small.nodes, m'.small.nodes, a)} | 0 <= a && a !in SmallBins.Held(g.ls) && a != x ::
               SameWord(m.small.nodes, m'.small.nodes, a)
    ensures Untouched(m, g, m', g')
  {
    ChunkFacts(m.head, m.foot, g.chunks, SpanOf(m, g), x);
    forall a
      ensures SmallWrite(m, g, m'.small.nodes, a)
    {
      if a in SmallBins.Held(g.ls) { FreeFacts(m, g, loose, a); }
    }
    LinksWritten(m, g, m', g');
  }

  /** Links in the tree bins, and those of the large free chunk `x`, were written. */
  lemma {:induction false} TreeLinksWritten(m: Mem, g: Plan, loose: set<Addr>, x: Addr, m': Mem, g': Plan)
    requires Inv(m, g, loose) && m' == m.(tree := m'.tree) && g'.chunks == g.chunks && IsFree(m, g, x) && m.head[x].size >= 32
    requires forall a {:trigger SameWord(m.tree.nodes, m'.tree.nodes, a)} | a !in TreeBins.Held(g.vs) && a != x ::
               SameWord(m.tree.nodes, m'.tree.nodes, a)
    ensures Untouched(m, g, m', g')
  {
    forall a
      ensures TreeWrite(m, g, m'.tree.nodes, a)
    {
      if a in TreeBins.Held(g.vs) {
        FreeFacts(m, g, loose, a);
        SmallOrLarge(m, g, loose, a);
      }
    }
    LinksWritten(m, g, m', g');
  }

  // ---- Steps of `dlmalloc` from `dv`, with what they leave alone ----

  lemma {:induction false} UseDvSpares(m: Mem, g: Plan, m': Mem)
    requires Inv(m, g, {}) && m.dv != 0 && m.dv in m.head && m.dv + m.dvsize in m.head
    requires m' == m.(dv := 0, dvsize := 0, head := m.head[m.dv := Head(m.dvsize, true, true)]
                                                     [m.dv + m.dvsize := m.head[m.dv + m.dvsize].(pinuse := true)])
    ensures Inv(m', g, {}) && m.dv !in Live(m, g) && Live(m', g) == Live(m, g)[m.dv := m.dvsize] && Untouched(m, g, m', g)
  {
    FreeFacts(m, g, {}, m.dv);
    DropDv(m, g, {});
    assert {} + {m.dv} == {m.dv} && {m.dv} - {m.dv} == {};
    UseStep(m.(dv := 0, dvsize := 0), g, {m.dv}, m.dv, m');
    var n := m.dv + m.dvsize;
    TwoTagsWritten(m, g, m.dv, Head(m.dvsize, true, true), n, m.head[n].(pinuse := true), m.dv, m', g);
  }

  lemma {:induction false} SplitDvSpares(m: Mem, g: Plan, nb: nat, m': Mem, g': Plan)
    requires Inv(m, g, {}) && m.dv != 0 && nb % 8 == 0 && nb >= MIN_CHUNK_SIZE && nb + MIN_CHUNK_SIZE <= m.dvsize
    requires var s := m.dvsize - nb;
             m' == m.(dv := m.dv + nb, dvsize := s, foot := m.foot[m.dv + m.dvsize := s],
                      head := m.head[m.dv := Head(nb, true, true)][m.dv + nb := Head(s, false, true)])
    requires g' == g.(chunks := g.chunks + {m.dv + nb})
    ensures Inv(m', g', {}) && m.dv !in Live(m, g) && Live(m', g') == Live(m, g)[m.dv := nb] && Untouched(m, g, m', g')
  {
    var s, r := m.dvsize - nb, m.dv + nb;
    FreeFacts(m, g, {}, m.dv);
    SplitDvStep(m, g, nb, m', g');
    TwoTagsWritten(m, g, m.dv, Head(nb, true, true), r, Head(s, false, true), r, m', g');
  }

  // ---- Steps of `dlfree`, with what they leave alone ----

  lemma {:induction false} FuseSpares(m: Mem, g: Plan, loose: set<Addr>, p: Addr, a: Addr, e: Addr, m': Mem, g': Plan)
    requires Run(m, g, loose, p, a, e) && e != p + m.head[p].size && a <= e
    requires m' == m.(head := m.head[a := Head(e - a, false, true)], foot := m.foot[e := e - a])
    requires g' == g.(chunks := Coalesced(g.chunks, a, e))
    ensures Inv(m', g', {a}) && a in m'.head && m'.head[a].size == e - a
    ensures p in Live(m, g) && Live(m', g') == Live(m, g) - {p} && Untouched(m, g, m', g')
  {
    FuseStep(m, g, loose, p, a, e, m', g');
    RunWritten(m, g, a, m', g', {a});
  }

  lemma {:induction false} FuseDvSpares(m: Mem, g: Plan, loose: set<Addr>, p: Addr, a: Addr, e: Addr, m': Mem, g': Plan)
    requires Run(m.(dv := 0, dvsize := 0), g, loose, p, a, e) && e != p + m.head[p].size && a <= e
    requires m' == m.(dv := a, dvsize := e - a, head := m.head[a := Head(e - a, false, true)], foot := m.foot[e := e - a])
    requires g' == g.(chunks := Coalesced(g.chunks, a, e))
    ensures Inv(m', g', {}) && p in Live(m, g) && Live(m', g') == Live(m, g) - {p} && Untouched(m, g, m', g')
  {
    var m1 := m.(dv := 0, dvsize := 0);
    RunFacts(m1, g, loose, p, a, e);
    FuseDv(m1, g, loose, p, a, e, m', g');
    RunWritten(m, g, a, m', g', {});
  }

  lemma {:induction false} FreeSpares(m: Mem, g: Plan, loose: set<Addr>, p: Addr, a: Addr, n: Addr, m': Mem, g': Plan)
    requires Back(m, g, loose, p, a) && a != m.dv && n == p + m.head[p].size && n in m.head && m.head[n].cinuse && a <= n
    requires m' == m.(head := m.head[n := m.head[n].(pinuse := false)][a := Head(n - a, false, true)], foot := m.foot[n := n - a])
    requires g' == g.(chunks := Coalesced(g.chunks, a, n))
    ensures Inv(m', g', {a}) && p in Live(m, g) && Live(m', g') == Live(m, g) - {p} && Untouched(m, g, m', g')
  {
    Forward(m, g, loose, p, a);
    FreeStep(m, g, loose, p, a, n, m', g');
    FreeWritten(m, g, n, m.head[n].(pinuse := false), a, m', g', {a});
  }

  lemma {:induction false} IntoTopSpares(m: Mem, g: Plan, loose: set<Addr>, p: Addr, a: Addr, m': Mem, g': Plan)
    requires Back(m, g, loose, p, a) && m.top == p + m.head[p].size && a <= m.top
    requires var s := m.topsize + (m.top - a);
             m' == Lifted(m, a).(head := m.head[a := Head(s, false, true)], top := a, topsize := s)
    requires g' == g.(chunks := Coalesced(g.chunks, a, g.limit))
    ensures Inv(m', g', {}) && p in Live(m, g) && Live(m', g') == Live(m, g) - {p} && Untouched(m, g, m', g')
  {
    IntoTopStep(m, g, loose, p, a, m', g');
    TopWritten(m, g, a, m', g');
  }

  lemma {:induction false} GrowDvSpares(m: Mem, g: Plan, p: Addr, n: Addr, m': Mem, g': Plan)
    requires Back(m, g, {}, p, m.dv) && n == p + m.head[p].size && n in m.head && m.head[n].cinuse && m.dv <= n
    requires var s := n - m.dv;
             m' == m.(dvsize := s, head := m.head[n := m.head[n].(pinuse := false)][m.dv := Head(s, false, true)],
                      foot := m.foot[n := s])
    requires g' == g.(chunks := Coalesced(g.chunks, m.dv, n))
    ensures Inv(m', g', {}) && p in Live(m, g) && Live(m', g') == Live(m, g) - {p} && Untouched(m, g, m', g')
  {
    Forward(m, g, {}, p, m.dv);
    GrowDvStep(m, g, p, n, m', g');
    FreeWritten(m, g, n, m.head[n].(pinuse := false), m.dv, m', g', {});
  }

  // ---- What the caller finds ----

  /** The bytes `[lo, hi)` lie in the payload of the chunk `p` of size `s`. */
  predicate Inside(p: Addr, s: nat, lo: Addr, hi: Addr) {
    p + 8 <= lo && hi <= p + s + 4
  }

  /** No word in the payload of the chunk `p` of size `s` differs. */
  ghost predicate Intact(m: Mem, m': Mem, p: Addr, s: nat) {
    && (forall a {:trigger SameWord(m.head, m'.head, a)} | Inside(p, s, a + 4, a + 8) :: SameWord(m.head, m'.head, a))
    && (forall a {:trigger SameWord(m.foot, m'.foot, a)} | Inside(p, s, a, a + 4) :: SameWord(m.foot, m'.foot, a))
    && (forall a {:trigger SameWord(m.small.nodes, m'.small.nodes, a)} | Inside(p, s, a + 8, a + 16) ::
          SameWord(m.small.nodes, m'.small.nodes, a))
    && (forall a {:trigger SameWord(m.tree.nodes, m'.tree.nodes, a)} | Inside(p, s, a + 8, a + 32) ::
          SameWord(m.tree.nodes, m'.tree.nodes, a))
  }

  lemma {:induction false} SparedIntact(m: Mem, m': Mem, p: Addr, s: nat)
    requires Spared(m, m', p, s)
    ensures Intact(m, m', p, s)
  {
  }

  lemma {:induction false} IntactTwice(m: Mem, m1: Mem, m2: Mem, p: Addr, s: nat)
    requires Intact(m, m1, p, s) && Intact(m1, m2, p, s)
    ensures Intact(m, m2, p, s)
  {
    forall a | Inside(p, s, a + 4, a + 8)
      ensures SameWord(m.head, m2.head, a)
    {
      assert SameWord(m.head, m1.head, a) && SameWord(m1.head, m2.head, a);
    }
    forall a | Inside(p, s, a, a + 4)
      ensures SameWord(m.foot, m2.foot, a)
    {
      assert SameWord(m.foot, m1.foot, a) && SameWord(m1.foot, m2.foot, a);
    }
    forall a | Inside(p, s, a + 8, a + 16)
      ensures SameWord(m.small.nodes, m2.small.nodes, a)
    {
      assert SameWord(m.small.nodes, m1.small.nodes, a) && SameWord(m1.small.nodes, m2.small.nodes, a);
    }
    forall a | Inside(p, s, a + 8, a + 32)
      ensures SameWord(m.tree.nodes, m2.tree.nodes, a)
    {
      assert SameWord(m.tree.nodes, m1.tree.nodes, a) && SameWord(m1.tree.nodes, m2.tree.nodes, a);
    }
  }

  /** A write into one payload leaves the others alone. */
  lemma {:induction false} WriteSpares(m: Mem, g: Plan, p: Addr, m': Mem, q: Addr)
    requires Inv(m, g, {}) && p in Live(m, g) && q in Live(m, g) && p != q && Written(m, m', p, Live(m, g)[p])
    ensures Intact(m, m', q, Live(m, g)[q])
  {
    PayloadsDisjoint(m, g, p, q);
    PayloadsDisjoint(m, g, q, p);
  }

  // ---- Conservation ----

  /** The sizes of the chunks `c` whose addresses are in `[lo, hi)`, added up. */
  ghost function Sum(h: Heads, c: set<Addr>, lo: Addr, hi: Addr): nat
    decreases hi - lo
  {
    if lo >= hi then 0 else (if lo in c then Size(h, lo) else 0) + Sum(h, c, lo + 1, hi)
  }

  lemma {:induction false} SumCut(h: Heads, c: set<Addr>, lo: Addr, mid: Addr, hi: Addr)
    requires lo <= mid <= hi
    ensures Sum(h, c, lo, hi) == Sum(h, c, lo, mid) + Sum(h, c, mid, hi)
    decreases mid - lo
  {
    if lo < mid { SumCut(h, c, lo + 1, mid, hi); }
  }

  /** Only the chunk `p`, or none, is in the range. */
  lemma {:induction false} SumOne(h: Heads, c: set<Addr>, lo: Addr, hi: Addr, p: Addr)
    requires forall q | lo <= q < hi :: q in c ==> q == p
    ensures Sum(h, c, lo, hi) == if lo <= p < hi && p in c then Size(h, p) else 0
    decreases hi - lo
  {
    if lo < hi { SumOne(h, c, lo + 1, hi, p); }
  }

  ghost predicate Parts(c: set<Addr>, a: set<Addr>, b: set<Addr>) {
    forall p: Addr :: (p in c <==> p in a || p in b) && !(p in a && p in b)
  }

  lemma {:induction false} SumParts(h: Heads, c: set<Addr>, a: set<Addr>, b: set<Addr>, lo: Addr, hi: Addr)
    requires Parts(c, a, b)
    ensures Sum(h, c, lo, hi) == Sum(h, a, lo, hi) + Sum(h, b, lo, hi)
    decreases hi - lo
  {
    if lo < hi { SumParts(h, c, a, b, lo + 1, hi); }
  }

  /** The chunks below `p` fill the segment up to `p`. */
  lemma {:induction false} SumBelow(h: Heads, f: Feet, c: set<Addr>, s: Span, p: Addr)
    requires Tiled(h, f, c, s) && p in c
    ensures Sum(h, c, s.base, p) == p - s.base
    decreases p - s.base
  {
    ChunkFacts(h, f, c, s, p);
    if p != s.base {
      var q := Predecessor(h, f, c, s, p);
      ChunkFacts(h, f, c, s, q);
      SumBelow(h, f, c, s, q);
      SumCut(h, c, s.base, q, p);
      assert forall r | q <= r < p && r in c :: r == q;
      SumOne(h, c, q, p, q);
    }
  }

  lemma {:induction false} SumAll(h: Heads, f: Feet, c: set<Addr>, s: Span)
    requires Tiled(h, f, c, s)
    ensures Sum(h, c, s.base, s.limit) == s.limit - s.base
  {
    ChunkFacts(h, f, c, s, s.top);
    SumBelow(h, f, c, s, s.top);
    forall q | q in c
      ensures q <= s.top
    {
      ChunkFacts(h, f, c, s, q);
    }
    SumCut(h, c, s.base, s.top, s.limit);
    SumOne(h, c, s.top, s.limit, s.top);
  }

  ghost function Dv(m: Mem): set<Addr> {
    if m.dv == 0 then {} else {m.dv}
  }

  /** A chunk is in use, in a bin, `dv` or `top`, and is only one of these. */
  lemma {:induction false} Partition(m: Mem, g: Plan)
    requires Inv(m, g, {})
    ensures var used, free := Live(m, g).Keys, Binned(g) + Dv(m) + {m.top};
            Parts(g.chunks, used, free) && Parts(free, Binned(g) + Dv(m), {m.top}) && Parts(Binned(g) + Dv(m), Binned(g), Dv(m))
  {
    TopFacts(m, g, {});
    forall p: Addr
      ensures p in g.chunks <==> p in Live(m, g).Keys || p in Binned(g) + Dv(m) + {m.top}
      ensures !(p in Live(m, g).Keys && p in Binned(g) + Dv(m) + {m.top})
    {
      assert PlacedAt(m, g, {}, p);
      if p in g.chunks { ChunkFacts(m.head, m.foot, g.chunks, SpanOf(m, g), p); }
    }
  }

  /** Every byte of the segment is in use, in a bin, in `dv` or in `top`. */
  lemma {:induction false} Conservation(m: Mem, g: Plan)
    requires Inv(m, g, {})
    ensures Sum(m.head, Live(m, g).Keys, g.base, g.limit) + Sum(m.head, Binned(g), g.base, g.limit)
            + m.dvsize + m.topsize == g.limit - g.base
  {
    var used, free := Live(m, g).Keys, Binned(g) + Dv(m) + {m.top};
    SumAll(m.head, m.foot, g.chunks, SpanOf(m, g));
    Partition(m, g);
    SumParts(m.head, g.chunks, used, free, g.base, g.limit);
    SumParts(m.head, free, Binned(g) + Dv(m), {m.top}, g.base, g.limit);
    SumParts(m.head, Binned(g) + Dv(m), Binned(g), Dv(m), g.base, g.limit);
    TopFacts(m, g, {});
    ChunkFacts(m.head, m.foot, g.chunks, SpanOf(m, g), m.top);
    SumOne(m.head, {m.top}, g.base, g.limit, m.top);
    if m.dv != 0 {
      FreeFacts(m, g, {}, m.dv);
      ChunkFacts(m.head, m.foot, g.chunks, SpanOf(m, g), m.dv);
    }
    SumOne(m.head, Dv(m), g.base, g.limit, m.dv);
  }
}
