/** The allocator's whole state and its invariant: tiled chunks, each free one in exactly one place. */
module Layout {
  import opened Words
  import opened Rings
  import opened Tiling
  import SmallBins
  import TreeBins

  type Sizes = map<Addr, nat>

  /** The segment's words and the fields of `malloc_state`. */
  datatype Mem = Mem(head: Heads, foot: Feet, small: SmallBins.SmallState, tree: TreeBins.TreeState,
                     dv: Addr, dvsize: nat, top: Addr, topsize: nat)

  /** What the words stand for: the chunks, and the contents of the bins. */
  datatype Plan = Plan(base: Addr, limit: Addr, chunks: set<Addr>, ls: SmallBins.BinLists, vs: TreeBins.Views)

  function SizesOf(h: Heads): Sizes {
    map a | a in h :: h[a].size
  }

  ghost function SpanOf(m: Mem, g: Plan): Span {
    Span(g.base, m.top, g.limit)
  }

  ghost function Binned(g: Plan): set<Addr> {
    SmallBins.Held(g.ls) + TreeBins.Held(g.vs)
  }

  /** A free chunk other than `top`. */
  ghost predicate IsFree(m: Mem, g: Plan, p: Addr) {
    p in g.chunks && p != m.top && p in m.head && !m.head[p].cinuse
  }

  /** A free chunk other than `top` is in a bin, or is `dv`, or is in transit. */
  ghost predicate PlacedAt(m: Mem, g: Plan, loose: set<Addr>, p: Addr) {
    IsFree(m, g, p) <==> p in Binned(g) || (p == m.dv && m.dv != 0) || p in loose
  }

  ghost predicate Apart(m: Mem, g: Plan, loose: set<Addr>) {
    && m.dv !in Binned(g) && m.dv !in loose && loose !! Binned(g) && 0 !in loose
  }

  ghost predicate Bins(m: Mem, g: Plan) {
    && SmallBins.Valid(m.small, SizesOf(m.head), g.ls)
    && TreeBins.Valid(m.tree, SizesOf(m.head), g.vs)
  }

  ghost predicate Tops(m: Mem) {
    && m.topsize == Size(m.head, m.top)
    && (m.dv == 0 <==> m.dvsize == 0)
    && (m.dv != 0 ==> m.dvsize == Size(m.head, m.dv))
  }

  /** The heap invariant, except that the chunks in `loose` are free and in no bin. */
  ghost predicate Inv(m: Mem, g: Plan, loose: set<Addr>) {
    && Tiled(m.head, m.foot, g.chunks, SpanOf(m, g))
    && Bins(m, g)
    && Tops(m)
    && Apart(m, g, loose)
    && forall p {:trigger PlacedAt(m, g, loose, p)} :: PlacedAt(m, g, loose, p)
  }

  /** The chunks in use, with their sizes. */
  ghost function Live(m: Mem, g: Plan): map<Addr, nat> {
    map p | p in g.chunks && p in m.head && m.head[p].cinuse :: m.head[p].size
  }

  // ---- What a step may rely on ----

  lemma {:induction false} FreeFacts(m: Mem, g: Plan, loose: set<Addr>, p: Addr)
    requires Inv(m, g, loose) && (p in Binned(g) || (p == m.dv && m.dv != 0) || p in loose)
    ensures IsFree(m, g, p) && 0 < p && p % 8 == 0
    ensures MIN_CHUNK_SIZE <= m.head[p].size < WORD && m.head[p].size % 8 == 0 && m.head[p].pinuse
    ensures var n := p + m.head[p].size;
            n in g.chunks && n in m.head && n != m.top && m.head[n].cinuse && !m.head[n].pinuse && n in m.foot
  {
    assert PlacedAt(m, g, loose, p);
    ChunkFacts(m.head, m.foot, g.chunks, SpanOf(m, g), p);
  }

  lemma {:induction false} TopFacts(m: Mem, g: Plan, loose: set<Addr>)
    requires Inv(m, g, loose)
    ensures m.top in g.chunks && m.top in m.head && 0 < m.top && m.topsize == m.head[m.top].size > 0
    ensures m.topsize % 8 == 0 && m.top % 8 == 0 && m.top + m.topsize == g.limit < WORD
    ensures m.head[m.top].pinuse && !m.head[m.top].cinuse
    ensures m.top !in Binned(g) && m.top != m.dv && m.top !in loose
  {
    ChunkFacts(m.head, m.foot, g.chunks, SpanOf(m, g), m.top);
    assert PlacedAt(m, g, loose, m.top);
  }

  /** The bins do not notice changes to the head words of chunks they do not hold. */
  lemma {:induction false} BinsFrame(m: Mem, g: Plan, loose: set<Addr>, m': Mem)
    requires Inv(m, g, loose) && m'.small == m.small && m'.tree == m.tree
    requires forall a | a in Binned(g) && a in m.head :: a in m'.head && m'.head[a].size == m.head[a].size
    ensures Bins(m', g)
  {
    forall a | a in Binned(g)
      ensures a in m.head
    {
      FreeFacts(m, g, loose, a);
    }
    SmallBins.Frame(m.small, SizesOf(m.head), SizesOf(m'.head), g.ls);
    TreeBins.Frame(m.tree, SizesOf(m.head), SizesOf(m'.head), g.vs);
  }

  // ---- Steps on bins ----

  /** A chunk leaves its bin and is in transit. */
  lemma {:induction false} UnlinkStep(m: Mem, g: Plan, loose: set<Addr>, p: Addr, m': Mem, g': Plan)
    requires Inv(m, g, loose) && p in Binned(g)
    requires m' == m.(small := m'.small, tree := m'.tree) && g' == g.(ls := g'.ls, vs := g'.vs)
    requires Bins(m', g') && Binned(g') == Binned(g) - {p}
    ensures Inv(m', g', loose + {p}) && Live(m', g') == Live(m, g)
  {
    FreeFacts(m, g, loose, p);
    var loose' := loose + {p};
    forall q
      ensures PlacedAt(m', g', loose', q)
    {
      assert PlacedAt(m, g, loose, q);
    }
  }

  /** A chunk in transit enters the bin of its size. */
  lemma {:induction false} InsertStep(m: Mem, g: Plan, loose: set<Addr>, p: Addr, m': Mem, g': Plan)
    requires Inv(m, g, loose) && p in loose
    requires m' == m.(small := m'.small, tree := m'.tree) && g' == g.(ls := g'.ls, vs := g'.vs)
    requires Bins(m', g') && Binned(g') == Binned(g) + {p}
    ensures Inv(m', g', loose - {p}) && Live(m', g') == Live(m, g)
  {
    var loose' := loose - {p};
    forall q
      ensures PlacedAt(m', g', loose', q)
    {
      assert PlacedAt(m, g, loose, q);
    }
  }

  /** `dv` is given up and is in transit. */
  lemma {:induction false} DropDv(m: Mem, g: Plan, loose: set<Addr>)
    requires Inv(m, g, loose) && m.dv != 0
    ensures Inv(m.(dv := 0, dvsize := 0), g, loose + {m.dv}) && Live(m.(dv := 0, dvsize := 0), g) == Live(m, g)
  {
    FreeFacts(m, g, loose, m.dv);
    var m', loose' := m.(dv := 0, dvsize := 0), loose + {m.dv};
    assert 0 !in Binned(g) by { if 0 in Binned(g) { FreeFacts(m, g, loose, 0); } }
    forall q
      ensures PlacedAt(m', g, loose', q)
    {
      assert PlacedAt(m, g, loose, q);
    }
  }

  /** A chunk in transit becomes `dv`. */
  lemma {:induction false} TakeDv(m: Mem, g: Plan, loose: set<Addr>, p: Addr)
    requires Inv(m, g, loose) && m.dv == 0 && p in loose && p in m.head
    ensures var m' := m.(dv := p, dvsize := m.head[p].size);
            Inv(m', g, loose - {p}) && Live(m', g) == Live(m, g)
  {
    FreeFacts(m, g, loose, p);
    var m', loose' := m.(dv := p, dvsize := m.head[p].size), loose - {p};
    forall q
      ensures PlacedAt(m', g, loose', q)
    {
      assert PlacedAt(m, g, loose, q);
    }
  }

  // ---- Steps on tags ----

  /** A chunk in transit is used as a whole: `set_inuse_and_pinuse`. */
  lemma {:induction false} UseStep(m: Mem, g: Plan, loose: set<Addr>, p: Addr, m': Mem)
    requires Inv(m, g, loose) && p in loose && p in m.head && p + m.head[p].size in m.head
    requires m' == m.(head := m.head[p := Head(m.head[p].size, true, true)]
                                    [p + m.head[p].size := m.head[p + m.head[p].size].(pinuse := true)])
    ensures Inv(m', g, loose - {p})
    ensures p !in Live(m, g) && Live(m', g) == Live(m, g)[p := m.head[p].size]
  {
    FreeFacts(m, g, loose, p);
    TakeTiled(m.head, m.foot, g.chunks, SpanOf(m, g), p, m'.head);
    BinsFrame(m, g, loose, m');
    TopFacts(m, g, loose);
    var loose' := loose - {p};
    forall q
      ensures PlacedAt(m', g, loose', q)
    {
      assert PlacedAt(m, g, loose, q);
    }
  }

  /** A chunk in transit is split: the first part is used, the rest is in transit. */
  lemma {:induction false} SplitStep(m: Mem, g: Plan, loose: set<Addr>, p: Addr, nb: nat, m': Mem, g': Plan)
    requires Inv(m, g, loose) && p in loose && p in m.head
    requires nb % 8 == 0 && nb >= MIN_CHUNK_SIZE && nb + MIN_CHUNK_SIZE <= m.head[p].size
    requires m' == m.(head := m.head[p := Head(nb, true, true)][p + nb := Head(m.head[p].size - nb, false, true)],
                      foot := m.foot[p + m.head[p].size := m.head[p].size - nb])
    requires g' == g.(chunks := g.chunks + {p + nb})
    ensures Inv(m', g', loose - {p} + {p + nb})
    ensures p !in Live(m, g) && Live(m', g') == Live(m, g)[p := nb]
  {
    FreeFacts(m, g, loose, p);
    SplitTiled(m.head, m.foot, g.chunks, SpanOf(m, g), p, nb, m'.head, m'.foot);
    var r := p + nb;
    assert PlacedAt(m, g, loose, r);
    BinsFrame(m, g, loose, m');
    TopFacts(m, g, loose);
    var loose' := loose - {p} + {r};
    forall q
      ensures PlacedAt(m', g', loose', q)
    {
      assert PlacedAt(m, g, loose, q);
    }
  }

  /** The start of `top` is used. */
  lemma {:induction false} SplitTopStep(m: Mem, g: Plan, nb: nat, m': Mem, g': Plan)
    requires Inv(m, g, {}) && nb % 8 == 0 && MIN_CHUNK_SIZE <= nb < m.topsize
    requires m' == m.(head := m.head[m.top := Head(nb, true, true)][m.top + nb := Head(m.topsize - nb, false, true)],
                      top := m.top + nb, topsize := m.topsize - nb)
    requires g' == g.(chunks := g.chunks + {m.top + nb})
    ensures Inv(m', g', {})
    ensures m.top !in Live(m, g) && Live(m', g') == Live(m, g)[m.top := nb]
  {
    TopFacts(m, g, {});
    SplitTopTiled(m.head, m.foot, g.chunks, SpanOf(m, g), nb, m'.head);
    var r := m.top + nb;
    assert PlacedAt(m, g, {}, r);
    BinsFrame(m, g, {}, m');
    forall q
      ensures PlacedAt(m', g', {}, q)
    {
      assert PlacedAt(m, g, {}, q);
    }
  }

  /** The system extends the segment contiguously: `top` grows. */
  lemma {:induction false} ExtendStep(m: Mem, g: Plan, n: nat, m': Mem, g': Plan)
    requires Inv(m, g, {}) && n % 8 == 0 && g.limit + n < WORD
    requires m' == m.(head := m.head[m.top := Head(m.topsize + n, false, true)], topsize := m.topsize + n)
    requires g' == g.(limit := g.limit + n)
    ensures Inv(m', g', {}) && Live(m', g') == Live(m, g)
  {
    TopFacts(m, g, {});
    ExtendTiled(m.head, m.foot, g.chunks, SpanOf(m, g), n, m'.head);
    BinsFrame(m, g, {}, m');
    forall q
      ensures PlacedAt(m', g', {}, q)
    {
      assert PlacedAt(m, g, {}, q);
    }
  }

  // ---- free ----

  /** The chunk `p` in use, with the free neighbours that are in transit, spans `[a, e)`. */
  ghost predicate Run(m: Mem, g: Plan, loose: set<Addr>, p: Addr, a: Addr, e: Addr) {
    && Inv(m, g, loose)
    && p in g.chunks && p in m.head && m.head[p].cinuse && a in m.head
    && var n := p + m.head[p].size;
    && (a == p || (a in loose && a + m.head[a].size == p))
    && (e == n || (n in loose && n in m.head && n + m.head[n].size == e))
    && loose == (if a == p then {} else {a}) + (if e == n then {} else {n})
    && m.head[a].pinuse
  }

  lemma {:induction false} RunFacts(m: Mem, g: Plan, loose: set<Addr>, p: Addr, a: Addr, e: Addr)
    requires Run(m, g, loose, p, a, e)
    ensures p != m.top && a in g.chunks && a != m.top && a <= p < e && a + MIN_CHUNK_SIZE <= e
    ensures e in g.chunks && e in m.head && 0 < a && a % 8 == 0
    ensures forall q | q in g.chunks && a < q < e :: q == p || q == p + m.head[p].size
    ensures e != p + m.head[p].size ==> e != m.top && m.head[e].cinuse && !m.head[e].pinuse
    ensures e == p + m.head[p].size ==> m.head[e].pinuse
  {
    var n := p + m.head[p].size;
    TopFacts(m, g, loose);
    ChunkFacts(m.head, m.foot, g.chunks, SpanOf(m, g), p);
    if a != p { FreeFacts(m, g, loose, a); }
    if e != n { FreeFacts(m, g, loose, n); }
    forall q | q in g.chunks && a < q < e
      ensures q == p || q == n
    {
      assert a in g.chunks && p in g.chunks && n in g.chunks;
    }
  }

  /** Chunks in bins, and `dv`, are not part of the run. */
  lemma {:induction false} MergeKeeps(m: Mem, g: Plan, loose: set<Addr>, p: Addr, a: Addr, e: Addr)
    requires Run(m, g, loose, p, a, e)
    ensures forall q | q in Binned(g) || (q == m.dv && m.dv != 0) :: q in g.chunks && (q < a || e <= q)
  {
    RunFacts(m, g, loose, p, a, e);
    forall q | q in Binned(g) || (q == m.dv && m.dv != 0)
      ensures q in g.chunks && (q < a || e <= q)
    {
      assert PlacedAt(m, g, loose, q) && PlacedAt(m, g, loose, p);
    }
  }

  /** Within the run only `p` is in use. */
  lemma {:induction false} RunLive(m: Mem, g: Plan, loose: set<Addr>, p: Addr, a: Addr, e: Addr, q: Addr)
    requires Run(m, g, loose, p, a, e)
    ensures q in g.chunks && a <= q < e && q != p ==> q in m.head && !m.head[q].cinuse
    ensures q in loose ==> a <= q < e
    ensures p !in loose
  {
    RunFacts(m, g, loose, p, a, e);
    assert PlacedAt(m, g, loose, p);
    var n := p + m.head[p].size;
    if a != p { FreeFacts(m, g, loose, a); }
    if e != n { FreeFacts(m, g, loose, n); }
  }

  ghost predicate Merged(m: Mem, g: Plan, loose: set<Addr>, p: Addr, a: Addr, e: Addr, m': Mem, g': Plan) {
    && Run(m, g, loose, p, a, e) && e in m.head && e != m.top && m.head[e].cinuse && a <= e
    && m' == m.(head := m.head[a := Head(e - a, false, true)][e := m.head[e].(pinuse := false)],
                foot := m.foot[e := e - a])
    && g' == g.(chunks := Coalesced(g.chunks, a, e))
  }

  lemma {:induction false} MergePlaced(m: Mem, g: Plan, loose: set<Addr>, p: Addr, a: Addr, e: Addr, m': Mem, g': Plan, q: Addr)
    requires Merged(m, g, loose, p, a, e, m', g')
    ensures PlacedAt(m', g', {a}, q)
    ensures q in Live(m', g') <==> q in Live(m, g) && q != p
    ensures q in Live(m', g') ==> m'.head[q].size == m.head[q].size
  {
    RunFacts(m, g, loose, p, a, e);
    RunLive(m, g, loose, p, a, e, q);
    MergeKeeps(m, g, loose, p, a, e);
    assert PlacedAt(m, g, loose, q);
  }

  /** The run becomes one free chunk, in transit. */
  lemma {:induction false} MergeStep(m: Mem, g: Plan, loose: set<Addr>, p: Addr, a: Addr, e: Addr, m': Mem, g': Plan)
    requires Merged(m, g, loose, p, a, e, m', g')
    ensures Inv(m', g', {a})
    ensures p in Live(m, g) && Live(m', g') == Live(m, g) - {p}
  {
    RunFacts(m, g, loose, p, a, e);
    MergeTiled(m.head, m.foot, g.chunks, SpanOf(m, g), a, e, m'.head, m'.foot);
    TopFacts(m, g, loose);
    MergeKeeps(m, g, loose, p, a, e);
    assert a !in Binned(g) && a != m.dv && e !in Binned(g) && e != m.dv by {
      assert PlacedAt(m, g, loose, a) && PlacedAt(m, g, loose, e);
    }
    BinsFrame(m, g, loose, m');
    forall q
      ensures PlacedAt(m', g', {a}, q)
      ensures q in Live(m', g') <==> q in Live(m, g) && q != p
      ensures q in Live(m', g') ==> m'.head[q].size == m.head[q].size
    {
      MergePlaced(m, g, loose, p, a, e, m', g', q);
    }
  }

  /** The same when the chunk after `p` is free: the flag of the chunk at `e` is clear already. */
  lemma {:induction false} FuseStep(m: Mem, g: Plan, loose: set<Addr>, p: Addr, a: Addr, e: Addr, m': Mem, g': Plan)
    requires Run(m, g, loose, p, a, e) && e != p + m.head[p].size && a <= e
    requires m' == m.(head := m.head[a := Head(e - a, false, true)], foot := m.foot[e := e - a])
    requires g' == g.(chunks := Coalesced(g.chunks, a, e))
    ensures Inv(m', g', {a}) && a in m'.head && m'.head[a].size == e - a
    ensures p in Live(m, g) && Live(m', g') == Live(m, g) - {p}
  {
    RunFacts(m, g, loose, p, a, e);
    assert m'.head == m.head[a := Head(e - a, false, true)][e := m.head[e].(pinuse := false)];
    MergeStep(m, g, loose, p, a, e, m', g');
  }

  /** The fused chunk is or becomes `dv`. */
  lemma {:induction false} FuseDv(m: Mem, g: Plan, loose: set<Addr>, p: Addr, a: Addr, e: Addr, m': Mem, g': Plan)
    requires Run(m, g, loose, p, a, e) && e != p + m.head[p].size && a <= e && m.dv == 0
    requires m' == m.(dv := a, dvsize := e - a, head := m.head[a := Head(e - a, false, true)], foot := m.foot[e := e - a])
    requires g' == g.(chunks := Coalesced(g.chunks, a, e))
    ensures Inv(m', g', {}) && p in Live(m, g) && Live(m', g') == Live(m, g) - {p}
  {
    var m1 := m'.(dv := 0, dvsize := m.dvsize);
    FuseStep(m, g, loose, p, a, e, m1, g');
    TakeDv(m1, g', {a}, a);
    assert {a} - {a} == {};
  }

  ghost predicate MergedTop(m: Mem, g: Plan, loose: set<Addr>, p: Addr, a: Addr, m': Mem, g': Plan) {
    && Run(m, g, loose, p, a, m.top) && p + m.head[p].size == m.top && a <= m.top
    && m' == m.(head := m.head[a := Head(m.topsize + (m.top - a), false, true)],
                top := a, topsize := m.topsize + (m.top - a))
    && g' == g.(chunks := Coalesced(g.chunks, a, g.limit))
  }

  lemma {:induction false} MergeTopPlaced(m: Mem, g: Plan, loose: set<Addr>, p: Addr, a: Addr, m': Mem, g': Plan, q: Addr)
    requires MergedTop(m, g, loose, p, a, m', g')
    ensures PlacedAt(m', g', {}, q)
    ensures q in Live(m', g') <==> q in Live(m, g) && q != p
    ensures q in Live(m', g') ==> m'.head[q].size == m.head[q].size
  {
    RunFacts(m, g, loose, p, a, m.top);
    RunLive(m, g, loose, p, a, m.top, q);
    TopFacts(m, g, loose);
    MergeKeeps(m, g, loose, p, a, m.top);
    assert PlacedAt(m, g, loose, q);
    if q in g.chunks { ChunkFacts(m.head, m.foot, g.chunks, SpanOf(m, g), q); }
  }

  /** The run and `top` behind it become the new `top`. */
  lemma {:induction false} MergeTopStep(m: Mem, g: Plan, loose: set<Addr>, p: Addr, a: Addr, m': Mem, g': Plan)
    requires MergedTop(m, g, loose, p, a, m', g')
    ensures Inv(m', g', {})
    ensures p in Live(m, g) && Live(m', g') == Live(m, g) - {p}
  {
    RunFacts(m, g, loose, p, a, m.top);
    TopFacts(m, g, loose);
    MergeTopTiled(m.head, m.foot, g.chunks, SpanOf(m, g), a, m'.head);
    MergeKeeps(m, g, loose, p, a, m.top);
    assert a !in Binned(g) && a != m.dv by { assert PlacedAt(m, g, loose, a); }
    BinsFrame(m, g, loose, m');
    forall q
      ensures PlacedAt(m', g', {}, q)
      ensures q in Live(m', g') <==> q in Live(m, g) && q != p
      ensures q in Live(m', g') ==> m'.head[q].size == m.head[q].size
    {
      MergeTopPlaced(m, g, loose, p, a, m', g', q);
    }
  }

  /** The state with `dv` given up if it is the chunk `a`. */
  ghost function Lifted(m: Mem, a: Addr): Mem {
    if a == m.dv then m.(dv := 0, dvsize := 0) else m
  }

  /** The run of `p` and, if it is free, of the chunk `a` before it; `a` is in transit or is `dv`. */
  ghost predicate Back(m: Mem, g: Plan, loose: set<Addr>, p: Addr, a: Addr) {
    && Inv(m, g, loose) && p in g.chunks && p in m.head && m.head[p].cinuse && a != 0
    && loose == (if a == p || a == m.dv then {} else {a})
    && Run(Lifted(m, a), g, if a == p then {} else {a}, p, a, p + m.head[p].size)
  }

  /** The chunk before `p`, if free, is where the footer says, and is in a bin or is `dv`. */
  lemma {:induction false} BackStart(m: Mem, g: Plan, p: Addr)
    requires Inv(m, g, {}) && p in Live(m, g)
    ensures p != m.dv && (m.head[p].pinuse ==> Back(m, g, {}, p, p))
    ensures !m.head[p].pinuse ==>
              && p in m.foot && m.foot[p] <= p && var a := p - m.foot[p];
              && a in m.head && m.head[a].size == m.foot[p] && a != 0
              && (a in Binned(g) || a == m.dv) && (a == m.dv ==> Back(m, g, {}, p, a))
  {
    ChunkFacts(m.head, m.foot, g.chunks, SpanOf(m, g), p);
    assert PlacedAt(m, g, {}, p);
    if !m.head[p].pinuse {
      var a := Predecessor(m.head, m.foot, g.chunks, SpanOf(m, g), p);
      assert PlacedAt(m, g, {}, a);
      FreeFacts(m, g, {}, a);
      if a == m.dv {
        DropDv(m, g, {});
        assert {} + {a} == {a};
      }
    }
  }

  /** With the free chunk `a` before `p` taken from its bin. */
  lemma {:induction false} BackUnlinked(m: Mem, g: Plan, p: Addr, a: Addr)
    requires Inv(m, g, {a}) && p in Live(m, g) && a in m.head && a + m.head[a].size == p
    ensures Back(m, g, {a}, p, a)
  {
    FreeFacts(m, g, {a}, a);
    assert PlacedAt(m, g, {a}, p);
  }

  /** What `dlfree` may read of the chunk after `p`. */
  lemma {:induction false} Forward(m: Mem, g: Plan, loose: set<Addr>, p: Addr, a: Addr)
    requires Back(m, g, loose, p, a)
    ensures var n := p + m.head[p].size;
            && n in g.chunks && n in m.head && m.head[n].pinuse && n != 0 && a < n && n != a && n !in loose
            && (!m.head[n].cinuse && n != m.top ==>
                 && (n == m.dv || n in Binned(g)) && n + m.head[n].size in m.head
                 && n + m.head[n].size != m.top && m.head[n + m.head[n].size].cinuse)
            && (m.head[n].cinuse ==> n != m.top)
  {
    var m1, loose1, n := Lifted(m, a), if a == p then {} else {a}, p + m.head[p].size;
    RunFacts(m1, g, loose1, p, a, n);
    RunLive(m1, g, loose1, p, a, n, n);
    ChunkFacts(m.head, m.foot, g.chunks, SpanOf(m, g), n);
    TopFacts(m, g, loose);
    assert PlacedAt(m, g, loose, n);
    if !m.head[n].cinuse && n != m.top { FreeFacts(m, g, loose, n); }
  }

  /** With the free chunk `n` after `p` in transit too. */
  lemma {:induction false} Both(m: Mem, g: Plan, loose: set<Addr>, p: Addr, a: Addr, m2: Mem, g2: Plan, n: Addr)
    requires Back(m, g, loose, p, a) && n == p + m.head[p].size && n in m.head
    requires m2.head == m.head && m2.dv == m.dv && g2.chunks == g.chunks && m2.top == m.top && n != m.dv && n != a
    requires Inv(m2, g2, loose + {n})
    ensures Run(Lifted(m2, a), g2, (if a == p then {} else {a}) + {n}, p, a, n + m.head[n].size)
  {
    FreeFacts(m2, g2, loose + {n}, n);
    if a == m.dv {
      FreeFacts(m, g, loose, a);
      assert loose + {n} == {n};
      DropDv(m2, g2, {n});
      assert {n} + {a} == {a} + {n};
    }
  }

  /** Freeing the chunk before `dv`: both chunks are in transit. */
  lemma {:induction false} BothDv(m: Mem, g: Plan, loose: set<Addr>, p: Addr, a: Addr)
    requires Back(m, g, loose, p, a) && m.dv == p + m.head[p].size
    ensures m.dv in m.head && m.dvsize == m.head[m.dv].size > 0 && a < m.dv
    ensures Run(m.(dv := 0, dvsize := 0), g, loose + {m.dv}, p, a, m.dv + m.dvsize)
  {
    Forward(m, g, loose, p, a);
    FreeFacts(m, g, loose, m.dv);
    DropDv(m, g, loose);
  }

  /** `set_free_with_pinuse` on the run, the next chunk being in use. */
  lemma {:induction false} FreeStep(m: Mem, g: Plan, loose: set<Addr>, p: Addr, a: Addr, n: Addr, m': Mem, g': Plan)
    requires Back(m, g, loose, p, a) && a != m.dv && n == p + m.head[p].size && n in m.head && m.head[n].cinuse && a <= n
    requires m' == m.(head := m.head[n := m.head[n].(pinuse := false)][a := Head(n - a, false, true)], foot := m.foot[n := n - a])
    requires g' == g.(chunks := Coalesced(g.chunks, a, n))
    ensures Inv(m', g', {a}) && p in Live(m, g) && Live(m', g') == Live(m, g) - {p}
  {
    Forward(m, g, loose, p, a);
    assert m'.head == m.head[a := Head(n - a, false, true)][n := m.head[n].(pinuse := false)];
    MergeStep(m, g, loose, p, a, n, m', g');
  }

  /** Freeing the chunk before `top`. */
  lemma {:induction false} IntoTopStep(m: Mem, g: Plan, loose: set<Addr>, p: Addr, a: Addr, m': Mem, g': Plan)
    requires Back(m, g, loose, p, a) && m.top == p + m.head[p].size && a <= m.top
    requires var s := m.topsize + (m.top - a);
             m' == Lifted(m, a).(head := m.head[a := Head(s, false, true)], top := a, topsize := s)
    requires g' == g.(chunks := Coalesced(g.chunks, a, g.limit))
    ensures Inv(m', g', {}) && p in Live(m, g) && Live(m', g') == Live(m, g) - {p}
  {
    MergeTopStep(Lifted(m, a), g, if a == p then {} else {a}, p, a, m', g');
  }

  /** Freeing the chunk after `dv`, the next one being in use. */
  lemma {:induction false} GrowDvStep(m: Mem, g: Plan, p: Addr, n: Addr, m': Mem, g': Plan)
    requires Back(m, g, {}, p, m.dv) && n == p + m.head[p].size && n in m.head && m.head[n].cinuse && m.dv <= n
    requires var s := n - m.dv;
             m' == m.(dvsize := s, head := m.head[n := m.head[n].(pinuse := false)][m.dv := Head(s, false, true)],
                      foot := m.foot[n := s])
    requires g' == g.(chunks := Coalesced(g.chunks, m.dv, n))
    ensures Inv(m', g', {}) && p in Live(m, g) && Live(m', g') == Live(m, g) - {p}
  {
    var a, m1 := m.dv, m'.(dv := 0, dvsize := 0);
    Forward(m, g, {}, p, a);
    assert m'.head == m.head[a := Head(n - a, false, true)][n := m.head[n].(pinuse := false)];
    MergeStep(Lifted(m, a), g, if a == p then {} else {a}, p, a, n, m1, g');
    TakeDv(m1, g', {a}, a);
    assert {a} - {a} == {};
  }

  /** The start of `dv` is used, the rest stays `dv`. */
  lemma {:induction false} SplitDvStep(m: Mem, g: Plan, nb: nat, m': Mem, g': Plan)
    requires Inv(m, g, {}) && m.dv != 0 && nb % 8 == 0 && nb >= MIN_CHUNK_SIZE && nb + MIN_CHUNK_SIZE <= m.dvsize
    requires var s := m.dvsize - nb;
             m' == m.(dv := m.dv + nb, dvsize := s, foot := m.foot[m.dv + m.dvsize := s],
                      head := m.head[m.dv := Head(nb, true, true)][m.dv + nb := Head(s, false, true)])
    requires g' == g.(chunks := g.chunks + {m.dv + nb})
    ensures Inv(m', g', {}) && m.dv !in Live(m, g) && Live(m', g') == Live(m, g)[m.dv := nb]
  {
    var p, r := m.dv, m.dv + nb;
    FreeFacts(m, g, {}, p);
    DropDv(m, g, {});
    assert {} + {p} == {p};
    var m1, m2 := m.(dv := 0, dvsize := 0), m'.(dv := 0, dvsize := 0);
    SplitStep(m1, g, {p}, p, nb, m2, g');
    assert {p} - {p} + {r} == {r};
    TakeDv(m2, g', {r}, r);
    assert {r} - {r} == {};
  }

  // ---- Small and large chunks ----

  /** `is_small`. */
  predicate IsSmall(s: nat) {
    s / 8 < 32
  }

  lemma {:induction false} SmallOrLarge(m: Mem, g: Plan, loose: set<Addr>, p: Addr)
    requires Inv(m, g, loose) && p in Binned(g) && p in m.head
    ensures p in SizesOf(m.head) && SizesOf(m.head)[p] == m.head[p].size
    ensures p in SmallBins.Held(g.ls) <==> IsSmall(m.head[p].size)
    ensures p in TreeBins.Held(g.vs) <==> !IsSmall(m.head[p].size)
    ensures p in TreeBins.Held(g.vs) ==> p in m.tree.nodes
  {
    if p in SmallBins.Held(g.ls) { SmallBins.HeldBySize(m.small, SizesOf(m.head), g.ls, p); }
    if p in TreeBins.Held(g.vs) { TreeBins.HeldIn(m.tree, SizesOf(m.head), g.vs, p); }
  }

  lemma {:induction false} NotHeld(m: Mem, g: Plan, loose: set<Addr>, p: Addr)
    requires Inv(m, g, loose) && p in loose
    ensures p !in SmallBins.Held(g.ls) && p !in TreeBins.Held(g.vs)
  {
  }

  // ---- memalign ----

  ghost predicate CutUp(m: Mem, g: Plan, p: Addr, n: nat, m': Mem, g': Plan) {
    && Inv(m, g, {}) && p in Live(m, g) && n % 8 == 0 && MIN_CHUNK_SIZE <= n && n + MIN_CHUNK_SIZE <= m.head[p].size
    && m' == m.(head := m.head[p := m.head[p].(size := n)][p + n := Head(m.head[p].size - n, true, true)])
    && g' == g.(chunks := g.chunks + {p + n})
  }

  lemma {:induction false} CutPlaced(m: Mem, g: Plan, p: Addr, n: nat, m': Mem, g': Plan, q: Addr)
    requires CutUp(m, g, p, n, m', g') && p + n !in g.chunks
    ensures PlacedAt(m', g', {}, q)
    ensures q in Live(m', g') <==> q in Live(m, g) || q == p + n
    ensures q in Live(m, g) && q != p ==> m'.head[q].size == m.head[q].size
  {
    assert PlacedAt(m, g, {}, q);
  }

  lemma {:induction false} CutLive(m: Mem, g: Plan, p: Addr, n: nat, m': Mem, g': Plan)
    requires CutUp(m, g, p, n, m', g') && p + n !in g.chunks
    ensures p + n !in Live(m, g) && Live(m', g') == Live(m, g)[p := n][p + n := Live(m, g)[p] - n]
  {
    forall q
      ensures q in Live(m', g') <==> q in Live(m, g) || q == p + n
      ensures q in Live(m, g) && q != p ==> m'.head[q].size == m.head[q].size
    {
      CutPlaced(m, g, p, n, m', g', q);
    }
  }

  /** A chunk in use is cut in two chunks in use. */
  lemma {:induction false} CutStep(m: Mem, g: Plan, p: Addr, n: nat, m': Mem, g': Plan)
    requires CutUp(m, g, p, n, m', g')
    ensures p + n !in g.chunks && Inv(m', g', {})
  {
    TopFacts(m, g, {});
    ChunkFacts(m.head, m.foot, g.chunks, SpanOf(m, g), p);
    CutTiled(m.head, m.foot, g.chunks, SpanOf(m, g), p, n, m'.head);
    assert PlacedAt(m, g, {}, p) && PlacedAt(m, g, {}, p + n);
    BinsFrame(m, g, {}, m');
    forall q
      ensures PlacedAt(m', g', {}, q)
    {
      CutPlaced(m, g, p, n, m', g', q);
    }
  }
}
