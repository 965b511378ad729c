/** The allocator: `dlmalloc`, `dlfree` and their helpers, on one contiguous segment. */
module Arena {
  import opened Lists
  import opened Words
  import opened BinMap
  import opened Rings
  import opened Tiling
  import opened Layout
  import opened Alignment
  import opened Payload
  import SmallBins
  import TreeBins

  /** The chunk `p` is new, its size serves `nb` without waste of a whole chunk, and nothing else changed. */
  ghost predicate Allocated(old_: map<Addr, nat>, new_: map<Addr, nat>, p: Addr, nb: nat) {
    && p !in old_ && p in new_ && new_ == old_[p := new_[p]]
    && nb <= new_[p] < nb + MIN_CHUNK_SIZE
  }

  const MIN_REQUEST: nat := 11
  const MAX_SMALL_REQUEST: nat := 244
  const MAX_REQUEST: nat := 0xFFFF_FFC0
  const MAX_SIZE_T: nat := WORD - 1

  /** `pad_request`: the overhead word is added and the result rounded up to a multiple of 8. */
  function PadRequest(bytes: nat): nat {
    (bytes + 11) / 8 * 8
  }

  /** `request2size`. */
  function RequestSize(bytes: nat): (nb: nat)
    ensures nb >= MIN_CHUNK_SIZE && nb % 8 == 0 && bytes + 4 <= nb
    ensures nb == MIN_CHUNK_SIZE || nb < bytes + 12
  {
    if bytes < MIN_REQUEST then MIN_CHUNK_SIZE else PadRequest(bytes)
  }

  /** A free chunk, other than `top`, that can serve `nb`. */
  ghost predicate Fits(m: Mem, g: Plan, nb: nat, q: Addr) {
    IsFree(m, g, q) && nb <= m.head[q].size
  }

  /** `p` is a smallest free chunk, other than `top`, that can serve `nb`. */
  ghost predicate BestFit(m: Mem, g: Plan, nb: nat, p: Addr) {
    && Fits(m, g, nb, p)
    && forall q | Fits(m, g, nb, q) :: m.head[p].size <= m.head[q].size
  }

  ghost predicate NoneFits(m: Mem, g: Plan, nb: nat) {
    forall q :: !Fits(m, g, nb, q)
  }

  /** Why `dlmalloc` fails: the request is too big, or neither the free chunks nor `top` with `grow` bytes more serve it. */
  ghost predicate Refused(m: Mem, g: Plan, bytes: nat, grow: nat) {
    bytes < MAX_REQUEST ==> NoneFits(m, g, RequestSize(bytes)) && m.topsize + grow <= RequestSize(bytes)
  }

  /** What `internal_memalign` asks of `dlmalloc`. */
  function AlignedRequest(bytes: nat, a: nat): (r: nat)
    ensures a % 8 == 0 ==> RequestSize(r) == RequestSize(bytes) + a + MIN_CHUNK_SIZE
  {
    RequestSize(bytes) + a + MIN_CHUNK_SIZE - 4
  }

  /** Why `dlmemalign` fails: the request is too big, or what it asks of `dlmalloc` is refused. */
  ghost predicate RefusedAligned(m: Mem, g: Plan, alignment: nat, bytes: nat, grow: nat) {
    var a := RoundUp(8, alignment);
    if alignment <= 8 then Refused(m, g, bytes, grow)
    else bytes < MAX_REQUEST - a ==> Refused(m, g, AlignedRequest(bytes, a), grow)
  }

  /** Every chunk in a bin that can serve `nb` has at least `s` bytes. */
  ghost predicate BinsFrom(m: Mem, g: Plan, nb: nat, s: nat) {
    forall q | q in Binned(g) && q in m.head && nb <= m.head[q].size :: s <= m.head[q].size
  }

  /** Below this size a chunk of a small bin serves `nb` without being split. */
  function WholeBelow(nb: nat): nat {
    if nb + MIN_CHUNK_SIZE <= 256 then nb + MIN_CHUNK_SIZE else 256
  }

  /**
   * The choice for small requests: a smallest fitting chunk of the bins, if it is a small one that need not be split;
   * otherwise `dv` comes first if it is large enough.
   */
  ghost predicate SmallChoice(m: Mem, g: Plan, nb: nat, p: Addr) {
    && Fits(m, g, nb, p)
    && (p != m.dv ==> BinsFrom(m, g, nb, m.head[p].size) && (m.head[p].size < WholeBelow(nb) || m.dvsize < nb))
    && (p == m.dv ==> BinsFrom(m, g, nb, WholeBelow(nb)))
    && FirstInLine(m, g, p)
  }

  /** Of equal small chunks in the bins the one freed last is used, and of equal tree chunks the one freed first. */
  ghost predicate FirstInLine(m: Mem, g: Plan, p: Addr) {
    && (p in SmallBins.Held(g.ls) ==> FirstOfBin(m, g, p))
    && (p in TreeBins.Held(g.vs) ==> TreeBins.Oldest(SizesOf(m.head), g.vs, p))
  }

  /** `p` is at the front of the small bin of its size, where the chunk freed last is. */
  ghost predicate FirstOfBin(m: Mem, g: Plan, p: Addr) {
    p in m.head && m.head[p].size / 8 < |g.ls| && g.ls[m.head[p].size / 8] != [] && p == g.ls[m.head[p].size / 8][0]
  }

  /** The choice for large requests: a best fit, and `dv` if it is one. */
  ghost predicate LargeChoice(m: Mem, g: Plan, nb: nat, p: Addr) {
    && BestFit(m, g, nb, p)
    && (p != m.dv ==> m.dvsize < nb || m.head[p].size < m.dvsize)
    && FirstInLine(m, g, p)
  }

  /** The allocation policy: `top` only when no other free chunk fits; for large requests, a best fit. */
  ghost predicate Chosen(m: Mem, g: Plan, bytes: nat, nb: nat, p: Addr) {
    if p == m.top then NoneFits(m, g, nb)
    else if bytes <= MAX_SMALL_REQUEST then SmallChoice(m, g, nb, p)
    else LargeChoice(m, g, nb, p)
  }

  /** How much of the chunk `p` a request of `nb` bytes gets: no more than it needs, unless the rest could not be a chunk. */
  ghost function SizeGiven(m: Mem, nb: nat, p: Addr): nat {
    if p == m.top || nb + MIN_CHUNK_SIZE <= Size(m.head, p) then nb else Size(m.head, p)
  }

  ghost predicate SameDv(m: Mem, m': Mem) {
    m'.dv == m.dv && m'.dvsize == m.dvsize
  }

  ghost predicate DvIs(m': Mem, r: Addr, rsize: nat) {
    m'.dv == r && m'.dvsize == rsize
  }

  /** What is left of a chunk of `size` bytes at `p` becomes `dv` if it can be a chunk. */
  ghost predicate RestIsDv(p: Addr, size: nat, nb: nat, m': Mem) {
    nb + MIN_CHUNK_SIZE <= size && DvIs(m', p + nb, size - nb)
  }

  /**
   * The designated victim after an allocation of the chunk `p`: the rest of `dv` or none if it was served from there, the
   * rest of the chunk if a small request split another one, and otherwise the same as before.
   */
  ghost predicate DvAfter(m: Mem, bytes: nat, nb: nat, p: Addr, m': Mem) {
    if p == 0 || p == m.top then SameDv(m, m')
    else if p == m.dv then RestIsDv(p, m.dvsize, nb, m') || (m.dvsize < nb + MIN_CHUNK_SIZE && DvIs(m', 0, 0))
    else if bytes <= MAX_SMALL_REQUEST && p in m.head && nb + MIN_CHUNK_SIZE <= m.head[p].size then RestIsDv(p, m.head[p].size, nb, m')
    else SameDv(m, m')
  }

  /** `top` after an allocation of the chunk `p`. */
  ghost predicate TopAfter(m: Mem, nb: nat, p: Addr, m': Mem) {
    m'.top == if p != 0 && p == m.top then p + nb else m.top
  }

  /** The system is asked only if neither a free chunk nor `top` serves the request. */
  ghost predicate Asked(m: Mem, g: Plan, bytes: nat) {
    bytes < MAX_REQUEST ==> NoneFits(m, g, RequestSize(bytes)) && m.topsize <= RequestSize(bytes)
  }

  /** Where a freed chunk `q` is merged with the free chunk before it, that is where the result starts. */
  function RunStart(m: Mem, q: Addr): Addr {
    if q in m.head && q in m.foot && !m.head[q].pinuse then q - m.foot[q] else q
  }

  /**
   * `dv` and `top` after the chunk `q` is freed: `top` absorbs a run that ends before it, `dv` one that it takes part in;
   * otherwise both stay.
   */
  ghost predicate FreedInto(m: Mem, q: Addr, m': Mem) {
    var a, n := RunStart(m, q), q + Size(m.head, q);
    if n == m.top then m'.top == a && (if a == m.dv then DvIs(m', 0, 0) else SameDv(m, m'))
    else
      && m'.top == m.top
      && if n == m.dv then DvIs(m', a, m.dvsize + (n - a))
         else if a == m.dv then DvIs(m', a, n - a + if n in m.head && !m.head[n].cinuse then m.head[n].size else 0)
         else SameDv(m, m')
  }

  /** What is known when the bins have nothing to offer, or nothing better than `dv`. */
  ghost predicate Declined(m: Mem, g: Plan, bytes: nat, nb: nat) {
    && (bytes <= MAX_SMALL_REQUEST ==>
          (nb <= m.dvsize && BinsFrom(m, g, nb, WholeBelow(nb))) || (m.dvsize < nb && NoneFits(m, g, nb)))
    && (MAX_SMALL_REQUEST < bytes < MAX_REQUEST ==> forall q | Fits(m, g, nb, q) :: nb <= m.dvsize <= m.head[q].size)
  }

  /** The chunk size for a request; a size that nothing can serve if the request is too big. */
  function PaddedSize(bytes: nat): (nb: nat)
    ensures bytes < MAX_REQUEST ==> nb == RequestSize(bytes) && nb < WORD
    ensures bytes <= MAX_SMALL_REQUEST ==> nb <= 248
    ensures MAX_SMALL_REQUEST < bytes < MAX_REQUEST ==> 256 <= nb
    ensures bytes >= MAX_REQUEST ==> nb == MAX_SIZE_T
  {
    if bytes <= MAX_SMALL_REQUEST then (if bytes < MIN_REQUEST then MIN_CHUNK_SIZE else PadRequest(bytes))
    else if bytes >= MAX_REQUEST then MAX_SIZE_T
    else PadRequest(bytes)
  }

  lemma {:induction false} WhereFree(m: Mem, g: Plan, q: Addr)
    requires Inv(m, g, {}) && IsFree(m, g, q)
    ensures q in TreeBins.Held(g.vs) || q in SmallBins.Held(g.ls) || (q == m.dv && m.dv != 0 && m.dvsize == m.head[q].size)
    ensures q in SizesOf(m.head) && SizesOf(m.head)[q] == m.head[q].size
    ensures q in SmallBins.Held(g.ls) ==> m.head[q].size < 256
    ensures q in TreeBins.Held(g.vs) ==> 256 <= m.head[q].size
  {
    assert PlacedAt(m, g, {}, q);
    if q in Binned(g) { SmallOrLarge(m, g, {}, q); }
  }

  /** Where the run of a chunk to be freed and of the free chunk before it starts. */
  lemma {:induction false} BackRun(m: Mem, g: Plan, loose: set<Addr>, q: Addr, p: Addr)
    requires Back(m, g, loose, q, p)
    ensures RunStart(m, q) == p && q in m.head
  {
    ChunkFacts(m.head, m.foot, g.chunks, SpanOf(m, g), q);
    if p != q {
      FreeFacts(Lifted(m, p), g, {p}, p);
      ChunkFacts(m.head, m.foot, g.chunks, SpanOf(m, g), p);
    }
  }

  lemma {:induction false} FreeChunk(m: Mem, g: Plan, p: Addr)
    requires Inv(m, g, {}) && IsFree(m, g, p)
    ensures 0 < p && p % 8 == 0
  {
    ChunkFacts(m.head, m.foot, g.chunks, SpanOf(m, g), p);
  }

  /** With no marked small bin from `i` on, every free small chunk is smaller than `8 * i`. */
  lemma {:induction false} NoSmallFrom(m: Mem, g: Plan, i: nat, q: Addr)
    requires Inv(m, g, {}) && i < 32 && (forall j: nat | i <= j < 32 :: !Marked(m.small.marks, j))
    requires q in SmallBins.Held(g.ls)
    ensures q in m.head && m.head[q].size < 8 * i
  {
    FreeFacts(m, g, {}, q);
    SmallBins.HeldBySize(m.small, SizesOf(m.head), g.ls, q);
    var j := m.head[q].size / 8;
    assert SmallBins.BinOk(m.small, SizesOf(m.head), g.ls, j);
  }

  lemma {:induction false} NoTreeChunks(m: Mem, g: Plan, q: Addr)
    requires Inv(m, g, {}) && m.tree.marks == 0
    ensures q !in TreeBins.Held(g.vs)
  {
    if q in TreeBins.Held(g.vs) {
      TreeBins.HeldIn(m.tree, SizesOf(m.head), g.vs, q);
      var i := TreeBins.IndexOf(SizesOf(m.head), q);
      assert TreeBins.BinOk(m.tree, SizesOf(m.head), g.vs, i);
      NoMarks(0);
      TreeBins.EmptyBin(m.tree, SizesOf(m.head), g.vs, i);
    }
  }

  class Arena {
    var head: Heads
    var foot: Feet
    var small: SmallBins.SmallState
    var tree: TreeBins.TreeState
    var dv: Addr
    var dvsize: nat
    var top: Addr
    var topsize: nat
    ghost var plan: Plan

    ghost function State(): Mem
      reads this
    {
      Mem(head, foot, small, tree, dv, dvsize, top, topsize)
    }

    ghost predicate Valid()
      reads this
    {
      Inv(State(), plan, {})
    }

    /** The chunks in use and their sizes. */
    ghost function InUse(): map<Addr, nat>
      reads this
    {
      Live(State(), plan)
    }

    /** The first segment: `init_bins` and `init_top` on `n` usable bytes at `base`. */
    constructor (base: Addr, n: nat)
      requires 0 < base && base % 8 == 0 && n > 0 && n % 8 == 0 && base + n < WORD
      ensures Valid() && InUse() == map[] && plan.base == base && plan.limit == base + n
      ensures top == base && topsize == n
    {
      top, topsize := base, n;
      dv, dvsize := 0, 0;
      head, foot := map[base := Head(n, false, true)], map[];
      tree := TreeBins.TreeState(TreeBins.NONE, 0, map[]);
      new;
      ghost var ls;
      small, ls := SmallBins.Init(SizesOf(head));
      plan := Plan(base, base + n, {base}, ls, TreeBins.NO_VIEWS);
      TreeBins.InitialValid(SizesOf(head));
      FreshTiled(base, n, foot);
      ghost var m, g := State(), plan;
      forall p
        ensures PlacedAt(m, g, {}, p)
      {
      }
    }

    // ---- Bins ----

    /** `unlink_chunk`. */
    method UnlinkChunk(p: Addr, s: nat, ghost loose: set<Addr>)
      requires Inv(State(), plan, loose) && p in Binned(plan) && p in head && head[p].size == s
      modifies this`small, this`tree, this`plan
      ensures Inv(State(), plan, loose + {p}) && InUse() == old(InUse())
      ensures plan == old(plan).(ls := plan.ls, vs := plan.vs) && Binned(plan) == old(Binned(plan)) - {p}
      ensures IsSmall(s) ==>
                s / 8 < |old(plan.ls)| && plan.ls == old(plan.ls)[s / 8 := Minus(old(plan.ls)[s / 8], p)] && plan.vs == old(plan.vs)
      ensures !IsSmall(s) ==> plan.ls == old(plan.ls) && TreeBins.Left(SizesOf(head), old(plan.vs), plan.vs, p)
      ensures Untouched(old(State()), old(plan), State(), plan)
    {
      ghost var m, g := State(), plan;
      FreeFacts(m, g, loose, p);
      SmallOrLarge(m, g, loose, p);
      if IsSmall(s) {
        ghost var ls;
        small, ls := SmallBins.Unlink(small, SizesOf(head), p, s, plan.ls);
        plan := plan.(ls := ls);
        SmallLinksWritten(m, g, loose, p, State(), plan);
      } else {
        ghost var vs;
        tree, vs := TreeBins.Unlink(tree, SizesOf(head), p, plan.vs);
        plan := plan.(vs := vs);
        TreeLinksWritten(m, g, loose, p, State(), plan);
      }
      UnlinkStep(m, g, loose, p, State(), plan);
    }

    /** `insert_chunk`. */
    method InsertChunk(p: Addr, s: nat, ghost loose: set<Addr>)
      requires Inv(State(), plan, loose) && p in loose && p in head && head[p].size == s
      modifies this`small, this`tree, this`plan
      ensures Inv(State(), plan, loose - {p}) && InUse() == old(InUse())
      ensures plan == old(plan).(ls := plan.ls, vs := plan.vs) && Binned(plan) == old(Binned(plan)) + {p}
      ensures IsSmall(s) ==>
                s / 8 < |old(plan.ls)| && plan.ls == old(plan.ls)[s / 8 := [p] + old(plan.ls)[s / 8]] && plan.vs == old(plan.vs)
      ensures !IsSmall(s) ==> plan.ls == old(plan.ls) && TreeBins.Joined(SizesOf(head), old(plan.vs), plan.vs, p)
      ensures Untouched(old(State()), old(plan), State(), plan)
    {
      ghost var m, g := State(), plan;
      FreeFacts(m, g, loose, p);
      NotHeld(m, g, loose, p);
      if IsSmall(s) {
        ghost var ls;
        small, ls := SmallBins.Insert(small, SizesOf(head), p, s, plan.ls);
        plan := plan.(ls := ls);
        SmallLinksWritten(m, g, loose, p, State(), plan);
      } else {
        ghost var vs;
        tree, vs := TreeBins.Insert(tree, SizesOf(head), p, s, plan.vs);
        plan := plan.(vs := vs);
        TreeLinksWritten(m, g, loose, p, State(), plan);
      }
      InsertStep(m, g, loose, p, State(), plan);
    }

    /** `unlink_first_small_chunk`. */
    method UnlinkFirst(i: nat) returns (p: Addr)
      requires Valid() && i < 32 && Marked(small.marks, i)
      modifies this`small, this`plan
      ensures Inv(State(), plan, {p}) && InUse() == old(InUse())
      ensures i < |old(plan.ls)| && old(plan.ls)[i] != [] && plan == old(plan).(ls := old(plan.ls)[i := old(plan.ls)[i][1..]])
      ensures p in head && head[p].size == 8 * i && IsFree(old(State()), old(plan), p) && p in Binned(old(plan))
      ensures Untouched(old(State()), old(plan), State(), plan)
      ensures FirstOfBin(old(State()), old(plan), p) && FirstInLine(old(State()), old(plan), p)
    {
      ghost var m, g, ls := State(), plan, plan.ls;
      p, small, ls := SmallBins.UnlinkFirst(small, SizesOf(head), i, plan.ls);
      plan := plan.(ls := ls);
      FreeFacts(m, g, {}, p);
      SmallOrLarge(m, g, {}, p);
      SmallLinksWritten(m, g, {}, p, State(), plan);
      UnlinkStep(m, g, {}, p, State(), plan);
      assert {} + {p} == {p};
    }

    // ---- Using a free chunk ----

    /** `set_inuse_and_pinuse` on a chunk in transit. */
    method UseWhole(p: Addr)
      requires Inv(State(), plan, {p}) && p in head
      modifies this`head
      ensures Valid() && p !in old(InUse()) && InUse() == old(InUse())[p := old(head[p].size)]
      ensures Untouched(old(State()), old(plan), State(), plan)
    {
      ghost var m := State();
      FreeFacts(m, plan, {p}, p);
      var s := head[p].size;
      head := head[p := Head(s, true, true)];
      head := head[p + s := head[p + s].(pinuse := true)];
      UseStep(m, plan, {p}, p, State());
      TwoTagsWritten(m, plan, p, head[p], p + s, head[p + s], p, State(), plan);
      assert {p} - {p} == {};
    }

    /** A chunk in transit keeps `nb` bytes for use; the remainder `r` stays in transit. */
    method UsePart(p: Addr, nb: nat) returns (r: Addr, rsize: nat)
      requires Inv(State(), plan, {p}) && p in head
      requires nb % 8 == 0 && nb >= MIN_CHUNK_SIZE && nb + MIN_CHUNK_SIZE <= head[p].size
      modifies this`head, this`foot, this`plan
      ensures Inv(State(), plan, {r}) && r == p + nb && r in head && head[r].size == rsize == old(head[p].size) - nb
      ensures p !in old(InUse()) && InUse() == old(InUse())[p := nb]
      ensures plan == old(plan).(chunks := plan.chunks)
      ensures Untouched(old(State()), old(plan), State(), plan)
    {
      ghost var m, g := State(), plan;
      FreeFacts(m, g, {p}, p);
      r, rsize := p + nb, head[p].size - nb;
      head := head[p := Head(nb, true, true)];
      head := head[r := Head(rsize, false, true)];
      foot := foot[r + rsize := rsize];
      plan := plan.(chunks := plan.chunks + {r});
      SplitStep(m, g, {p}, p, nb, State(), plan);
      TwoTagsWritten(m, g, p, head[p], r, head[r], r, State(), plan);
      assert {p} - {p} + {r} == {r};
    }

    /** `replace_dv`: the old `dv`, known to be small, goes to its bin. */
    method ReplaceDv(r: Addr, rsize: nat)
      requires Inv(State(), plan, {r}) && r in head && head[r].size == rsize && dvsize < 256
      modifies this`small, this`tree, this`plan, this`dv, this`dvsize
      ensures Valid() && InUse() == old(InUse())
      ensures plan == old(plan).(ls := plan.ls, vs := plan.vs)
      ensures dv == r && dvsize == rsize && (old(dvsize) != 0 ==> old(dv) in Binned(plan))
      ensures Binned(plan) == old(Binned(plan)) + (if old(dvsize) == 0 then {} else {old(dv)})
      ensures Untouched(old(State()), old(plan), State(), plan)
    {
      ghost var m0, g0 := State(), plan;
      NothingWritten(m0, g0, m0, g0);
      if dvsize != 0 {
        FreeFacts(m0, plan, {r}, dv);
        var d, s := dv, dvsize;
        dv, dvsize := 0, 0;
        DropDv(m0, plan, {r});
        ghost var m1 := State();
        NothingWritten(m0, g0, m1, g0);
        InsertChunk(d, s, {r} + {d});
        UntouchedTwice(m0, g0, m1, g0, State(), plan);
        assert {r} + {d} - {d} == {r};
      }
      ghost var m := State();
      FreeFacts(m, plan, {r}, r);
      dvsize := rsize;
      dv := r;
      TakeDv(m, plan, {r}, r);
      NothingWritten(m, plan, State(), plan);
      UntouchedTwice(m0, g0, m, plan, State(), plan);
      assert {r} - {r} == {};
    }

    // ---- malloc ----

    /** The chunk `v` leaves its bin and is used, the remainder going to its bin or, if `asDv`, becoming `dv`. */
    method Carve(v: Addr, nb: nat, rsize: nat, asDv: bool)
      requires Valid() && v in Binned(plan) && v in head && head[v].size == nb + rsize
      requires nb % 8 == 0 && nb >= MIN_CHUNK_SIZE && (asDv ==> dvsize < 256)
      modifies this
      ensures Valid() && Allocated(old(InUse()), InUse(), v, nb)
      ensures plan.base == old(plan.base) && plan.limit == old(plan.limit)
      ensures Untouched(old(State()), old(plan), State(), plan)
      ensures if asDv && rsize >= MIN_CHUNK_SIZE then DvIs(State(), v + nb, rsize) else SameDv(old(State()), State())
      ensures top == old(top)
      ensures InUse()[v] == SizeGiven(old(State()), nb, v)
    {
      ghost var m0, g0 := State(), plan;
      FreeFacts(m0, g0, {}, v);
      UnlinkChunk(v, nb + rsize, {});
      assert {} + {v} == {v};
      ghost var m1, g1 := State(), plan;
      if rsize < MIN_CHUNK_SIZE {
        UseWhole(v);
        UntouchedTwice(m0, g0, m1, g1, State(), plan);
      } else {
        var r, rs := UsePart(v, nb);
        ghost var m2, g2 := State(), plan;
        UntouchedTwice(m0, g0, m1, g1, m2, g2);
        if asDv {
          ReplaceDv(r, rs);
        } else {
          InsertChunk(r, rs, {r});
          assert {r} - {r} == {};
        }
        UntouchedTwice(m0, g0, m2, g2, State(), plan);
      }
    }

    /** `tmalloc_large`: 0 if no tree chunk fits better than `dv`. */
    method TmallocLarge(nb: nat) returns (p: Addr)
      requires Valid() && 256 <= nb < WORD && nb % 8 == 0
      modifies this
      ensures p == 0 ==> State() == old(State()) && plan == old(plan)
      ensures p == 0 ==> forall q | Fits(State(), plan, nb, q) :: nb <= dvsize <= head[q].size
      ensures p != 0 ==> Valid() && Allocated(old(InUse()), InUse(), p, nb)
      ensures p != 0 ==> LargeChoice(old(State()), old(plan), nb, p)
      ensures plan.base == old(plan.base) && plan.limit == old(plan.limit)
      ensures Untouched(old(State()), old(plan), State(), plan)
      ensures SameDv(old(State()), State()) && top == old(top) && (p != 0 ==> p in Binned(old(plan)) && p != old(dv))
      ensures p != 0 ==> InUse()[p] == SizeGiven(old(State()), nb, p)
    {
      ghost var m, g := State(), plan;
      var v, rsize := TreeBins.FindLarge(tree, SizesOf(head), nb, plan.vs);
      if v != 0 {
        FreeFacts(m, g, {}, v);
        SmallOrLarge(m, g, {}, v);
      }
      DvBound(m, g);
      LargeFits(m, g, nb, v, rsize);
      if v != 0 && rsize < Sub(dvsize, nb) {
        Carve(v, nb, rsize, false);
        p := v;
      } else {
        NothingWritten(m, g, m, g);
        p := 0;
      }
    }

    /** `tmalloc_small`: the smallest tree chunk serves a small request. */
    method TmallocSmall(nb: nat) returns (p: Addr)
      requires Valid() && MIN_CHUNK_SIZE <= nb < 256 && nb % 8 == 0 && tree.marks != 0 && dvsize < nb
      modifies this
      ensures p != 0 && Valid() && Allocated(old(InUse()), InUse(), p, nb)
      ensures p in old(TreeBins.Held(plan.vs)) && p in old(head) && TreeBins.Oldest(SizesOf(old(head)), old(plan.vs), p)
      ensures forall q | q in old(TreeBins.Held(plan.vs)) && q in old(head) :: old(head)[p].size <= old(head)[q].size
      ensures plan.base == old(plan.base) && plan.limit == old(plan.limit)
      ensures Untouched(old(State()), old(plan), State(), plan)
      ensures if nb + MIN_CHUNK_SIZE <= old(head)[p].size then RestIsDv(p, old(head)[p].size, nb, State()) else SameDv(old(State()), State())
      ensures top == old(top) && p != old(dv)
      ensures InUse()[p] == SizeGiven(old(State()), nb, p)
    {
      var rsize;
      p, rsize := TreeBins.FindSmall(tree, SizesOf(head), nb, plan.vs);
      FreeFacts(State(), plan, {}, p);
      Carve(p, nb, rsize, true);
    }

    /** The small bins and, for want of a chunk there or of a sufficient `dv`, the tree bins; 0 to fall through. */
    method MallocSmall(nb: nat) returns (p: Addr)
      requires Valid() && MIN_CHUNK_SIZE <= nb <= 248 && nb % 8 == 0
      modifies this
      ensures p == 0 ==> State() == old(State()) && plan == old(plan)
      ensures p == 0 && nb <= dvsize ==> BinsFrom(State(), plan, nb, WholeBelow(nb))
      ensures p == 0 && dvsize < nb ==> NoneFits(State(), plan, nb)
      ensures p != 0 ==> Valid() && Allocated(old(InUse()), InUse(), p, nb) && SmallChoice(old(State()), old(plan), nb, p)
      ensures plan.base == old(plan.base) && plan.limit == old(plan.limit)
      ensures Untouched(old(State()), old(plan), State(), plan)
      ensures p != 0 ==> p != old(dv) && p in Binned(old(plan)) && p in old(head)
      ensures p != 0 && nb + MIN_CHUNK_SIZE <= old(head)[p].size ==> RestIsDv(p, old(head)[p].size, nb, State())
      ensures p == 0 || old(head)[p].size < nb + MIN_CHUNK_SIZE ==> SameDv(old(State()), State())
      ensures top == old(top)
      ensures p != 0 ==> InUse()[p] == SizeGiven(old(State()), nb, p)
    {
      ghost var m, g := State(), plan;
      NothingWritten(m, g, m, g);
      var fit, i := FitBin(small.marks, nb / 8);
      if fit {
        SmallestInBins(m, g, nb, i);
        p := UseFirst(i);
      } else if nb > dvsize {
        p := MallocSplit(nb);
      } else {
        p := 0;
        SmallestInBins(m, g, nb, if nb / 8 + 2 < 32 then nb / 8 + 2 else 32);
      }
    }

    /** A larger small bin or the tree bins serve a small request for which neither its own bins nor `dv` will do. */
    method MallocSplit(nb: nat) returns (p: Addr)
      requires Valid() && MIN_CHUNK_SIZE <= nb <= 248 && nb % 8 == 0 && dvsize < nb
      requires forall j: nat | nb / 8 <= j < nb / 8 + 2 && j < 32 :: !Marked(small.marks, j)
      modifies this
      ensures p == 0 ==> State() == old(State()) && plan == old(plan) && NoneFits(State(), plan, nb)
      ensures p != 0 ==> Valid() && Allocated(old(InUse()), InUse(), p, nb) && SmallChoice(old(State()), old(plan), nb, p)
      ensures plan.base == old(plan.base) && plan.limit == old(plan.limit)
      ensures Untouched(old(State()), old(plan), State(), plan)
      ensures p != 0 ==> p != old(dv) && p in Binned(old(plan)) && p in old(head)
      ensures p != 0 && nb + MIN_CHUNK_SIZE <= old(head)[p].size ==> RestIsDv(p, old(head)[p].size, nb, State())
      ensures p == 0 || old(head)[p].size < nb + MIN_CHUNK_SIZE ==> SameDv(old(State()), State())
      ensures top == old(top)
      ensures p != 0 ==> InUse()[p] == SizeGiven(old(State()), nb, p)
    {
      ghost var m, g := State(), plan;
      NothingWritten(m, g, m, g);
      var found, i := NextBin(small.marks, nb / 8);
      if found {
        SmallestInBins(m, g, nb, i);
        p := SplitSmall(nb, i);
      } else if tree.marks != 0 {
        p := TmallocSmall(nb);
        SmallestInTrees(m, g, nb, p);
      } else {
        p := 0;
        forall q
          ensures !Fits(m, g, nb, q)
        {
          NothingSmall(m, g, nb, q);
        }
      }
    }

    /** The first chunk of a small bin is used as it is. */
    method UseFirst(i: nat) returns (p: Addr)
      requires Valid() && i < 32 && Marked(small.marks, i)
      modifies this
      ensures Valid() && p !in old(InUse()) && InUse() == old(InUse())[p := 8 * i] && p != 0
      ensures p in old(head) && old(head)[p].size == 8 * i && IsFree(old(State()), old(plan), p) && p in Binned(old(plan))
      ensures plan.base == old(plan.base) && plan.limit == old(plan.limit)
      ensures Untouched(old(State()), old(plan), State(), plan)
      ensures SameDv(old(State()), State()) && top == old(top) && p != old(dv) && FirstInLine(old(State()), old(plan), p)
    {
      p := UnlinkFirst(i);
      ghost var m, g := State(), plan;
      FreeFacts(m, g, {p}, p);
      UseWhole(p);
      UntouchedTwice(old(State()), old(plan), m, g, State(), plan);
    }

    /** A chunk of the next nonempty small bin is split, the remainder becoming `dv`. */
    method SplitSmall(nb: nat, i: nat) returns (p: Addr)
      requires Valid() && MIN_CHUNK_SIZE <= nb <= 248 && nb % 8 == 0 && dvsize < nb
      requires nb / 8 + 2 <= i < 32 && Marked(small.marks, i) && BinsFrom(State(), plan, nb, 8 * i)
      modifies this
      ensures p != 0 && Valid() && Allocated(old(InUse()), InUse(), p, nb) && SmallChoice(old(State()), old(plan), nb, p)
      ensures plan.base == old(plan.base) && plan.limit == old(plan.limit)
      ensures Untouched(old(State()), old(plan), State(), plan)
      ensures p in Binned(old(plan)) && p in old(head) && p != old(dv) && top == old(top)
      ensures RestIsDv(p, old(head)[p].size, nb, State())
      ensures InUse()[p] == SizeGiven(old(State()), nb, p)
    {
      ghost var m0, g0 := State(), plan;
      p := UnlinkFirst(i);
      ghost var m1, g1 := State(), plan;
      FreeFacts(m1, g1, {p}, p);
      var r, rsize := UsePart(p, nb);
      ghost var m2, g2 := State(), plan;
      UntouchedTwice(m0, g0, m1, g1, m2, g2);
      ReplaceDv(r, rsize);
      UntouchedTwice(m0, g0, m2, g2, State(), plan);
    }

    /** Serving a request from `dv`, splitting it if the remainder can be a chunk. */
    method FromDv(nb: nat) returns (p: Addr)
      requires Valid() && MIN_CHUNK_SIZE <= nb <= dvsize && nb % 8 == 0
      modifies this
      ensures p == old(dv) && p != 0 && Valid() && Allocated(old(InUse()), InUse(), p, nb)
      ensures plan.base == old(plan.base) && plan.limit == old(plan.limit)
      ensures Untouched(old(State()), old(plan), State(), plan)
      ensures DvAfter(old(State()), 0, nb, p, State()) && top == old(top) && p != old(top)
      ensures InUse()[p] == SizeGiven(old(State()), nb, p)
    {
      ghost var m, g := State(), plan;
      FreeFacts(m, g, {}, dv);
      var rsize := dvsize - nb;
      p := dv;
      if rsize >= MIN_CHUNK_SIZE {
        var r := p + nb;
        dv := r;
        dvsize := rsize;
        head := head[p := Head(nb, true, true)];
        head := head[r := Head(rsize, false, true)];
        foot := foot[r + rsize := rsize];
        plan := plan.(chunks := plan.chunks + {r});
        SplitDvSpares(m, g, nb, State(), plan);
      } else {
        var dvs := dvsize;
        dvsize := 0;
        dv := 0;
        head := head[p := Head(dvs, true, true)];
        head := head[p + dvs := head[p + dvs].(pinuse := true)];
        UseDvSpares(m, g, State());
      }
    }

    /** Serving a request from the start of `top`. */
    method FromTop(nb: nat) returns (p: Addr)
      requires Valid() && MIN_CHUNK_SIZE <= nb < topsize && nb % 8 == 0
      modifies this
      ensures p == old(top) && p != 0 && Valid() && Allocated(old(InUse()), InUse(), p, nb)
      ensures plan.base == old(plan.base) && plan.limit == old(plan.limit)
      ensures Untouched(old(State()), old(plan), State(), plan)
      ensures SameDv(old(State()), State()) && top == p + nb
      ensures InUse()[p] == SizeGiven(old(State()), nb, p)
    {
      ghost var m, g := State(), plan;
      TopFacts(m, g, {});
      topsize := topsize - nb;
      p := top;
      top := p + nb;
      head := head[p := Head(nb, true, true)];
      head := head[top := Head(topsize, false, true)];
      plan := plan.(chunks := plan.chunks + {top});
      SplitTopStep(m, g, nb, State(), plan);
      TagsWritten(m, g, State(), plan, p);
    }

    /** `sys_alloc` when the system either gives nothing or extends the segment by `grow` bytes. */
    method SysAlloc(nb: nat, grow: nat) returns (p: Addr)
      requires Valid() && MIN_CHUNK_SIZE <= nb && (nb % 8 == 0 || nb == MAX_SIZE_T)
      requires grow % 8 == 0 && plan.limit + grow < WORD
      modifies this
      ensures Valid() && plan.base == old(plan.base) && plan.limit == old(plan.limit) + grow
      ensures p == 0 ==> InUse() == old(InUse()) && old(topsize) + grow <= nb
      ensures p == 0 && grow == 0 ==> State() == old(State()) && plan == old(plan)
      ensures p != 0 ==> nb != MAX_SIZE_T && p == old(top) && Allocated(old(InUse()), InUse(), p, nb)
      ensures Untouched(old(State()), old(plan), State(), plan)
      ensures SameDv(old(State()), State()) && TopAfter(old(State()), nb, p, State())
      ensures p != 0 ==> InUse()[p] == SizeGiven(old(State()), nb, p)
    {
      ghost var m, g := State(), plan;
      NothingWritten(m, g, m, g);
      if grow != 0 {
        TopFacts(m, g, {});
        head := head[top := Head(topsize + grow, false, true)];
        topsize := topsize + grow;
        plan := plan.(limit := plan.limit + grow);
        ExtendStep(m, g, grow, State(), plan);
        TopWritten(m, g, top, State(), plan);
      }
      ghost var m1, g1 := State(), plan;
      TopFacts(m1, g1, {});
      if nb < topsize {
        p := FromTop(nb);
        UntouchedTwice(m, g, m1, g1, State(), plan);
      } else {
        p := 0;
      }
    }

    /** The bins' part of `dlmalloc`; 0 to fall through. */
    method MallocBins(bytes: nat, nb: nat) returns (p: Addr)
      requires Valid() && nb == PaddedSize(bytes)
      modifies this
      ensures p == 0 ==> State() == old(State()) && plan == old(plan) && Declined(State(), plan, bytes, nb)
      ensures p != 0 ==> Valid() && Allocated(old(InUse()), InUse(), p, nb) && bytes < MAX_REQUEST
      ensures p != 0 ==> Chosen(old(State()), old(plan), bytes, nb, p) && 0 < p && p % 8 == 0
      ensures plan.base == old(plan.base) && plan.limit == old(plan.limit)
      ensures Untouched(old(State()), old(plan), State(), plan)
      ensures DvAfter(old(State()), bytes, nb, p, State()) && TopAfter(old(State()), nb, p, State())
      ensures p != 0 ==> p != old(top) && p in Binned(old(plan))
      ensures p != 0 ==> InUse()[p] == SizeGiven(old(State()), nb, p)
    {
      ghost var m, g := State(), plan;
      NothingWritten(m, g, m, g);
      p := 0;
      if bytes <= MAX_SMALL_REQUEST {
        p := MallocSmall(nb);
      } else if bytes < MAX_REQUEST {
        if tree.marks != 0 {
          p := TmallocLarge(nb);
        } else {
          forall q | Fits(m, g, nb, q)
            ensures nb <= dvsize <= head[q].size
          {
            WhereFree(m, g, q);
            NoTreeChunks(m, g, q);
          }
        }
      }
      if p != 0 { FreeChunk(m, g, p); }
    }

    /** The end of `dlmalloc`: `dv`, then `top`, then the system. */
    method MallocRest(bytes: nat, nb: nat, grow: nat) returns (p: Addr)
      requires Valid() && nb == PaddedSize(bytes) && grow % 8 == 0 && plan.limit + grow < WORD
      requires Declined(State(), plan, bytes, nb)
      modifies this
      ensures Valid() && plan.base == old(plan.base) && old(plan.limit) <= plan.limit <= old(plan.limit) + grow
      ensures p != 0 ==> Allocated(old(InUse()), InUse(), p, nb) && bytes < MAX_REQUEST && 0 < p && p % 8 == 0
      ensures p != 0 ==> Chosen(old(State()), old(plan), bytes, nb, p)
      ensures p == 0 ==> InUse() == old(InUse())
      ensures p == 0 && bytes < MAX_REQUEST ==> NoneFits(old(State()), old(plan), nb) && old(topsize) + grow <= nb
      ensures p == 0 && grow == 0 ==> State() == old(State())
      ensures Untouched(old(State()), old(plan), State(), plan)
      ensures DvAfter(old(State()), bytes, nb, p, State()) && TopAfter(old(State()), nb, p, State())
      ensures plan.limit == old(plan.limit) + (if Asked(old(State()), old(plan), bytes) then grow else 0)
      ensures p != 0 ==> InUse()[p] == SizeGiven(old(State()), nb, p)
    {
      ghost var m, g := State(), plan;
      DvBound(m, g);
      TopFacts(m, g, {});
      if nb <= dvsize {
        FreeFacts(m, g, {}, dv);
        assert Fits(m, g, nb, dv);
        p := FromDv(nb);
      } else if nb < topsize {
        p := FromTop(nb);
      } else {
        p := SysAlloc(nb, grow);
      }
    }

    /** `dlmalloc` in terms of chunks. */
    method MallocChunk(bytes: nat, nb: nat, grow: nat) returns (p: Addr)
      requires Valid() && nb == PaddedSize(bytes) && grow % 8 == 0 && plan.limit + grow < WORD
      modifies this
      ensures Valid() && plan.base == old(plan.base) && old(plan.limit) <= plan.limit <= old(plan.limit) + grow
      ensures p != 0 ==> Allocated(old(InUse()), InUse(), p, nb) && bytes < MAX_REQUEST && 0 < p && p % 8 == 0
      ensures p != 0 ==> Chosen(old(State()), old(plan), bytes, nb, p)
      ensures p == 0 ==> InUse() == old(InUse())
      ensures p == 0 && bytes < MAX_REQUEST ==> NoneFits(old(State()), old(plan), nb) && old(topsize) + grow <= nb
      ensures p == 0 && grow == 0 ==> State() == old(State())
      ensures Untouched(old(State()), old(plan), State(), plan)
      ensures DvAfter(old(State()), bytes, nb, p, State()) && TopAfter(old(State()), nb, p, State())
      ensures plan.limit == old(plan.limit) + (if Asked(old(State()), old(plan), bytes) then grow else 0)
      ensures p != 0 ==> InUse()[p] == SizeGiven(old(State()), nb, p)
    {
      p := MallocBins(bytes, nb);
      if p == 0 {
        p := MallocRest(bytes, nb, grow);
      }
    }

    /** `dlmalloc`; `grow` is what the system would add to the segment if asked. */
    method Malloc(bytes: nat, grow: nat) returns (mem: Addr)
      requires Valid() && bytes < WORD && grow % 8 == 0 && plan.limit + grow < WORD
      modifies this
      ensures Valid() && plan.base == old(plan.base) && old(plan.limit) <= plan.limit <= old(plan.limit) + grow
      ensures mem != 0 ==> Allocated(old(InUse()), InUse(), mem - 8, RequestSize(bytes))
      ensures mem != 0 ==> bytes < MAX_REQUEST && 8 < mem && mem % 8 == 0
      ensures mem != 0 ==> Chosen(old(State()), old(plan), bytes, RequestSize(bytes), mem - 8)
      ensures mem == 0 ==> InUse() == old(InUse())
      ensures mem == 0 ==> Refused(old(State()), old(plan), bytes, grow)
      ensures mem == 0 && grow == 0 ==> State() == old(State())
      ensures Untouched(old(State()), old(plan), State(), plan)
      ensures DvAfter(old(State()), bytes, RequestSize(bytes), if mem == 0 then 0 else mem - 8, State())
      ensures TopAfter(old(State()), RequestSize(bytes), if mem == 0 then 0 else mem - 8, State())
      ensures plan.limit == old(plan.limit) + (if Asked(old(State()), old(plan), bytes) then grow else 0)
      ensures mem != 0 ==> InUse()[mem - 8] == SizeGiven(old(State()), RequestSize(bytes), mem - 8)
    {
      var p := MallocChunk(bytes, PaddedSize(bytes), grow);
      mem := if p == 0 then 0 else p + 8;
    }

    // ---- free ----

    /** `dlfree` once the chunk before, if free, has been taken: `[p, next)` is to be freed, `q` being in use in it. */
    method FreeForward(p: Addr, psize: nat, next: Addr, ghost q: Addr, ghost loose: set<Addr>)
      requires Back(State(), plan, loose, q, p) && next == q + head[q].size && p + psize == next
      requires p == dv ==> next in head && !head[next].cinuse
      modifies this
      ensures Valid() && InUse() == old(InUse()) - {q}
      ensures plan.base == old(plan.base) && plan.limit == old(plan.limit)
      ensures Untouched(old(State()), old(plan), State(), plan)
      ensures FreedInto(old(State()), q, State())
    {
      Forward(State(), plan, loose, q, p);
      if !head[next].cinuse {
        BeforeFree(p, psize, next, q, loose);
      } else {
        BackRun(State(), plan, loose, q, p);
        if dv != 0 { FreeFacts(State(), plan, loose, dv); }
        BeforeUsed(p, psize, next, q, loose);
      }
    }

    /** The chunk after is free: the freed run is merged with it. */
    method BeforeFree(p: Addr, psize: nat, next: Addr, ghost q: Addr, ghost loose: set<Addr>)
      requires Back(State(), plan, loose, q, p) && next == q + head[q].size && p + psize == next
      requires next in head && !head[next].cinuse
      modifies this
      ensures Valid() && InUse() == old(InUse()) - {q}
      ensures plan.base == old(plan.base) && plan.limit == old(plan.limit)
      ensures Untouched(old(State()), old(plan), State(), plan)
      ensures FreedInto(old(State()), q, State())
    {
      Forward(State(), plan, loose, q, p);
      BackRun(State(), plan, loose, q, p);
      if next == top {
        IntoTop(p, psize, q, loose);
      } else if next == dv {
        IntoDv(p, psize, q, loose);
      } else {
        AroundNext(p, psize, next, q, loose);
      }
    }

    /** The chunk after is in use: the freed run goes to the bin of its size. */
    method BeforeUsed(p: Addr, psize: nat, next: Addr, ghost q: Addr, ghost loose: set<Addr>)
      requires Back(State(), plan, loose, q, p) && next == q + head[q].size && p + psize == next && p != dv
      requires next in plan.chunks && next in head && head[next].cinuse && p != next
      modifies this
      ensures Valid() && InUse() == old(InUse()) - {q}
      ensures plan.base == old(plan.base) && plan.limit == old(plan.limit)
      ensures Untouched(old(State()), old(plan), State(), plan)
      ensures SameDv(old(State()), State()) && top == old(top)
    {
      ghost var m, g := State(), plan;
      head := head[next := head[next].(pinuse := false)];
      head := head[p := Head(psize, false, true)];
      foot := foot[p + psize := psize];
      plan := plan.(chunks := Coalesced(plan.chunks, p, next));
      ghost var m1, g1 := State(), plan;
      FreeSpares(m, g, loose, q, p, next, m1, g1);
      InsertChunk(p, psize, {p});
      assert {p} - {p} == {};
      UntouchedTwice(m, g, m1, g1, State(), plan);
    }

    method IntoTop(p: Addr, psize: nat, ghost q: Addr, ghost loose: set<Addr>)
      requires Back(State(), plan, loose, q, p) && top == q + head[q].size && p + psize == top
      modifies this
      ensures Valid() && InUse() == old(InUse()) - {q}
      ensures plan.base == old(plan.base) && plan.limit == old(plan.limit)
      ensures Untouched(old(State()), old(plan), State(), plan)
      ensures top == p && if p == old(dv) then DvIs(State(), 0, 0) else SameDv(old(State()), State())
    {
      ghost var m, g := State(), plan;
      topsize := topsize + psize;
      top := p;
      head := head[p := Head(topsize, false, true)];
      if p == dv {
        dv := 0;
        dvsize := 0;
      }
      plan := plan.(chunks := Coalesced(plan.chunks, p, plan.limit));
      IntoTopSpares(m, g, loose, q, p, State(), plan);
    }

    method IntoDv(p: Addr, psize: nat, ghost q: Addr, ghost loose: set<Addr>)
      requires Back(State(), plan, loose, q, p) && dv == q + head[q].size && p + psize == dv
      modifies this
      ensures Valid() && InUse() == old(InUse()) - {q}
      ensures plan.base == old(plan.base) && plan.limit == old(plan.limit)
      ensures Untouched(old(State()), old(plan), State(), plan)
      ensures top == old(top) && DvIs(State(), p, old(dvsize) + psize)
    {
      ghost var m, g := State(), plan;
      BothDv(m, g, loose, q, p);
      dvsize := dvsize + psize;
      dv := p;
      head := head[p := Head(dvsize, false, true)];
      foot := foot[p + dvsize := dvsize];
      plan := plan.(chunks := Coalesced(plan.chunks, p, p + dvsize));
      FuseDvSpares(m, g, loose + {m.dv}, q, p, p + dvsize, State(), plan);
    }

    method AroundNext(p: Addr, psize: nat, next: Addr, ghost q: Addr, ghost loose: set<Addr>)
      requires Back(State(), plan, loose, q, p) && next == q + head[q].size && p + psize == next
      requires next in head && !head[next].cinuse && next != top && next != dv
      modifies this
      ensures Valid() && InUse() == old(InUse()) - {q}
      ensures plan.base == old(plan.base) && plan.limit == old(plan.limit)
      ensures Untouched(old(State()), old(plan), State(), plan)
      ensures top == old(top) && next in old(head)
      ensures if p == old(dv) then DvIs(State(), p, psize + old(head)[next].size) else SameDv(old(State()), State())
    {
      ghost var m0, g0 := State(), plan;
      Forward(m0, g0, loose, q, p);
      var nsize := head[next].size;
      UnlinkChunk(next, nsize, loose);
      ghost var m1, g1 := State(), plan;
      Both(m0, g0, loose, q, p, m1, g1, next);
      Fuse(p, psize + nsize, q, (if p == q then {} else {p}) + {next});
      UntouchedTwice(m0, g0, m1, g1, State(), plan);
    }

    /** `set_size_and_pinuse_of_free_chunk` on a run that ends with a free chunk; the result is binned unless it is `dv`. */
    method Fuse(p: Addr, size: nat, ghost q: Addr, ghost l: set<Addr>)
      requires Run(Lifted(State(), p), plan, l, q, p, p + size) && q in head && p + size != q + head[q].size
      modifies this
      ensures Valid() && InUse() == old(InUse()) - {q}
      ensures plan.base == old(plan.base) && plan.limit == old(plan.limit)
      ensures Untouched(old(State()), old(plan), State(), plan)
      ensures top == old(top) && if p == old(dv) then DvIs(State(), p, size) else SameDv(old(State()), State())
    {
      ghost var m, g := State(), plan;
      head := head[p := Head(size, false, true)];
      foot := foot[p + size := size];
      plan := plan.(chunks := Coalesced(plan.chunks, p, p + size));
      if p == dv {
        dvsize := size;
        FuseDvSpares(m, g, l, q, p, p + size, State(), plan);
      } else {
        ghost var m1, g1 := State(), plan;
        FuseSpares(m, g, l, q, p, p + size, m1, g1);
        InsertChunk(p, size, {p});
        assert {p} - {p} == {};
        UntouchedTwice(m, g, m1, g1, State(), plan);
      }
    }

    /** `dlfree`, of a chunk in use or of null. */
    method Free(mem: Addr)
      requires Valid() && (mem != 0 ==> 8 <= mem && mem - 8 in InUse())
      modifies this
      ensures Valid() && InUse() == (if mem == 0 then old(InUse()) else old(InUse()) - {mem - 8})
      ensures plan.base == old(plan.base) && plan.limit == old(plan.limit)
      ensures mem == 0 ==> State() == old(State())
      ensures Untouched(old(State()), old(plan), State(), plan)
      ensures mem != 0 ==> FreedInto(old(State()), mem - 8, State())
    {
      ghost var m, g := State(), plan;
      NothingWritten(m, g, m, g);
      if mem != 0 {
        var q := mem - 8;
        BackStart(m, g, q);
        var psize := head[q].size;
        var next := q + psize;
        if !head[q].pinuse {
          var prevsize := foot[q];
          var p := q - prevsize;
          psize := psize + prevsize;
          if p != dv {
            FreeWithPrevious(p, psize, next, prevsize, q);
          } else {
            Forward(m, g, {}, q, p);
            if head[next].cinuse && head[next].pinuse {
              GrowDv(p, psize, next, q);
            } else {
              FreeForward(p, psize, next, q, {});
            }
          }
        } else {
          FreeForward(q, psize, next, q, {});
        }
      }
    }

    /** The chunk before is free in a bin: it is taken from there. */
    method FreeWithPrevious(p: Addr, psize: nat, next: Addr, prevsize: nat, ghost q: Addr)
      requires Valid() && q in InUse() && q in foot && foot[q] == prevsize && p + prevsize == q && p != dv
      requires p in Binned(plan) && p in head && head[p].size == prevsize && !head[q].pinuse
      requires next == q + head[q].size && p + psize == next
      modifies this
      ensures Valid() && InUse() == old(InUse()) - {q}
      ensures plan.base == old(plan.base) && plan.limit == old(plan.limit)
      ensures Untouched(old(State()), old(plan), State(), plan)
      ensures FreedInto(old(State()), q, State())
    {
      ghost var m, g := State(), plan;
      UnlinkChunk(p, prevsize, {});
      assert {} + {p} == {p};
      ghost var m1, g1 := State(), plan;
      BackUnlinked(m1, g1, q, p);
      FreeForward(p, psize, next, q, {p});
      UntouchedTwice(m, g, m1, g1, State(), plan);
    }

    /** The chunk before is `dv` and the chunk after is in use. */
    method GrowDv(p: Addr, psize: nat, next: Addr, ghost q: Addr)
      requires Back(State(), plan, {}, q, p) && next == q + head[q].size && p + psize == next && p == dv
      requires next in head && head[next].cinuse && p != next
      modifies this
      ensures Valid() && InUse() == old(InUse()) - {q}
      ensures plan.base == old(plan.base) && plan.limit == old(plan.limit)
      ensures Untouched(old(State()), old(plan), State(), plan)
      ensures top == old(top) && DvIs(State(), p, psize)
    {
      ghost var m, g := State(), plan;
      dvsize := psize;
      head := head[next := head[next].(pinuse := false)];
      head := head[p := Head(psize, false, true)];
      foot := foot[p + psize := psize];
      plan := plan.(chunks := Coalesced(plan.chunks, p, next));
      GrowDvSpares(m, g, q, next, State(), plan);
    }

    // ---- memalign ----

    /** A head word as read; a word that the allocator has not written can be anything. */
    method Word(a: Addr) returns (w: Head)
      ensures a in head ==> w == head[a]
    {
      if a in head {
        w := head[a];
      } else {
        w := *;
      }
    }

    /** `set_inuse`. */
    method SetInuse(p: Addr, s: nat) returns (ghost w: Head, ghost x: Head)
      requires s > 0
      modifies this`head
      ensures head == old(head)[p := Head(s, true, w.pinuse)][p + s := x.(pinuse := true)]
      ensures (p in old(head) ==> w == old(head)[p]) && (p + s in old(head) ==> x == old(head)[p + s])
    {
      var w0 := Word(p);
      head := head[p := Head(s, true, w0.pinuse)];
      var x0 := Word(p + s);
      head := head[p + s := x0.(pinuse := true)];
      w, x := w0, x0;
    }

    /** The chunk `p` in use becomes two chunks in use, its leader of `n` bytes and the rest. */
    method SplitLeader(p: Addr, n: nat)
      requires Valid() && p in InUse() && n % 8 == 0 && MIN_CHUNK_SIZE <= n && n + MIN_CHUNK_SIZE <= InUse()[p]
      modifies this`head, this`plan
      ensures Valid() && p + n !in old(InUse()) && InUse() == old(InUse())[p := n][p + n := old(InUse()[p]) - n]
      ensures plan == old(plan).(chunks := plan.chunks)
      ensures Untouched(old(State()), old(plan), State(), plan)
    {
      ghost var m, g := State(), plan;
      ChunkFacts(head, foot, plan.chunks, SpanOf(m, g), p);
      var newp, newsize := p + n, head[p].size - n;
      ghost var w, x := SetInuse(newp, newsize);
      w, x := SetInuse(p, n);
      plan := plan.(chunks := plan.chunks + {newp});
      assert head == m.head[p := m.head[p].(size := n)][p + n := Head(m.head[p].size - n, true, true)];
      CutStep(m, g, p, n, State(), plan);
      CutLive(m, g, p, n, State(), plan);
      TwoTagsWritten(m, g, p, head[p], p + n, head[p + n], p, State(), plan);
    }

    /** The chunk `p` in use keeps `n` bytes; the rest becomes a chunk in use. */
    method SplitTrailer(p: Addr, n: nat)
      requires Valid() && p in InUse() && n % 8 == 0 && MIN_CHUNK_SIZE <= n && n + MIN_CHUNK_SIZE <= InUse()[p]
      modifies this`head, this`plan
      ensures Valid() && p + n !in old(InUse()) && InUse() == old(InUse())[p := n][p + n := old(InUse()[p]) - n]
      ensures plan == old(plan).(chunks := plan.chunks)
      ensures Untouched(old(State()), old(plan), State(), plan)
    {
      ghost var m, g := State(), plan;
      ChunkFacts(head, foot, plan.chunks, SpanOf(m, g), p);
      var rest, rsize := p + n, head[p].size - n;
      ghost var w, x := SetInuse(p, n);
      w, x := SetInuse(rest, rsize);
      plan := plan.(chunks := plan.chunks + {rest});
      assert head == m.head[p := m.head[p].(size := n)][p + n := Head(m.head[p].size - n, true, true)];
      CutStep(m, g, p, n, State(), plan);
      CutLive(m, g, p, n, State(), plan);
      TwoTagsWritten(m, g, p, head[p], p + n, head[p + n], p, State(), plan);
    }

    /** How far into the chunk `p` the aligned chunk starts. */
    method LeadSize(p: Addr, a: nat, ghost k: nat) returns (lead: nat)
      requires 4 <= k <= 31 && a == Pow2(k) <= MAX_POWER && 0 < p && p % 8 == 0 && p + 8 + a < WORD && (p + 8) % a != 0
      ensures MIN_CHUNK_SIZE <= lead <= a + 8 && lead % 8 == 0 && (p + lead + 8) % a == 0
    {
      var mem := p + 8;
      LeadFits(mem, k);
      var br := And(mem + a - 1, Neg(a)) - 8;
      var pos := if br - p >= MIN_CHUNK_SIZE then br else br + a;
      lead := pos - p;
      assert p + lead + 8 == mem + lead;
    }

    /** The part of `internal_memalign` before the spare room is given back. */
    method AlignWithin(p: Addr, a: nat, nb: nat, ghost k: nat) returns (newp: Addr, leader: Addr)
      requires Valid() && p in InUse() && 4 <= k <= 31 && a == Pow2(k) <= MAX_POWER && 0 < p && p % 8 == 0
      requires nb >= MIN_CHUNK_SIZE && InUse()[p] >= nb + a + MIN_CHUNK_SIZE && p + InUse()[p] < WORD
      modifies this`head, this`plan
      ensures Valid() && newp in InUse() && InUse()[newp] >= nb && (newp + 8) % a == 0 && newp > 0
      ensures (leader == 0 <==> (p + 8) % a == 0) && AlignedIn(p, a, newp) && InUse()[newp] == old(InUse()[p]) - (newp - p)
      ensures leader == 0 ==> newp == p && InUse() == old(InUse())
      ensures leader != 0 ==> leader == p + 8 && newp !in old(InUse()) && newp != p && p in InUse()
      ensures leader != 0 ==> InUse() == old(InUse())[p := InUse()[p]][newp := InUse()[newp]]
      ensures plan == old(plan).(chunks := plan.chunks)
      ensures Untouched(old(State()), old(plan), State(), plan)
    {
      newp, leader := p, 0;
      NothingWritten(State(), plan, State(), plan);
      if (p + 8) % a != 0 {
        var lead := LeadSize(p, a, k);
        SplitLeader(p, lead);
        newp, leader := p + lead, p + 8;
      }
    }

    method GiveTrailer(p: Addr, nb: nat) returns (trailer: Addr)
      requires Valid() && p in InUse() && nb % 8 == 0 && MIN_CHUNK_SIZE <= nb <= InUse()[p] && p > 0
      modifies this`head, this`plan
      ensures Valid() && p in InUse() && InUse()[p] == Trimmed(old(InUse()[p]), nb)
      ensures trailer == if old(InUse()[p]) > nb + MIN_CHUNK_SIZE then p + nb + 8 else 0
      ensures trailer == 0 ==> InUse() == old(InUse())
      ensures trailer != 0 ==> 8 < trailer && trailer - 8 !in old(InUse()) && trailer - 8 != p && trailer - 8 in InUse()
      ensures trailer != 0 ==> InUse() == old(InUse())[p := InUse()[p]][trailer - 8 := InUse()[trailer - 8]]
      ensures plan == old(plan).(chunks := plan.chunks)
      ensures Untouched(old(State()), old(plan), State(), plan)
    {
      trailer := 0;
      NothingWritten(State(), plan, State(), plan);
      if head[p].size > nb + MIN_CHUNK_SIZE {
        ghost var m, g := State(), plan;
        ChunkFacts(head, foot, plan.chunks, SpanOf(m, g), p);
        SplitTrailer(p, nb);
        trailer := p + nb + 8;
      }
    }

    /** The aligned chunk is cut out of `p`; what is spare before and after it are chunks in use of their own. */
    method CutOut(p: Addr, a: nat, nb: nat, ghost k: nat) returns (newp: Addr, leader: Addr, trailer: Addr)
      requires Valid() && p in InUse() && 4 <= k <= 31 && a == Pow2(k) <= MAX_POWER && 0 < p && p % 8 == 0
      requires nb >= MIN_CHUNK_SIZE && nb % 8 == 0 && InUse()[p] >= nb + a + MIN_CHUNK_SIZE && p + InUse()[p] < WORD
      modifies this`head, this`plan
      ensures Valid() && newp in InUse() && (newp + 8) % a == 0 && AlignedIn(p, a, newp)
      ensures InUse()[newp] == Trimmed(old(InUse()[p]) - (newp - p), nb)
      ensures Parted(old(InUse()), InUse(), p, newp, leader, trailer)
      ensures plan.base == old(plan.base) && plan.limit == old(plan.limit)
      ensures UntouchedBut(old(State()), old(plan), State(), plan, p)
    {
      ghost var m0, g0 := State(), plan;
      newp, leader := AlignWithin(p, a, nb, k);
      ghost var m1, g1 := State(), plan;
      ChunkFacts(head, foot, plan.chunks, SpanOf(m1, g1), newp);
      trailer := GiveTrailer(newp, nb);
      CutTwice(Live(m0, g0), Live(m1, g1), InUse(), p, newp, leader, trailer);
      UntouchedButTwice(m0, g0, m1, g1, State(), plan, p);
    }

    /** The spare chunks are freed. */
    method GiveBack(leader: Addr, trailer: Addr)
      requires Valid() && (leader != 0 ==> 8 <= leader && leader - 8 in InUse()) && (leader == 0 || leader != trailer)
      requires trailer != 0 ==> 8 <= trailer && trailer - 8 in InUse()
      modifies this
      ensures Valid()
      ensures InUse() == old(InUse()) - (if leader == 0 then {} else {leader - 8}) - (if trailer == 0 then {} else {trailer - 8})
      ensures plan.base == old(plan.base) && plan.limit == old(plan.limit)
      ensures Untouched(old(State()), old(plan), State(), plan)
    {
      ghost var m0, g0 := State(), plan;
      NothingWritten(m0, g0, m0, g0);
      if leader != 0 {
        Free(leader);
      }
      ghost var m1, g1 := State(), plan;
      if trailer != 0 {
        Free(trailer);
        UntouchedTwice(m0, g0, m1, g1, State(), plan);
      }
    }

    /** `internal_memalign` on the chunk `p` just allocated for it. */
    method AlignChunk(p: Addr, a: nat, nb: nat, ghost k: nat) returns (newp: Addr)
      requires Valid() && p in InUse() && 4 <= k <= 31 && a == Pow2(k) <= MAX_POWER && 0 < p && p % 8 == 0
      requires nb >= MIN_CHUNK_SIZE && nb % 8 == 0 && InUse()[p] >= nb + a + MIN_CHUNK_SIZE && p + InUse()[p] < WORD
      modifies this
      ensures Valid() && newp in InUse() && (newp + 8) % a == 0 && AlignedIn(p, a, newp)
      ensures InUse()[newp] == Trimmed(old(InUse()[p]) - (newp - p), nb)
      ensures newp == p || newp !in old(InUse())
      ensures InUse() == (old(InUse()) - {p})[newp := InUse()[newp]]
      ensures plan.base == old(plan.base) && plan.limit == old(plan.limit)
      ensures UntouchedBut(old(State()), old(plan), State(), plan, p)
    {
      var leader, trailer;
      ghost var m0, g0 := State(), plan;
      newp, leader, trailer := CutOut(p, a, nb, k);
      ghost var m1, g1 := State(), plan;
      CutStays(Live(m0, g0), Live(m1, g1), p, newp, leader, trailer);
      GiveBack(leader, trailer);
      Remaining(Live(m0, g0), Live(m1, g1), p, newp, leader, trailer, InUse());
      UntouchedButTwice(m0, g0, m1, g1, State(), plan, p);
    }

    /** `dlmemalign`; an alignment above 2^31 makes its rounding loop run forever. */
    method Memalign(alignment: nat, bytes: nat, grow: nat) returns (mem: Addr)
      requires Valid() && alignment <= MAX_POWER && bytes < WORD && grow % 8 == 0 && plan.limit + grow < WORD
      modifies this
      ensures Valid() && plan.base == old(plan.base) && old(plan.limit) <= plan.limit <= old(plan.limit) + grow
      ensures mem != 0 ==> 8 < mem && mem % RoundUp(8, alignment) == 0 && mem - 8 !in old(InUse()) && mem - 8 in InUse()
      ensures mem != 0 ==> RequestSize(bytes) <= InUse()[mem - 8] <= RequestSize(bytes) + MIN_CHUNK_SIZE
      ensures mem != 0 ==> InUse() == old(InUse())[mem - 8 := InUse()[mem - 8]]
      ensures mem != 0 && alignment > 8 ==> bytes < MAX_REQUEST - RoundUp(8, alignment)
      ensures mem == 0 ==> InUse() == old(InUse()) && (grow == 0 ==> State() == old(State()))
      ensures mem == 0 ==> RefusedAligned(old(State()), old(plan), alignment, bytes, grow)
      ensures Untouched(old(State()), old(plan), State(), plan)
    {
      if alignment <= 8 {
        mem := Malloc(bytes, grow);
      } else {
        var al := if alignment < MIN_CHUNK_SIZE then MIN_CHUNK_SIZE else alignment;
        var a := PowerOfTwo(al);
        assert a == RoundUp(8, alignment);
        mem := 0;
        if bytes < MAX_REQUEST - a {
          mem := AlignedMalloc(a, bytes, grow, al);
        }
      }
    }

    method AlignedMalloc(a: nat, bytes: nat, grow: nat, ghost al: nat) returns (mem: Addr)
      requires Valid() && a == RoundUp(16, al) <= MAX_POWER && bytes < MAX_REQUEST - a
      requires grow % 8 == 0 && plan.limit + grow < WORD
      modifies this
      ensures Valid() && plan.base == old(plan.base) && old(plan.limit) <= plan.limit <= old(plan.limit) + grow
      ensures mem != 0 ==> 8 < mem && mem % a == 0 && mem - 8 !in old(InUse()) && mem - 8 in InUse()
      ensures mem != 0 ==> RequestSize(bytes) <= InUse()[mem - 8] <= RequestSize(bytes) + MIN_CHUNK_SIZE
      ensures mem != 0 ==> InUse() == old(InUse())[mem - 8 := InUse()[mem - 8]]
      ensures mem == 0 ==> InUse() == old(InUse()) && (grow == 0 ==> State() == old(State()))
      ensures mem == 0 ==> Refused(old(State()), old(plan), AlignedRequest(bytes, a), grow)
      ensures Untouched(old(State()), old(plan), State(), plan)
    {
      ghost var k := Exponent(a, al);
      var nb := RequestSize(bytes);
      var req := AlignedRequest(bytes, a);
      ghost var m0, g0 := State(), plan;
      mem := Malloc(req, grow);
      if mem != 0 {
        mem := MoveWithin(mem, a, nb, k, m0, g0);
      }
    }

    /** The chunk just allocated, larger than asked for, gives way to an aligned one inside it. */
    method MoveWithin(mem: Addr, a: nat, nb: nat, ghost k: nat, ghost m0: Mem, ghost g0: Plan) returns (mem': Addr)
      requires Valid() && mem - 8 in InUse() && mem - 8 !in Live(m0, g0) && InUse() == Live(m0, g0)[mem - 8 := InUse()[mem - 8]]
      requires Untouched(m0, g0, State(), plan) && 4 <= k <= 31 && a == Pow2(k) <= MAX_POWER && 8 < mem && mem % 8 == 0
      requires nb >= MIN_CHUNK_SIZE && nb % 8 == 0 && InUse()[mem - 8] >= nb + a + MIN_CHUNK_SIZE
      modifies this
      ensures Valid() && plan.base == old(plan.base) && plan.limit == old(plan.limit)
      ensures 8 < mem' && mem' % a == 0 && mem' - 8 !in Live(m0, g0) && mem' - 8 in InUse() && AlignedIn(mem - 8, a, mem' - 8)
      ensures InUse() == Live(m0, g0)[mem' - 8 := Trimmed(old(InUse()[mem - 8]) - (mem' - mem), nb)]
      ensures Untouched(m0, g0, State(), plan)
    {
      ghost var m1, g1, p := State(), plan, mem - 8;
      ChunkFits(m1, g1, p);
      var p' := AlignChunk(mem - 8, a, nb, k);
      Moved(Live(m0, g0), Live(m1, g1), p, p', InUse());
      UntouchedFresh(m0, g0, m1, g1, State(), plan, p);
      mem' := p' + 8;
    }

    // ---- Runs ----

    /** The caller writes into the payload of a chunk in use; what lands there is arbitrary. */
    method Write(mem: Addr, w: Contents)
      requires Valid() && mem - 8 in InUse() && w.Land(mem - 8, InUse()[mem - 8])
      modifies this`head, this`foot, this`small, this`tree
      ensures Valid() && InUse() == old(InUse()) && State() == Overlaid(old(State()), w)
      ensures Written(old(State()), State(), mem - 8, InUse()[mem - 8])
    {
      ghost var m := State();
      OverlaidWritten(m, w, mem - 8, InUse()[mem - 8]);
      head, foot := head + w.heads, foot + w.feet;
      small, tree := small.(nodes := small.nodes + w.small), tree.(nodes := tree.nodes + w.tree);
      WriteKeeps(m, plan, mem - 8, State());
    }

    /**
     * Any sequence of calls and writes, `answers` being what they return, `live` the blocks handed out and not yet freed,
     * and `trace` the moments after each operation.
     */
    method Execute(ops: seq<Op>) returns (answers: seq<Addr>, live: map<Addr, Block>, ghost trace: seq<Moment>)
      requires Valid() && InUse() == map[]
      requires forall i | 0 <= i < |ops| :: ops[i].Ok()
      modifies this
      ensures Valid() && Serves(InUse(), live) && plan.base == old(plan.base) && old(plan.limit) <= plan.limit
      ensures forall a | a in live :: a % 8 == 0 && plan.base < a && a + live[a].bytes <= plan.limit
      ensures forall a, b | a in live && b in live && a < b :: a + live[a].bytes <= b
      ensures |trace| == |answers| == |ops| && Remembers(State(), InUse(), live, ops, trace)
      ensures Lately(Moment(old(State()), old(plan), map[]), trace, |ops|) == Moment(State(), plan, live)
      ensures forall i {:trigger EffectAt(Moment(old(State()), old(plan), map[]), ops, answers, trace, i)} ::
                EffectAt(Moment(old(State()), old(plan), map[]), ops, answers, trace, i)
      ensures Sum(head, InUse().Keys, plan.base, plan.limit) + Sum(head, Binned(plan), plan.base, plan.limit)
              + dvsize + topsize == plan.limit - plan.base
    {
      answers, live, trace := [], map[], [];
      ghost var u, first := InUse(), Moment(State(), plan, map[]);
      assert forall a {:trigger ServesAt(u, live, a)} :: ServesAt(u, live, a);
      for i := 0 to |ops|
        invariant Valid() && Serves(InUse(), live) && plan.base == old(plan.base) && old(plan.limit) <= plan.limit
        invariant |trace| == |answers| == i && Remembers(State(), InUse(), live, ops, trace)
        invariant Lately(first, trace, i) == Moment(State(), plan, live)
        invariant forall j {:trigger EffectAt(first, ops, answers, trace, j)} :: EffectAt(first, ops, answers, trace, j)
      {
        ghost var x, u, answers0, trace0 := Moment(State(), plan, live), InUse(), answers, trace;
        var ans;
        ghost var touched;
        ans, live, touched := Perform(ops[i], live);
        ghost var y := Moment(State(), plan, live);
        RemembersStep(x.mem, u, x.live, ops, trace, touched, y, InUse());
        answers, trace := answers + [ans], trace + [y];
        EffectsStep(first, ops, answers0, trace0, ans, y);
      }
      Conservation(State(), plan);
      forall a | a in live
        ensures a % 8 == 0 && plan.base < a && a + live[a].bytes <= plan.limit
      {
        ServedBlock(State(), plan, live, a, a);
      }
      forall a, b | a in live && b in live && a < b
        ensures a + live[a].bytes <= b
      {
        ServedBlock(State(), plan, live, a, b);
      }
    }

    /**
     * One operation. A block that is not live cannot be freed or written to; growth past the address space fails.
     * `touched` is the block allocated or written to, if any.
     */
    method Perform(op: Op, live: map<Addr, Block>) returns (ans: Addr, live': map<Addr, Block>, ghost touched: Addr)
      requires Valid() && Serves(InUse(), live) && op.Ok()
      modifies this
      ensures Valid() && Serves(InUse(), live') && plan.base == old(plan.base) && old(plan.limit) <= plan.limit
      ensures Undisturbed(old(State()), old(InUse()), live, op, touched, State(), InUse(), live')
      ensures Effect(op, Moment(old(State()), old(plan), live), ans, Moment(State(), plan, live'))
    {
      TopFacts(State(), plan, {});
      ans := 0;
      match op
      case Malloc(bytes, grow) =>
        var g := if top + topsize + grow < WORD then grow else 0;
        ans, live', touched := PerformMalloc(bytes, g, op, live);
      case Memalign(alignment, bytes, grow) =>
        var g := if top + topsize + grow < WORD then grow else 0;
        ans, live', touched := PerformMemalign(alignment, bytes, g, op, live);
      case Free(mem) =>
        live', touched := PerformFree(mem, op, live);
      case Poke(mem, words) =>
        live', touched := PerformPoke(mem, words, op, live);
    }

    method PerformMalloc(bytes: nat, grow: nat, ghost op: Op, live: map<Addr, Block>)
      returns (mem: Addr, live': map<Addr, Block>, ghost touched: Addr)
      requires Valid() && Serves(InUse(), live) && bytes < WORD && grow % 8 == 0 && plan.limit + grow < WORD
      modifies this
      ensures Valid() && Serves(InUse(), live') && plan.base == old(plan.base) && old(plan.limit) <= plan.limit
      ensures Undisturbed(old(State()), old(InUse()), live, op, touched, State(), InUse(), live')
      ensures MallocEffect(bytes, grow, Moment(old(State()), old(plan), live), mem, Moment(State(), plan, live'))
    {
      ghost var m, g, u := State(), plan, InUse();
      live', touched := live, 0;
      mem := Malloc(bytes, grow);
      if mem != 0 {
        assert ServesAt(u, live, mem);
        live', touched := live[mem := Block(bytes, true)], mem;
        ServesMore(u, InUse(), live, mem, Block(bytes, true));
      }
      StillThere(m, g, live, op, touched, State(), plan, live');
    }

    method PerformMemalign(alignment: nat, bytes: nat, grow: nat, ghost op: Op, live: map<Addr, Block>)
      returns (mem: Addr, live': map<Addr, Block>, ghost touched: Addr)
      requires Valid() && Serves(InUse(), live) && alignment <= MAX_POWER && bytes < WORD
      requires grow % 8 == 0 && plan.limit + grow < WORD
      modifies this
      ensures Valid() && Serves(InUse(), live') && plan.base == old(plan.base) && old(plan.limit) <= plan.limit
      ensures Undisturbed(old(State()), old(InUse()), live, op, touched, State(), InUse(), live')
      ensures MemalignEffect(alignment, bytes, grow, Moment(old(State()), old(plan), live), mem, Moment(State(), plan, live'))
    {
      ghost var m, g, u := State(), plan, InUse();
      live', touched := live, 0;
      mem := Memalign(alignment, bytes, grow);
      if mem != 0 {
        assert ServesAt(u, live, mem);
        live', touched := live[mem := Block(bytes, false)], mem;
        ServesMore(u, InUse(), live, mem, Block(bytes, false));
      }
      StillThere(m, g, live, op, touched, State(), plan, live');
    }

    method PerformFree(mem: Addr, ghost op: Op, live: map<Addr, Block>)
      returns (live': map<Addr, Block>, ghost touched: Addr)
      requires Valid() && Serves(InUse(), live)
      modifies this
      ensures Valid() && Serves(InUse(), live') && plan.base == old(plan.base) && old(plan.limit) <= plan.limit
      ensures Undisturbed(old(State()), old(InUse()), live, op, touched, State(), InUse(), live')
      ensures FreeEffect(mem, Moment(old(State()), old(plan), live), Moment(State(), plan, live'))
    {
      ghost var m, g, u := State(), plan, InUse();
      live', touched := live, 0;
      if mem in live {
        ServedBlock(m, g, live, mem, mem);
        Free(mem);
        live' := live - {mem};
        ServesLess(u, live, mem);
      } else {
        NothingWritten(m, g, m, g);
      }
      StillThere(m, g, live, op, touched, State(), plan, live');
    }

    method PerformPoke(mem: Addr, words: Contents, ghost op: Op, live: map<Addr, Block>)
      returns (live': map<Addr, Block>, ghost touched: Addr)
      requires Valid() && Serves(InUse(), live) && op == Poke(mem, words)
      modifies this
      ensures Valid() && Serves(InUse(), live') && plan.base == old(plan.base) && old(plan.limit) <= plan.limit
      ensures Undisturbed(old(State()), old(InUse()), live, op, touched, State(), InUse(), live')
      ensures PokeEffect(mem, words, Moment(old(State()), old(plan), live), Moment(State(), plan, live'))
    {
      ghost var m := State();
      live', touched := live, if mem in live then mem else 0;
      if mem in live {
        ServedBlock(m, plan, live, mem, mem);
        if words.Land(mem - 8, head[mem - 8].size) {
          Write(mem, words);
        }
      }
      PokeDisturbsNone(m, plan, live, op, State());
    }
  }

  /** A call of the allocator's interface, or a write of the caller's. */
  datatype Op =
    | Malloc(bytes: nat, grow: nat)
    | Memalign(alignment: nat, bytes: nat, grow: nat)
    | Free(mem: Addr)
    | Poke(mem: Addr, words: Contents)
  {
    predicate Ok() {
      match this
      case Malloc(bytes, grow) => bytes < WORD && grow % 8 == 0
      case Memalign(alignment, bytes, grow) => alignment <= MAX_POWER && bytes < WORD && grow % 8 == 0
      case Free(_) => true
      case Poke(_, _) => true
    }

    predicate Writes(a: Addr) {
      Poke? && mem == a
    }
  }

  /** What was asked for; `tight` unless for an alignment, in which case up to a whole chunk may be wasted. */
  datatype Block = Block(bytes: nat, tight: bool)

  /** A chunk of `n` bytes is large enough for the block, and not much larger. */
  ghost predicate Suits(n: nat, b: Block) {
    var nb := RequestSize(b.bytes);
    nb <= n <= nb + MIN_CHUNK_SIZE && (b.tight ==> n < nb + MIN_CHUNK_SIZE)
  }

  /** The chunks in use are exactly those of the live blocks, and each suits what was asked. */
  ghost predicate Serves(u: map<Addr, nat>, live: map<Addr, Block>) {
    0 !in live && forall a {:trigger ServesAt(u, live, a)} :: ServesAt(u, live, a)
  }

  ghost predicate ServesAt(u: map<Addr, nat>, live: map<Addr, Block>, a: Addr) {
    (a in live <==> a - 8 in u) && (a in live && a - 8 in u ==> Suits(u[a - 8], live[a]))
  }

  lemma {:induction false} ServesMore(u: map<Addr, nat>, u': map<Addr, nat>, live: map<Addr, Block>, mem: Addr, b: Block)
    requires Serves(u, live) && mem != 0 && mem - 8 in u' && u' == u[mem - 8 := u'[mem - 8]] && Suits(u'[mem - 8], b)
    ensures Serves(u', live[mem := b])
  {
    var live' := live[mem := b];
    forall a
      ensures ServesAt(u', live', a)
    {
      assert ServesAt(u, live, a);
    }
  }

  lemma {:induction false} ServesLess(u: map<Addr, nat>, live: map<Addr, Block>, mem: Addr)
    requires Serves(u, live)
    ensures Serves(u - {mem - 8}, live - {mem})
  {
    var u', live' := u - {mem - 8}, live - {mem};
    forall a
      ensures ServesAt(u', live', a)
    {
      assert ServesAt(u, live, a);
    }
  }

  lemma {:induction false} ServedBlock(m: Mem, g: Plan, live: map<Addr, Block>, a: Addr, b: Addr)
    requires Inv(m, g, {}) && Serves(Live(m, g), live) && a in live && b in live
    ensures a % 8 == 0 && g.base < a && a + live[a].bytes <= g.limit && (a < b ==> a + live[a].bytes <= b)
    ensures 8 < a && a - 8 in Live(m, g)
  {
    assert ServesAt(Live(m, g), live, a) && ServesAt(Live(m, g), live, b);
    PayloadsDisjoint(m, g, a - 8, b - 8);
  }

  // ---- Contents over a run ----

  ghost predicate UndisturbedAt(m: Mem, u: map<Addr, nat>, live: map<Addr, Block>, touched: Addr,
                                m': Mem, u': map<Addr, nat>, live': map<Addr, Block>, a: Addr) {
    && (a in live' ==> a - 8 in u')
    && (a in live' && a != touched ==>
          && a in live && live'[a] == live[a] && a - 8 in u && a - 8 in u' && u'[a - 8] == u[a - 8]
          && Intact(m, m', a - 8, u[a - 8]))
  }

  /**
   * The blocks that are live afterwards, but for `touched`, were live before, and their contents are as they were; `touched`
   * is new, or is written to on request.
   */
  ghost predicate Undisturbed(m: Mem, u: map<Addr, nat>, live: map<Addr, Block>, op: Op, touched: Addr,
                              m': Mem, u': map<Addr, nat>, live': map<Addr, Block>) {
    && (forall a {:trigger UndisturbedAt(m, u, live, touched, m', u', live', a)} ::
          UndisturbedAt(m, u, live, touched, m', u', live', a))
    && (touched in live ==> op.Writes(touched))
  }

  /** A call that keeps the payloads of what stays in use disturbs no block. */
  lemma {:induction false} StillThere(m: Mem, g: Plan, live: map<Addr, Block>, op: Op, touched: Addr,
                                      m': Mem, g': Plan, live': map<Addr, Block>)
    requires Untouched(m, g, m', g') && Serves(Live(m, g), live) && Serves(Live(m', g'), live') && touched !in live
    requires forall a | a in live' && a != touched :: a in live && live'[a] == live[a]
    requires forall p {:trigger Live(m', g')[p]} | p in Live(m', g') && p in Live(m, g) :: Live(m', g')[p] == Live(m, g)[p]
    ensures Undisturbed(m, Live(m, g), live, op, touched, m', Live(m', g'), live')
  {
    var u, u' := Live(m, g), Live(m', g');
    forall a
      ensures UndisturbedAt(m, u, live, touched, m', u', live', a)
    {
      assert ServesAt(u, live, a) && ServesAt(u', live', a);
      if a in live' && a != touched {
        assert SparedAt(m, g, m', g', a - 8);
        SparedIntact(m, m', a - 8, u[a - 8]);
      }
    }
  }

  /** Block `a` is not disturbed by a write to `mem`, if that was done at all. */
  lemma {:induction false} PokedAt(m: Mem, g: Plan, live: map<Addr, Block>, mem: Addr, m': Mem, a: Addr)
    requires Inv(m, g, {}) && Serves(Live(m, g), live) && a in live
    requires m' == m || (mem in live && mem - 8 in Live(m, g) && Written(m, m', mem - 8, Live(m, g)[mem - 8]))
    ensures a - 8 in Live(m, g) && (a != mem ==> Intact(m, m', a - 8, Live(m, g)[a - 8]))
  {
    assert ServesAt(Live(m, g), live, a);
    if a != mem && m' != m { WriteSpares(m, g, mem - 8, m', a - 8); }
  }

  lemma {:induction false} PokeDisturbsNone(m: Mem, g: Plan, live: map<Addr, Block>, op: Op, m': Mem)
    requires Inv(m, g, {}) && Serves(Live(m, g), live) && op.Poke? && Live(m', g) == Live(m, g)
    requires m' == m || (op.mem in live && op.mem - 8 in Live(m, g) && Written(m, m', op.mem - 8, Live(m, g)[op.mem - 8]))
    ensures Undisturbed(m, Live(m, g), live, op, if op.mem in live then op.mem else 0, m', Live(m', g), live)
  {
    var u, touched := Live(m, g), if op.mem in live then op.mem else 0;
    forall a
      ensures UndisturbedAt(m, u, live, touched, m', u, live, a)
    {
      if a in live { PokedAt(m, g, live, op.mem, m', a); }
    }
  }

  /** The state after an operation. */
  datatype Moment = Moment(mem: Mem, plan: Plan, live: map<Addr, Block>)

  /** What the system adds to the segment if asked: growth past the address space fails. */
  function Granted(m: Mem, grow: nat): nat {
    if m.top + m.topsize + grow < WORD then grow else 0
  }

  /** A call of `dlmalloc` hands out one new block, chosen by the policy, or nothing because it must be refused. */
  ghost predicate MallocEffect(bytes: nat, grow: nat, x: Moment, ans: Addr, y: Moment) {
    if ans == 0 then y.live == x.live && Refused(x.mem, x.plan, bytes, grow)
    else
      && bytes < MAX_REQUEST && ans !in x.live && y.live == x.live[ans := Block(bytes, true)]
      && Chosen(x.mem, x.plan, bytes, RequestSize(bytes), ans - 8)
      && DvAfter(x.mem, bytes, RequestSize(bytes), ans - 8, y.mem) && TopAfter(x.mem, RequestSize(bytes), ans - 8, y.mem)
  }

  ghost predicate MemalignEffect(alignment: nat, bytes: nat, grow: nat, x: Moment, ans: Addr, y: Moment) {
    if ans == 0 then y.live == x.live && RefusedAligned(x.mem, x.plan, alignment, bytes, grow)
    else ans !in x.live && y.live == x.live[ans := Block(bytes, false)] && ans % RoundUp(8, alignment) == 0
  }

  ghost predicate FreeEffect(mem: Addr, x: Moment, y: Moment) {
    && y.live == x.live - {mem}
    && if mem in x.live then FreedInto(x.mem, mem - 8, y.mem) else y.mem == x.mem && y.plan == x.plan
  }

  ghost predicate PokeEffect(mem: Addr, words: Contents, x: Moment, y: Moment) {
    && y.live == x.live && y.plan == x.plan
    && y.mem == if mem in x.live && words.Land(mem - 8, Size(x.mem.head, mem - 8)) then Overlaid(x.mem, words) else x.mem
  }

  /** What an operation does, and returns. */
  ghost predicate Effect(op: Op, x: Moment, ans: Addr, y: Moment) {
    match op
    case Malloc(bytes, grow) => MallocEffect(bytes, Granted(x.mem, grow), x, ans, y)
    case Memalign(alignment, bytes, grow) => MemalignEffect(alignment, bytes, Granted(x.mem, grow), x, ans, y)
    case Free(mem) => FreeEffect(mem, x, y) && ans == 0
    case Poke(mem, words) => PokeEffect(mem, words, x, y) && ans == 0
  }

  /** The moment before operation `i`. */
  ghost function Lately(first: Moment, trace: seq<Moment>, i: int): Moment {
    if 0 < i <= |trace| then trace[i - 1] else first
  }

  ghost predicate EffectAt(first: Moment, ops: seq<Op>, answers: seq<Addr>, trace: seq<Moment>, i: int) {
    0 <= i < |trace| && |trace| == |answers| <= |ops| ==> Effect(ops[i], Lately(first, trace, i), answers[i], trace[i])
  }

  lemma {:induction false} EffectsStep(first: Moment, ops: seq<Op>, answers: seq<Addr>, trace: seq<Moment>, ans: Addr, y: Moment)
    requires |trace| == |answers| < |ops| && Effect(ops[|trace|], Lately(first, trace, |trace|), ans, y)
    requires forall j {:trigger EffectAt(first, ops, answers, trace, j)} :: EffectAt(first, ops, answers, trace, j)
    ensures var answers', trace' := answers + [ans], trace + [y];
            forall j {:trigger EffectAt(first, ops, answers', trace', j)} :: EffectAt(first, ops, answers', trace', j)
  {
    var answers', trace' := answers + [ans], trace + [y];
    forall j
      ensures EffectAt(first, ops, answers', trace', j)
    {
      assert EffectAt(first, ops, answers, trace, j);
      assert 0 <= j <= |trace| ==> Lately(first, trace', j) == Lately(first, trace, j);
    }
  }

  /** Block `a` has been live ever since the moment `k`, and has not been written to after it. */
  ghost predicate LeftAlone(ops: seq<Op>, trace: seq<Moment>, k: int, a: Addr) {
    && 0 <= k < |trace| <= |ops|
    && (forall j | k <= j < |trace| :: a in trace[j].live)
    && (forall j | k < j < |trace| :: !ops[j].Writes(a))
  }

  ghost predicate RemembersAt(m: Mem, u: map<Addr, nat>, live: map<Addr, Block>, ops: seq<Op>, trace: seq<Moment>,
                              k: int, a: Addr) {
    a in live && LeftAlone(ops, trace, k, a) ==> a - 8 in u && Intact(trace[k].mem, m, a - 8, u[a - 8])
  }

  /** Every live block still holds what it held at any moment since when it has been left alone. */
  ghost predicate Remembers(m: Mem, u: map<Addr, nat>, live: map<Addr, Block>, ops: seq<Op>, trace: seq<Moment>) {
    forall k, a {:trigger RemembersAt(m, u, live, ops, trace, k, a)} :: RemembersAt(m, u, live, ops, trace, k, a)
  }

  lemma {:induction false} RemembersStep(m: Mem, u: map<Addr, nat>, live: map<Addr, Block>, ops: seq<Op>, trace: seq<Moment>,
                                         touched: Addr, y: Moment, u': map<Addr, nat>)
    requires |trace| < |ops| && Remembers(m, u, live, ops, trace) && (trace != [] ==> trace[|trace| - 1].live == live)
    requires Undisturbed(m, u, live, ops[|trace|], touched, y.mem, u', y.live)
    ensures Remembers(y.mem, u', y.live, ops, trace + [y])
  {
    var n, trace' := |trace|, trace + [y];
    var m', live' := y.mem, y.live;
    forall k, a
      ensures RemembersAt(m', u', live', ops, trace', k, a)
    {
      assert UndisturbedAt(m, u, live, touched, m', u', live', a);
      if a in live' && LeftAlone(ops, trace', k, a) && k < n {
        assert forall j | k <= j < n :: trace'[j] == trace[j];
        assert a in trace'[n - 1].live && !ops[n].Writes(a);
        assert RemembersAt(m, u, live, ops, trace, k, a);
        IntactTwice(trace[k].mem, m, m', a - 8, u[a - 8]);
      }
    }
  }

  lemma {:induction false} Exponent(a: nat, al: nat) returns (k: nat)
    requires a == RoundUp(16, al) <= MAX_POWER
    ensures 4 <= k <= 31 && a == Pow2(k)
  {
    Pow2Table();
    k := RoundUpLeast(4, al);
    if k > 31 { Pow2Increases(31, k); }
  }

  lemma {:induction false} ChunkFits(m: Mem, g: Plan, p: Addr)
    requires Inv(m, g, {}) && p in Live(m, g)
    ensures 0 < p && p % 8 == 0 && p + Live(m, g)[p] < WORD
  {
    PayloadsDisjoint(m, g, p, p);
    TopFacts(m, g, {});
    ChunkFacts(m.head, m.foot, g.chunks, SpanOf(m, g), p);
    assert NextOf(m.head, p) <= m.top by {
      assert p < m.top;
    }
  }

  /** How much of `size` bytes the aligned chunk keeps: `nb`, unless the rest is at most a smallest chunk. */
  function Trimmed(size: int, nb: nat): int {
    if size > nb + MIN_CHUNK_SIZE then nb else size
  }

  /** The aligned chunk is `p` itself if that is aligned, and otherwise starts as early as its leader can be a chunk. */
  ghost predicate AlignedIn(p: Addr, a: nat, q: Addr) {
    p > 0 && a > 0 && if (p + 8) % a == 0 then q == p else p + MIN_CHUNK_SIZE <= q <= p + a + 8
  }

  /** Of the chunk `p` in use became `q`, with the leader `p` before it and a trailer behind it where these are not null. */
  ghost predicate Parted(u: map<Addr, nat>, u': map<Addr, nat>, p: Addr, q: Addr, leader: Addr, trailer: Addr) {
    && p in u && q in u' && q > 0 && (leader == 0 ==> q == p)
    && (leader != 0 ==> 8 < leader && leader == p + 8 && q != p && q !in u && p in u')
    && (trailer != 0 ==> 8 < trailer && trailer - 8 !in u && trailer - 8 != q && trailer - 8 != p && trailer - 8 in u')
    && u' == (if trailer == 0 then u[p := u'[p]][q := u'[q]] else u[p := u'[p]][q := u'[q]][trailer - 8 := u'[trailer - 8]])
  }

  lemma {:induction false} CutTwice(u0: map<Addr, nat>, u1: map<Addr, nat>, u2: map<Addr, nat>,
                                    p: Addr, q: Addr, leader: Addr, trailer: Addr)
    requires p in u0 && q in u1 && q in u2 && q > 0 && p > 0
    requires leader == 0 ==> q == p && u1 == u0
    requires leader != 0 ==> leader == p + 8 && q !in u0 && q != p && p in u1 && u1 == u0[p := u1[p]][q := u1[q]]
    requires trailer == 0 ==> u2 == u1
    requires trailer != 0 ==> 8 < trailer && trailer - 8 !in u1 && trailer - 8 != q && trailer - 8 in u2
    requires trailer != 0 ==> u2 == u1[q := u2[q]][trailer - 8 := u2[trailer - 8]]
    ensures Parted(u0, u2, p, q, leader, trailer) && StayBut(u0, u1, p)
  {
  }

  lemma {:induction false} CutStays(u: map<Addr, nat>, u': map<Addr, nat>, p: Addr, q: Addr, leader: Addr, trailer: Addr)
    requires Parted(u, u', p, q, leader, trailer)
    ensures StayBut(u, u', p) && (leader != 0 ==> leader != trailer) && (leader != 0 ==> leader - 8 in u')
  {
  }

  /** The chunks in use once the leader and the trailer are freed. */
  lemma {:induction false} Remaining(u0: map<Addr, nat>, u1: map<Addr, nat>, p: Addr, q: Addr, leader: Addr, trailer: Addr,
                                     u: map<Addr, nat>)
    requires Parted(u0, u1, p, q, leader, trailer)
    requires u == u1 - (if leader == 0 then {} else {leader - 8}) - (if trailer == 0 then {} else {trailer - 8})
    ensures q in u && u[q] == u1[q] && u == (u0 - {p})[q := u[q]]
  {
    var v := (u0 - {p})[q := u1[q]];
    forall a
      ensures SameWord(u, v, a)
    {
    }
  }

  /** A chunk `p` that was new gave way to `q`. */
  lemma {:induction false} Moved(u0: map<Addr, nat>, u1: map<Addr, nat>, p: Addr, q: Addr, u2: map<Addr, nat>)
    requires p !in u0 && p in u1 && u1 == u0[p := u1[p]] && (q == p || q !in u1) && q in u2 && u2 == (u1 - {p})[q := u2[q]]
    ensures q !in u0 && u2 == u0[q := u2[q]] && StayBut(u0, u1, p)
  {
    assert u1 - {p} == u0;
  }

  /** With no small chunk from the bin of `nb` on, no tree chunk and a `dv` below `nb`, nothing fits. */
  lemma {:induction false} NothingSmall(m: Mem, g: Plan, nb: nat, q: Addr)
    requires Inv(m, g, {}) && MIN_CHUNK_SIZE <= nb <= 248 && nb % 8 == 0 && m.dvsize < nb && m.tree.marks == 0
    requires forall j: nat | nb / 8 <= j < 32 :: !Marked(m.small.marks, j)
    ensures !Fits(m, g, nb, q)
  {
    if IsFree(m, g, q) {
      WhereFree(m, g, q);
      NoTreeChunks(m, g, q);
      if q in SmallBins.Held(g.ls) { NoSmallFrom(m, g, nb / 8, q); }
    }
  }

  /** With no marked small bin between that of `nb` and `i`, the bins have nothing between `nb` and `8 * i` bytes. */
  lemma {:induction false} SmallestInBins(m: Mem, g: Plan, nb: nat, i: nat)
    requires Inv(m, g, {}) && nb % 8 == 0 && nb / 8 <= i <= 32 && (forall j: nat | nb / 8 <= j < i :: !Marked(m.small.marks, j))
    ensures BinsFrom(m, g, nb, 8 * i)
  {
    forall q | q in Binned(g) && q in m.head && nb <= m.head[q].size
      ensures 8 * i <= m.head[q].size
    {
      SmallOrLarge(m, g, {}, q);
      if q in SmallBins.Held(g.ls) {
        SmallBins.HeldBySize(m.small, SizesOf(m.head), g.ls, q);
        assert SmallBins.BinOk(m.small, SizesOf(m.head), g.ls, m.head[q].size / 8);
      }
    }
  }

  /** With no small chunk from the bin of `nb` on, a smallest tree chunk is the choice. */
  lemma {:induction false} SmallestInTrees(m: Mem, g: Plan, nb: nat, p: Addr)
    requires Inv(m, g, {}) && nb <= 248 && nb % 8 == 0 && m.dvsize < nb
    requires forall j: nat | nb / 8 <= j < 32 :: !Marked(m.small.marks, j)
    requires p in TreeBins.Held(g.vs) && p in m.head && TreeBins.Oldest(SizesOf(m.head), g.vs, p)
    requires forall q | q in TreeBins.Held(g.vs) && q in m.head :: m.head[p].size <= m.head[q].size
    ensures SmallChoice(m, g, nb, p)
  {
    FreeFacts(m, g, {}, p);
    SmallOrLarge(m, g, {}, p);
    SmallestInBins(m, g, nb, 32);
    forall q | q in Binned(g) && q in m.head && nb <= m.head[q].size
      ensures m.head[p].size <= m.head[q].size
    {
      SmallOrLarge(m, g, {}, q);
    }
  }

  lemma {:induction false} DvBound(m: Mem, g: Plan)
    requires Inv(m, g, {})
    ensures m.dvsize < WORD
  {
    if m.dv != 0 { FreeFacts(m, g, {}, m.dv); }
  }

  /** What a search among tree chunks says about all free chunks, for a large request. */
  lemma {:induction false} LargeFits(m: Mem, g: Plan, nb: nat, v: Addr, rsize: nat)
    requires Inv(m, g, {}) && 256 <= nb < WORD && (forall a | a in TreeBins.Held(g.vs) :: a in SizesOf(m.head))
    requires TreeBins.BestFit(SizesOf(m.head), g.vs, nb, v, rsize) && (v != 0 ==> TreeBins.Oldest(SizesOf(m.head), g.vs, v))
    requires v != 0 ==> v in m.head && IsFree(m, g, v)
    requires m.dvsize < WORD
    ensures v != 0 && rsize < Sub(m.dvsize, nb) ==> LargeChoice(m, g, nb, v) && m.head[v].size == nb + rsize
    ensures v == 0 || rsize >= Sub(m.dvsize, nb) ==>
              forall q | Fits(m, g, nb, q) :: nb <= m.dvsize <= m.head[q].size
  {
    if v != 0 { WhereFree(m, g, v); FreeFacts(m, g, {}, v); }
    forall q | Fits(m, g, nb, q)
      ensures v != 0 && rsize < Sub(m.dvsize, nb) ==> m.head[v].size <= m.head[q].size
      ensures v == 0 || rsize >= Sub(m.dvsize, nb) ==> nb <= m.dvsize <= m.head[q].size
    {
      WhereFree(m, g, q);
    }
  }
}
