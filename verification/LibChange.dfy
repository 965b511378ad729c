/** What loading leaves alone, what unloading leaves alone, and when libdl survives. */
module LibChange {
  import opened Lists
  import opened SoPool
  import opened LibGraph
  import opened LibInit
  import opened LibRecords
  import opened LibState

  // ---- Loading ----

  ghost predicate SameAt(g: Graph, h: History, g': Graph, h': History, e: Id) {
    && e in g.f && e in g'.f && g'.f[e] == g.f[e].(refcount := g'.f[e].refcount)
    && (e in g.stamp ==> e in g'.stamp && g'.stamp[e] == g.stamp[e])
    && (e in h.load ==> e in h'.load && h'.load[e] == h.load[e])
    && (e in h.done <==> e in h'.done) && (e in h.done && e in h'.done ==> h'.done[e] == h.done[e])
  }

  /** Libraries were added at the end of `solist`; those there before, except in `but`, changed only in their count. */
  ghost predicate Extends(g: Graph, h: History, g': Graph, h': History, but: set<Id>) {
    && |g.so| <= |g'.so| && g'.so[..|g.so|] == g.so && g.clock <= g'.clock && g'.held == g.held
    && h'.log == h.log && h.loads <= h'.loads
    && forall e {:trigger SameAt(g, h, g', h', e)} | e in g.so && e !in but :: SameAt(g, h, g', h', e)
  }

  lemma {:induction false} ExtendsSelf(g: Graph, extra: multiset<Id>, h: History)
    requires Inv(g, extra)
    ensures Extends(g, h, g, h, {})
  {
    InfosThere(g, extra);
  }

  lemma {:induction false} Prefix(s: seq<Id>, t: seq<Id>, e: Id)
    requires |s| <= |t| && t[..|s|] == s && e in s
    ensures e in t
  {
    var i :| 0 <= i < |s| && s[i] == e;
    assert t[i] == t[..|s|][i];
  }

  lemma {:induction false} ExtendsTwice(g: Graph, h: History, g1: Graph, h1: History, g2: Graph, h2: History,
                                        but1: set<Id>, but2: set<Id>, but: set<Id>)
    requires Extends(g, h, g1, h1, but1) && Extends(g1, h1, g2, h2, but2)
    requires forall e | e in g.so && (e in but1 || e in but2) :: e in but
    ensures Extends(g, h, g2, h2, but)
  {
    assert g2.so[..|g.so|] == g2.so[..|g1.so|][..|g.so|];
    forall e | e in g.so && e !in but
      ensures SameAt(g, h, g2, h2, e)
    {
      Prefix(g.so, g1.so, e);
      assert SameAt(g, h, g1, h1, e) && SameAt(g1, h1, g2, h2, e);
    }
  }

  lemma {:induction false} AddedExtends(g: Graph, extra: multiset<Id>, h: History, e: Id, name: string)
    requires Inv(g, extra) && e !in g.so
    ensures Extends(g, h, Added(g, e, name), NewLoad(h, e), {})
  {
    InfosThere(g, extra);
    var g', h' := Added(g, e, name), NewLoad(h, e);
    forall d | d in g.so
      ensures SameAt(g, h, g', h', d)
    {
    }
  }

  /** Only records that were not there at the time differ. */
  lemma {:induction false} LaterExtends(g: Graph, h: History, g1: Graph, h1: History, e: Id, i': Info)
    requires Extends(g, h, g1, h1, {}) && e !in g.so
    ensures Extends(g, h, g1.(f := g1.f[e := i']), h1, {})
  {
    var g' := g1.(f := g1.f[e := i']);
    forall d | d in g.so
      ensures SameAt(g, h, g', h1, d)
    {
      assert SameAt(g, h, g1, h1, d);
    }
  }

  /** The record added last was taken off again. */
  lemma {:induction false} AbandonedExtends(g: Graph, h: History, g1: Graph, h1: History, e: Id, k: nat)
    requires Extends(g, h, g1, h1, {}) && g1.so == g.so + [e] && e !in g.so && k < |g1.so| && g1.so[k] == e
    ensures Without(g1.so, k) == g.so && Extends(g, h, g1.(so := g.so), h1, {})
  {
    assert forall i | 0 <= i < |g.so| :: g.so[i] in g.so;
    var g' := g1.(so := g.so);
    forall d | d in g.so
      ensures SameAt(g, h, g', h1, d)
    {
      assert SameAt(g, h, g1, h1, d);
    }
  }

  lemma {:induction false} PatchedExtends(g: Graph, extra: multiset<Id>, h: History, e: Id, x: Id)
    requires Inv(g, extra) && e in g.f && x in g.f
    ensures Extends(g, h, PatchedGraph(g, e, x), h, {e})
  {
    InfosThere(g, extra);
    var g' := PatchedGraph(g, e, x);
    forall d | d in g.so && d != e
      ensures SameAt(g, h, g', h, d)
    {
    }
  }

  /** Only the record of `e`, and when it was linked, changed. */
  lemma {:induction false} RecordExtends(g: Graph, extra: multiset<Id>, h: History, e: Id, g': Graph)
    requires Inv(g, extra) && e in g'.f && g' == g.(f := g.f[e := g'.f[e]], stamp := g'.stamp, clock := g'.clock)
    requires g.clock <= g'.clock && (g'.stamp == g.stamp || (e in g'.stamp && g'.stamp == g.stamp[e := g'.stamp[e]]))
    ensures Extends(g, h, g', h, {e})
  {
    InfosThere(g, extra);
    forall d | d in g.so && d != e
      ensures SameAt(g, h, g', h, d)
    {
    }
  }

  // ---- Initialisers ----

  ghost predicate CalledAt(f: Infos, f': Infos, e: Id) {
    (e in f <==> e in f') && (e in f && e in f' ==> f'[e] == f[e].(called := f'[e].called))
  }

  /** Only the `constructors_called` marks changed. */
  ghost predicate OnlyCalled(f: Infos, f': Infos) {
    forall e {:trigger CalledAt(f, f', e)} :: CalledAt(f, f', e)
  }

  lemma {:induction false} OnlyCalledTwice(f: Infos, f1: Infos, f2: Infos)
    requires OnlyCalled(f, f1) && OnlyCalled(f1, f2)
    ensures OnlyCalled(f, f2)
  {
    forall e: Id
      ensures CalledAt(f, f2, e)
    {
      assert CalledAt(f, f1, e) && CalledAt(f1, f2, e);
    }
  }

  /** Marking constructors as called changes no rank. */
  lemma {:induction false} RankSame(g: Graph, g': Graph, e: Id)
    requires OnlyCalled(g.f, g'.f) && g'.stamp == g.stamp && g'.clock == g.clock
    ensures Rank(g', e) == Rank(g, e)
  {
    assert CalledAt(g.f, g'.f, e);
  }

  /** What slot `i` of `si` names is a usable library that ranks below `si` and below all of `active`. */
  lemma {:induction false} RanksBelow(g0: Graph, g: Graph, active: set<Id>, ph: Phase, exe: Id, si: Id, i: nat)
    requires OnlyCalled(g0.f, g.f) && g.stamp == g0.stamp && g.clock == g0.clock && Inv(g, ph.extra)
    requires Records(g.f, g.so, exe, ph.dying, ph.spared) && si !in ph.dying
    requires forall e | e in active :: Rank(g0, si) < Rank(g0, e)
    requires si in g.so && si in g.f && i < |g.f[si].slots|
    ensures var x := g.f[si].slots[i];
            && x in g.so && x in g.f && Usable(g.f[x]) && Rank(g, x) < Rank(g0, si)
            && forall e | e in active + {si} :: Rank(g, x) < Rank(g, e)
  {
    assert SlotOk(g, si, i) && RecordAt(g.f, g.so, ph.dying, ph.spared, si) && SlotNamed(g.f, ph.dying, si, i);
    RankSame(g0, g, si);
    forall e | e in active + {si}
      ensures Rank(g, g.f[si].slots[i]) < Rank(g, e)
    {
      RankSame(g0, g, e);
    }
  }

  // ---- A whole `dlopen` ----

  /** A library that was there still is, and changed only in its count. */
  ghost predicate CountedAt(g: Graph, g': Graph, e: Id) {
    e in g.so && e in g.f ==> e in g'.so && e in g'.f && g'.f[e] == g.f[e].(refcount := g'.f[e].refcount)
  }

  lemma {:induction false} ExtendsCounted(g: Graph, h: History, g': Graph, h': History, e: Id)
    requires Extends(g, h, g', h', {})
    ensures CountedAt(g, g', e)
  {
    if e in g.so {
      assert SameAt(g, h, g', h', e);
      Prefix(g.so, g'.so, e);
    }
  }

  ghost predicate GrownAt(g: Graph, h: History, g': Graph, h': History, e: Id) {
    && e in g.f && e in g'.f && g'.f[e] == g.f[e].(refcount := g'.f[e].refcount, called := g'.f[e].called)
    && (e in h.done ==> e in h'.done && h'.done[e] == h.done[e])
  }

  /** Libraries were added at the end, initialisers ran, and what had been initialised was left alone. */
  ghost predicate Grown(g: Graph, h: History, g': Graph, h': History) {
    && |g.so| <= |g'.so| && g'.so[..|g.so|] == g.so && h.log <= h'.log
    && forall e {:trigger GrownAt(g, h, g', h', e)} | e in g.so :: GrownAt(g, h, g', h', e)
  }

  /** On `solist`, usable and initialised. */
  ghost predicate ReadyAt(g: Graph, h: History, e: Id) {
    e in g.so && e in g.f && Usable(g.f[e]) && e in h.done
  }

  lemma {:induction false} StillReady(g: Graph, h: History, g': Graph, h': History, e: Id)
    requires Grown(g, h, g', h') && ReadyAt(g, h, e)
    ensures ReadyAt(g', h', e)
  {
    assert GrownAt(g, h, g', h', e);
    Prefix(g.so, g'.so, e);
  }

  lemma {:induction false} ExtendsGrown(g: Graph, h: History, g': Graph, h': History)
    requires Extends(g, h, g', h', {})
    ensures Grown(g, h, g', h')
  {
    forall e | e in g.so
      ensures GrownAt(g, h, g', h', e)
    {
      assert SameAt(g, h, g', h', e);
    }
  }

  /** Initialisers ran, and then a reference to `x` was taken. */
  lemma {:induction false} AdoptedGrown(g: Graph, h: History, g1: Graph, h1: History, g2: Graph, h2: History, x: Id)
    requires Grown(g, h, g1, h1) && OnlyCalled(g1.f, g2.f) && g2.so == g1.so && Later(h1, h2) && x in g2.f
    ensures Grown(g, h, Opened(g2, x), h2)
  {
    var g' := Opened(g2, x);
    forall e | e in g.so
      ensures GrownAt(g, h, g', h2, e)
    {
      assert GrownAt(g, h, g1, h1, e) && CalledAt(g1.f, g2.f, e) && LaterAt(h1, h2, e);
    }
  }

  // ---- Unloading ----

  ghost predicate RecededAt(g: Graph, g': Graph, r: nat, but: set<Id>, e: Id) {
    && (e in g'.so ==>
          && e in g.so && e in g.f && e in g'.f && g'.f[e].refcount <= g.f[e].refcount
          && (e !in but ==> g'.f[e] == g.f[e].(refcount := g'.f[e].refcount)))
    && (e in g.so && r < Rank(g, e) ==> e in g'.so && e in g.f && e in g'.f && g'.f[e] == g.f[e])
  }

  /**
   * Nothing was added; what is left, except in `but`, changed only in its count; and libraries linked after rank `r`,
   * which includes all that failed, did not change at all.
   */
  ghost predicate Receded(g: Graph, g': Graph, r: nat, but: set<Id>) {
    && g'.stamp == g.stamp && g'.clock == g.clock && g'.held == g.held
    && forall e {:trigger RecededAt(g, g', r, but, e)} :: RecededAt(g, g', r, but, e)
  }

  lemma {:induction false} RecededSelf(g: Graph, extra: multiset<Id>, r: nat, but: set<Id>)
    requires Inv(g, extra)
    ensures Receded(g, g, r, but)
  {
    InfosThere(g, extra);
  }

  /** Libraries linked after rank `r` keep their ranks. */
  lemma {:induction false} StillAbove(g: Graph, g': Graph, r: nat, but: set<Id>, above: set<Id>)
    requires Receded(g, g', r, but) && forall e | e in above :: e in g.so && r < Rank(g, e)
    ensures forall e | e in above :: e in g'.so && r < Rank(g', e)
  {
    forall e | e in above
      ensures e in g'.so && r < Rank(g', e)
    {
      assert RecededAt(g, g', r, but, e);
    }
  }

  lemma {:induction false} ClearedRecedes(g0: Graph, g: Graph, si: Id, j: nat)
    requires si in g.so && si in g.f && j < |g.f[si].slots| && Receded(g0, g, Rank(g, si), {si})
    ensures Rank(Cleared(g, si, j), si) == Rank(g, si) && Receded(g0, Cleared(g, si, j), Rank(g, si), {si})
  {
    var g', r := Cleared(g, si, j), Rank(g, si);
    forall e: Id
      ensures RecededAt(g0, g', r, {si}, e)
    {
      assert RecededAt(g0, g, r, {si}, e);
    }
  }

  lemma {:induction false} ReleasedRecedes(g0: Graph, g2: Graph, g3: Graph, si: Id, q: nat)
    requires si in g2.so && si in g2.f && Receded(g0, g2, Rank(g2, si), {si}) && Receded(g2, g3, q, {}) && q < Rank(g2, si)
    ensures Receded(g0, g3, Rank(g2, si), {si}) && si in g3.so && si in g3.f && g3.f[si] == g2.f[si]
    ensures Rank(g3, si) == Rank(g2, si)
  {
    var r := Rank(g2, si);
    assert RecededAt(g2, g3, q, {}, si);
    forall e: Id
      ensures RecededAt(g0, g3, r, {si}, e)
    {
      assert RecededAt(g0, g2, r, {si}, e) && RecededAt(g2, g3, q, {}, e);
    }
  }

  lemma {:induction false} RemovedRecedes(g0: Graph, g: Graph, k: nat)
    requires k < |g.so| && NoRepeats(g.so) && g.so[k] in g.f && Receded(g0, g, Rank(g, g.so[k]), {g.so[k]})
    ensures Receded(g0, Removed(g, k), Rank(g, g.so[k]), {})
  {
    var g', r := Removed(g, k), Rank(g, g.so[k]);
    forall e: Id
      ensures RecededAt(g0, g', r, {}, e)
    {
      assert RecededAt(g0, g, r, {g.so[k]}, e);
      WithoutElements(g.so, k, e);
    }
  }

  lemma {:induction false} DroppedRecedes(g: Graph, extra: multiset<Id>, x: Id)
    requires Inv(g, extra) && x in g.f
    ensures Receded(g, Dropped(g, x), Rank(g, x), {})
  {
    InfosThere(g, extra);
    var g', r := Dropped(g, x), Rank(g, x);
    forall e: Id
      ensures RecededAt(g, g', r, {}, e)
    {
    }
  }

  // ---- Routes ----

  /** A chain of slots to `x` from a reference that is never given up, or from a library that failed. */
  ghost predicate Rooted(g: Graph, kept: multiset<Id>, p: seq<Id>, x: Id) {
    IsRoute(g.(held := kept), p, x)
  }

  ghost predicate SlotsKeptAt(g: Graph, g': Graph, e: Id) {
    e in g.so && e in g.f ==> e in g'.so && e in g'.f && g'.f[e].slots == g.f[e].slots && Usable(g'.f[e]) == Usable(g.f[e])
  }

  lemma {:induction false} RootedKept(g: Graph, g': Graph, kept: multiset<Id>, p: seq<Id>, x: Id)
    requires Rooted(g, kept, p, x) && forall i | 0 <= i < |p| :: SlotsKeptAt(g, g', p[i])
    ensures Rooted(g', kept, p, x)
  {
    PathKept(g.(held := kept), g'.(held := kept), p);
  }

  lemma {:induction false} RootedGrown(g: Graph, h: History, g': Graph, h': History, kept: multiset<Id>, p: seq<Id>, x: Id)
    requires Grown(g, h, g', h') && Rooted(g, kept, p, x)
    ensures Rooted(g', kept, p, x)
  {
    forall i | 0 <= i < |p|
      ensures SlotsKeptAt(g, g', p[i])
    {
      if p[i] in g.so {
        assert GrownAt(g, h, g', h', p[i]);
        Prefix(g.so, g'.so, p[i]);
      }
    }
    RootedKept(g, g', kept, p, x);
  }

  /** Whatever a route leads through is on `solist`. */
  lemma {:induction false} RootedThere(g: Graph, extra: multiset<Id>, kept: multiset<Id>, p: seq<Id>, x: Id, k: nat)
    requires Inv(g, extra) && Rooted(g, kept, p, x) && k < |p| && kept <= g.held
    ensures p[k] in g.so && p[k] in g.f && (k > 0 ==> Usable(g.f[p[k]]))
  {
    assert EntryOk(g, extra, p[k]);
    if k > 0 {
      assert DependsAt(g.(held := kept), p, k - 1);
      var i :| 0 <= i < |g.f[p[k - 1]].slots| && g.f[p[k - 1]].slots[i] == p[k];
      assert SlotOk(g, p[k - 1], i);
    }
  }

  /** Unloading keeps every library on a route. */
  lemma {:induction false} RouteStays(g: Graph, g': Graph, r: nat, kept: multiset<Id>, p: seq<Id>, x: Id, k: nat)
    requires Inv(g', multiset{}) && Receded(g, g', r, {}) && r < g.clock
    requires Rooted(g, kept, p, x) && kept <= g'.held && k < |p|
    ensures p[k] in g'.so && SlotsKeptAt(g, g', p[k])
  {
    assert RecededAt(g, g', r, {}, p[k]) && EntryOk(g', multiset{}, p[k]);
    if k > 0 {
      RouteStays(g, g', r, kept, p, x, k - 1);
      assert DependsAt(g.(held := kept), p, k - 1);
      var i :| 0 <= i < |g.f[p[k - 1]].slots| && g.f[p[k - 1]].slots[i] == p[k];
      assert SlotOk(g', p[k - 1], i);
    }
  }

  lemma {:induction false} RootedStays(g: Graph, g': Graph, r: nat, kept: multiset<Id>, p: seq<Id>, x: Id)
    requires Inv(g', multiset{}) && Receded(g, g', r, {}) && r < g.clock
    requires Rooted(g, kept, p, x) && kept <= g'.held
    ensures Rooted(g', kept, p, x)
  {
    forall k | 0 <= k < |p|
      ensures SlotsKeptAt(g, g', p[k])
    {
      RouteStays(g, g', r, kept, p, x, k);
    }
    RootedKept(g, g', kept, p, x);
  }

  /** A usable library other than libdl stays on `solist` only as long as a chain of slots leads to it from a root. */
  lemma {:induction false} LoadedIsReached(g: Graph, h: History, exe: Id, x: Id) returns (p: seq<Id>)
    requires Sound(g, h, exe, REST) && x in g.so && x in g.f && Usable(g.f[x]) && (x != LIBDL || g.f[x].refcount > 0)
    ensures IsRoute(g, p, x)
  {
    forall e | e in g.so && e in g.f && Usable(g.f[e])
      ensures e == LIBDL || g.f[e].refcount > 0
    {
      assert RecordAt(g.f, g.so, {}, {}, e);
    }
    p := Reached(g, x);
  }

  // ---- When libdl survives ----

  /** Libdl is on the route `p`, or, if `p` is empty, cannot be reached from the references being given up. */
  ghost predicate Guard(g: Graph, extra: multiset<Id>, p: seq<Id>) {
    if p == [] then
      forall q {:trigger Path(g, q)} | q != [] && Path(g, q) && q[0] in extra :: q[|q| - 1] != LIBDL
    else
      IsRoute(g, p, LIBDL)
  }

  /** The library that is unloaded is neither libdl nor on the route. */
  lemma {:induction false} GuardSpares(g: Graph, extra: multiset<Id>, p: seq<Id>, si: Id)
    requires Inv(g, extra) && Guard(g, extra, p) && si in extra && si in g.f && g.f[si].refcount == 1
    ensures si != LIBDL && forall k | 0 <= k < |p| :: p[k] != si
  {
    assert EntryOk(g, extra, si);
    if p == [] {
      assert Path(g, [si]);
    } else {
      forall k | 0 <= k < |p|
        ensures p[k] != si
      {
        if p[k] == si { RoutePins(g, extra, p, LIBDL, k); }
      }
    }
  }

  ghost predicate FewerSlotsAt(g: Graph, g': Graph, e: Id) {
    e in g'.so && e in g'.f ==> e in g.so && e in g.f && forall x | x in g'.f[e].slots && x != NULL :: x in g.f[e].slots
  }

  lemma {:induction false} PathWas(g: Graph, g': Graph, q: seq<Id>)
    requires Path(g', q) && forall e {:trigger FewerSlotsAt(g, g', e)} :: FewerSlotsAt(g, g', e)
    ensures Path(g, q)
  {
    forall i
      ensures DependsAt(g, q, i)
    {
      assert DependsAt(g', q, i);
      if 0 <= i < |q| - 1 { assert FewerSlotsAt(g, g', q[i]); }
    }
  }

  /** Slots and references of a library that is not on the route go away. */
  lemma {:induction false} GuardKept(g: Graph, extra: multiset<Id>, p: seq<Id>, g': Graph, extra': multiset<Id>)
    requires Guard(g, extra, p) && extra' <= extra && g'.held == g.held
    requires forall e {:trigger FewerSlotsAt(g, g', e)} :: FewerSlotsAt(g, g', e)
    requires forall k | 0 <= k < |p| :: SlotsKeptAt(g, g', p[k])
    ensures Guard(g', extra', p)
  {
    if p == [] {
      forall q | q != [] && Path(g', q) && q[0] in extra'
        ensures q[|q| - 1] != LIBDL
      {
        PathWas(g, g', q);
      }
    } else {
      PathKept(g, g', p);
    }
  }

  lemma {:induction false} GuardCleared(g: Graph, extra: multiset<Id>, p: seq<Id>, si: Id, j: nat)
    requires Inv(g, extra) && Guard(g, extra, p) && si in extra && si in g.so && si in g.f && g.f[si].refcount == 1
    requires j < |g.f[si].slots| && g.f[si].slots[j] != NULL
    ensures Guard(Cleared(g, si, j), extra + multiset{g.f[si].slots[j]}, p)
  {
    var g', x := Cleared(g, si, j), g.f[si].slots[j];
    var extra' := extra + multiset{x};
    GuardSpares(g, extra, p, si);
    forall e: Id
      ensures FewerSlotsAt(g, g', e)
    {
    }
    if p == [] {
      forall q | q != [] && Path(g', q) && q[0] in extra'
        ensures q[|q| - 1] != LIBDL
      {
        PathWas(g, g', q);
        if q[0] == x {
          PathCons(g, si, q);
          assert ([si] + q)[|q|] == q[|q| - 1];
        }
      }
    } else {
      PathKept(g, g', p);
    }
  }

  lemma {:induction false} GuardRemoved(g: Graph, extra: multiset<Id>, p: seq<Id>, k: nat)
    requires Inv(g, extra) && Guard(g, extra, p) && k < |g.so| && g.so[k] in extra && g.so[k] in g.f && g.f[g.so[k]].refcount == 1
    ensures Guard(Removed(g, k), extra - multiset{g.so[k]}, p)
  {
    var g' := Removed(g, k);
    GuardSpares(g, extra, p, g.so[k]);
    forall e: Id
      ensures FewerSlotsAt(g, g', e) && (e != g.so[k] ==> SlotsKeptAt(g, g', e))
    {
      WithoutElements(g.so, k, e);
    }
    GuardKept(g, extra, p, g', extra - multiset{g.so[k]});
  }

  lemma {:induction false} GuardDropped(g: Graph, extra: multiset<Id>, p: seq<Id>, x: Id)
    requires Guard(g, extra, p) && x in g.f
    ensures Guard(Dropped(g, x), extra - multiset{x}, p)
  {
    var g' := Dropped(g, x);
    forall e: Id
      ensures FewerSlotsAt(g, g', e) && SlotsKeptAt(g, g', e)
    {
    }
    GuardKept(g, extra, p, g', extra - multiset{x});
  }

  /**
   * The guard is needed: if there is no route and libdl can be reached, any end of the unloading that forgets nothing
   * leaves libdl, which was referred to before, without a reference. Its count can get there only through the branch
   * that unloads it.
   */
  lemma {:induction false} GuardNeeded(g: Graph, extra: multiset<Id>, g': Graph, h': History, exe: Id)
    requires Inv(g, extra) && LIBDL in g.so && LIBDL in g.f && !Guard(g, extra, [])
    requires forall p {:trigger IsRoute(g, p, LIBDL)} :: !IsRoute(g, p, LIBDL)
    requires Sound(g', h', exe, REST) && LIBDL in g'.so && g'.held == g.held
    requires forall e {:trigger FewerSlotsAt(g, g', e)} :: FewerSlotsAt(g, g', e)
    requires forall e | e in g'.so && e in g'.f && e in g.f && !Usable(g'.f[e]) :: !Usable(g.f[e])
    ensures g.f[LIBDL].refcount > 0 && g'.f[LIBDL].refcount <= 0
  {
    var q :| q != [] && Path(g, q) && q[0] in extra && q[|q| - 1] == LIBDL;
    Pointed(g, extra, q);
    if g'.f[LIBDL].refcount > 0 {
      var p := LoadedIsReached(g', h', exe, LIBDL);
      RouteWas(g, g', p, LIBDL);
    }
  }

  lemma {:induction false} RouteWas(g: Graph, g': Graph, p: seq<Id>, x: Id)
    requires IsRoute(g', p, x) && g'.held == g.held && forall e {:trigger FewerSlotsAt(g, g', e)} :: FewerSlotsAt(g, g', e)
    requires forall e | e in g'.so && e in g'.f && e in g.f && !Usable(g'.f[e]) :: !Usable(g.f[e])
    ensures IsRoute(g, p, x)
  {
    PathWas(g, g', p);
    assert FewerSlotsAt(g, g', p[0]);
  }

  lemma {:induction false} Pointed(g: Graph, extra: multiset<Id>, q: seq<Id>)
    requires Inv(g, extra) && q != [] && Path(g, q) && q[0] in extra && q[|q| - 1] in g.so && q[|q| - 1] in g.f
    ensures g.f[q[|q| - 1]].refcount > 0
  {
    var n := |q| - 1;
    assert EntryOk(g, extra, q[n]);
    if n > 0 {
      assert DependsAt(g, q, n - 1);
      var k :| 0 <= k < |g.so| && g.so[k] == q[n - 1];
      CountIn(g.f[q[n - 1]].slots, q[n]);
      RefsAtLeast(g.f, g.so, k, q[n]);
    }
  }

  /** At rest, libdl is on a route exactly if its count is positive. */
  lemma {:induction false} RoutedIffCounted(g: Graph, h: History, exe: Id)
    requires Sound(g, h, exe, REST) && LIBDL in g.so
    ensures (exists p :: IsRoute(g, p, LIBDL)) <==> g.f[LIBDL].refcount > 0
  {
    if p :| IsRoute(g, p, LIBDL) {
      RoutePins(g, multiset{}, p, LIBDL, |p| - 1);
    }
    if g.f[LIBDL].refcount > 0 {
      var p := LoadedIsReached(g, h, exe, LIBDL);
    }
  }

  /** Where nothing refers to libdl, opening and closing it once has the static record unloaded: the guard fails for all routes. */
  lemma {:induction false} LibdlUnguarded(g: Graph, h: History, exe: Id, p: seq<Id>)
    requires Sound(g, h, exe, REST) && LIBDL in g.so && g.f[LIBDL].refcount == 0
    ensures var g1 := Opened(g, LIBDL).(held := g.held);
            Inv(g1, multiset{LIBDL}) && g1.f[LIBDL].refcount == 1 && !Guard(g1, multiset{LIBDL}, p)
  {
    var g1 := Opened(g, LIBDL);
    var g2 := g1.(held := g.held);
    SoundOpened(g, h, exe, {}, LIBDL);
    assert g1.held - multiset{LIBDL} == g.held;
    SoundClosing(g1, h, exe, LIBDL);
    if Guard(g2, multiset{LIBDL}, p) {
      GuardSpares(g2, multiset{LIBDL}, p, LIBDL);
    }
  }
}
