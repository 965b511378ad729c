/** The library dependency graph: reference counts, link order, and what each elementary change keeps. */
module LibGraph {
  import opened Lists
  import opened SoPool

  /**
   * A library record. `needed` are the names of its `DT_NEEDED` entries, `slots` the payloads of those patched so far,
   * 0 once they are cleared again.
   */
  datatype Info = Info(name: string, needed: seq<string>, linked: bool, error: bool, refcount: int, slots: seq<Id>, called: bool)

  type Infos = map<Id, Info>

  /** Linked and not failed: `find_library` may hand it out. */
  predicate Usable(i: Info) {
    i.linked && !i.error
  }

  // ---- Counting references ----

  ghost function Named(f: Infos, e: Id, x: Id): nat {
    if e in f then Count(f[e].slots, x) else 0
  }

  /** How many slots of the libraries `so` name `x`. */
  ghost function Refs(f: Infos, so: seq<Id>, x: Id): nat {
    if so == [] then 0 else Refs(f, so[..|so| - 1], x) + Named(f, so[|so| - 1], x)
  }

  lemma {:induction false} RefsSnoc(f: Infos, so: seq<Id>, e: Id, x: Id)
    ensures Refs(f, so + [e], x) == Refs(f, so, x) + Named(f, e, x)
  {
    assert (so + [e])[..|so|] == so;
  }

  lemma {:induction false} RefsConcat(f: Infos, a: seq<Id>, b: seq<Id>, x: Id)
    ensures Refs(f, a + b, x) == Refs(f, a, x) + Refs(f, b, x)
    decreases |b|
  {
    if b == [] {
      assert a + b == a;
    } else {
      var n := |b| - 1;
      RefsConcat(f, a, b[..n], x);
      assert a + b == (a + b[..n]) + [b[n]];
      RefsSnoc(f, a + b[..n], b[n], x);
    }
  }

  lemma {:induction false} RefsWithout(f: Infos, so: seq<Id>, k: nat, x: Id)
    requires k < |so|
    ensures Refs(f, so, x) == Refs(f, Without(so, k), x) + Named(f, so[k], x)
  {
    assert so == (so[..k] + [so[k]]) + so[k + 1..];
    RefsConcat(f, so[..k] + [so[k]], so[k + 1..], x);
    RefsConcat(f, so[..k], so[k + 1..], x);
    RefsSnoc(f, so[..k], so[k], x);
  }

  lemma {:induction false} RefsFrame(f: Infos, f': Infos, so: seq<Id>, x: Id)
    requires forall i | 0 <= i < |so| :: Named(f', so[i], x) == Named(f, so[i], x)
    ensures Refs(f', so, x) == Refs(f, so, x)
    decreases |so|
  {
    if so != [] {
      var n := |so| - 1;
      assert forall i | 0 <= i < n :: so[..n][i] == so[i];
      RefsFrame(f, f', so[..n], x);
    }
  }

  /** Only the slots of `so[k]` changed. */
  lemma {:induction false} RefsChange(f: Infos, f': Infos, so: seq<Id>, k: nat, x: Id)
    requires NoRepeats(so) && k < |so|
    requires forall e {:trigger Named(f', e, x)} | e != so[k] :: Named(f', e, x) == Named(f, e, x)
    ensures Refs(f', so, x) + Named(f, so[k], x) == Refs(f, so, x) + Named(f', so[k], x)
  {
    var rest := Without(so, k);
    forall i | 0 <= i < |rest|
      ensures Named(f', rest[i], x) == Named(f, rest[i], x)
    {
      assert rest[i] == so[if i < k then i else i + 1];
    }
    RefsFrame(f, f', rest, x);
    RefsWithout(f, so, k, x);
    RefsWithout(f', so, k, x);
  }

  lemma {:induction false} RefsNone(f: Infos, so: seq<Id>, x: Id)
    requires forall i | 0 <= i < |so| :: Named(f, so[i], x) == 0
    ensures Refs(f, so, x) == 0
    decreases |so|
  {
    if so != [] {
      var n := |so| - 1;
      assert forall i | 0 <= i < n :: so[..n][i] == so[i];
      RefsNone(f, so[..n], x);
    }
  }

  lemma {:induction false} RefsAtLeast(f: Infos, so: seq<Id>, k: nat, x: Id)
    requires k < |so|
    ensures Refs(f, so, x) >= Named(f, so[k], x)
  {
    RefsWithout(f, so, k, x);
  }

  // ---- The invariant ----

  /** The records, `solist`, the order in which libraries were linked, and the references held from outside. */
  datatype Graph = Graph(f: Infos, so: seq<Id>, stamp: map<Id, nat>, clock: nat, held: multiset<Id>)

  /** When a library was linked; one that is not usable counts as not linked yet. */
  ghost function Rank(g: Graph, e: Id): nat {
    if e in g.f && Usable(g.f[e]) && e in g.stamp then g.stamp[e] else g.clock
  }

  /** A slot is clear, or names a usable library on `solist` that was linked before its owner. */
  ghost predicate SlotOk(g: Graph, e: Id, i: int) {
    e in g.so && e in g.f && 0 <= i < |g.f[e].slots| ==>
      var x := g.f[e].slots[i];
      x == NULL || (x in g.so && x in g.f && Usable(g.f[x]) && x in g.stamp && g.stamp[x] < Rank(g, e))
  }

  /**
   * A reference count is the number of references held from outside, plus those being given up right now,
   * plus the slots that name the library.
   */
  ghost predicate EntryOk(g: Graph, extra: multiset<Id>, e: Id) {
    && (e in g.so ==>
          && e != NULL && e in g.f
          && g.f[e].refcount == g.held[e] + extra[e] + Refs(g.f, g.so, e)
          && (Usable(g.f[e]) ==> e in g.stamp && g.stamp[e] < g.clock))
    && (g.held[e] + extra[e] > 0 ==> e in g.so)
    && (extra[e] > 0 ==> e in g.f && Usable(g.f[e]))
  }

  ghost predicate Inv(g: Graph, extra: multiset<Id>) {
    && NoRepeats(g.so)
    && (forall e {:trigger EntryOk(g, extra, e)} :: EntryOk(g, extra, e))
    && (forall e, i {:trigger SlotOk(g, e, i)} :: SlotOk(g, e, i))
  }

  /** A library that is not usable, or not there at all, is named by no slot. */
  lemma {:induction false} Unnamed(g: Graph, extra: multiset<Id>, x: Id, k: nat)
    requires Inv(g, extra) && x != NULL && (x !in g.so || x !in g.f || !Usable(g.f[x])) && k < |g.so|
    ensures Named(g.f, g.so[k], x) == 0
  {
    var e := g.so[k];
    assert EntryOk(g, extra, e);
    CountIn(g.f[e].slots, x);
    forall i | 0 <= i < |g.f[e].slots|
      ensures g.f[e].slots[i] != x
    {
      assert SlotOk(g, e, i);
    }
  }

  lemma {:induction false} NoRefs(g: Graph, extra: multiset<Id>, x: Id)
    requires Inv(g, extra) && x != NULL && (x !in g.so || x !in g.f || !Usable(g.f[x]))
    ensures Refs(g.f, g.so, x) == 0
  {
    forall k | 0 <= k < |g.so|
      ensures Named(g.f, g.so[k], x) == 0
    {
      Unnamed(g, extra, x, k);
    }
    RefsNone(g.f, g.so, x);
  }

  // ---- What the invariant says ----

  /** Consecutive libraries of `p` depend on one another directly. */
  ghost predicate Path(g: Graph, p: seq<Id>) {
    forall i {:trigger DependsAt(g, p, i)} :: DependsAt(g, p, i)
  }

  ghost predicate DependsAt(g: Graph, p: seq<Id>, i: int) {
    0 <= i < |p| - 1 ==> p[i] in g.so && p[i] in g.f && p[i + 1] in g.f[p[i]].slots && p[i + 1] != NULL
  }

  lemma {:induction false} PathDescends(g: Graph, extra: multiset<Id>, p: seq<Id>, i: nat, j: nat)
    requires Inv(g, extra) && Path(g, p) && i < j < |p|
    ensures Rank(g, p[j]) < Rank(g, p[i])
    decreases j
  {
    assert DependsAt(g, p, j - 1);
    var e := p[j - 1];
    var k :| 0 <= k < |g.f[e].slots| && g.f[e].slots[k] == p[j];
    assert SlotOk(g, e, k);
    if i < j - 1 { PathDescends(g, extra, p, i, j - 1); }
  }

  /** The dependency graph has no cycles. */
  lemma {:induction false} Acyclic(g: Graph, extra: multiset<Id>, p: seq<Id>)
    requires Inv(g, extra) && Path(g, p) && |p| > 1
    ensures p[0] != p[|p| - 1]
  {
    PathDescends(g, extra, p, 0, |p| - 1);
  }

  /** What is never given up by itself: a library held from outside, or a record whose library failed. */
  ghost predicate Root(g: Graph, e: Id) {
    e in g.held || (e in g.so && e in g.f && !Usable(g.f[e]))
  }

  /** A chain of slots from a root to `x`. */
  ghost predicate IsRoute(g: Graph, p: seq<Id>, x: Id) {
    p != [] && Path(g, p) && Root(g, p[0]) && p[|p| - 1] == x
  }

  /** A library on a route has a reference besides those being given up, so it is never the one to be unloaded. */
  lemma {:induction false} RoutePins(g: Graph, extra: multiset<Id>, p: seq<Id>, x: Id, k: nat)
    requires Inv(g, extra) && IsRoute(g, p, x) && k < |p| && p[k] in g.so && p[k] in g.f && Usable(g.f[p[k]])
    ensures g.f[p[k]].refcount > extra[p[k]]
  {
    assert EntryOk(g, extra, p[k]);
    if k > 0 {
      assert DependsAt(g, p, k - 1);
      var n :| 0 <= n < |g.so| && g.so[n] == p[k - 1];
      CountIn(g.f[p[k - 1]].slots, p[k]);
      RefsAtLeast(g.f, g.so, n, p[k]);
    }
  }

  /** A chain of slots persists as long as the slots of its libraries do. */
  lemma {:induction false} PathKept(g: Graph, g': Graph, p: seq<Id>)
    requires Path(g, p)
    requires forall i {:trigger p[i]} | 0 <= i < |p| - 1 && p[i] in g.so && p[i] in g.f ::
               p[i] in g'.so && p[i] in g'.f && g'.f[p[i]].slots == g.f[p[i]].slots
    ensures Path(g', p)
  {
    forall i
      ensures DependsAt(g', p, i)
    {
      assert DependsAt(g, p, i);
    }
  }

  lemma {:induction false} PathSnoc(g: Graph, p: seq<Id>, x: Id)
    requires p != [] && Path(g, p) && p[|p| - 1] in g.so && p[|p| - 1] in g.f && x in g.f[p[|p| - 1]].slots && x != NULL
    ensures Path(g, p + [x])
  {
    var q := p + [x];
    forall i
      ensures DependsAt(g, q, i)
    {
      assert DependsAt(g, p, i);
    }
  }

  lemma {:induction false} PathCons(g: Graph, e: Id, p: seq<Id>)
    requires p != [] && Path(g, p) && e in g.so && e in g.f && p[0] in g.f[e].slots && p[0] != NULL
    ensures Path(g, [e] + p)
  {
    var q := [e] + p;
    forall i
      ensures DependsAt(g, q, i)
    {
      assert DependsAt(g, p, i - 1);
    }
  }

  /** Some slot names a library whose count is more than what is held of it from outside. */
  lemma {:induction false} NamedBy(g: Graph, x: Id) returns (e: Id)
    requires Inv(g, multiset{}) && x in g.so && x in g.f && g.f[x].refcount > g.held[x]
    ensures e in g.so && e in g.f && x in g.f[e].slots && x != NULL && Rank(g, x) < Rank(g, e)
  {
    assert EntryOk(g, multiset{}, x);
    if forall k | 0 <= k < |g.so| :: Named(g.f, g.so[k], x) == 0 {
      RefsNone(g.f, g.so, x);
      assert false;
    }
    var k :| 0 <= k < |g.so| && Named(g.f, g.so[k], x) != 0;
    e := g.so[k];
    CountIn(g.f[e].slots, x);
    var i :| 0 <= i < |g.f[e].slots| && g.f[e].slots[i] == x;
    assert SlotOk(g, e, i);
  }

  /** If every library that has slots and is usable is referred to, a library that is referred to is reached from a root. */
  lemma {:induction false} Reached(g: Graph, x: Id) returns (p: seq<Id>)
    requires Inv(g, multiset{}) && x in g.so && x in g.f && g.f[x].refcount > 0
    requires forall e | e in g.so && e in g.f && Usable(g.f[e]) && g.f[e].slots != [] :: g.f[e].refcount > 0
    ensures IsRoute(g, p, x)
    decreases g.clock - Rank(g, x)
  {
    if x in g.held {
      p := [x];
    } else {
      var e := NamedBy(g, x);
      assert EntryOk(g, multiset{}, e);
      if Usable(g.f[e]) {
        p := Reached(g, e);
      } else {
        p := [e];
      }
      PathSnoc(g, p, x);
      p := p + [x];
    }
  }

  /** No slot names a record on the free list. */
  lemma {:induction false} NoDanglingSlot(g: Graph, extra: multiset<Id>, p: Pool, fl: seq<Id>, e: Id, x: Id)
    requires Inv(g, extra) && SoPool.Valid(p, g.so, fl) && e in g.so && e in g.f && x in g.f[e].slots && x != NULL
    ensures x in g.so && x !in fl && x in g.f && Usable(g.f[x])
  {
    var k :| 0 <= k < |g.f[e].slots| && g.f[e].slots[k] == x;
    assert SlotOk(g, e, k);
    assert UsedAt(p.socount, g.so, fl, x);
  }

  /** The count of a library reaches one, so that giving up a reference unloads it, exactly if nothing else refers to it. */
  lemma {:induction false} LastReference(g: Graph, extra: multiset<Id>, x: Id)
    requires Inv(g, extra) && extra[x] == 1
    ensures x in g.so && x in g.f
    ensures g.f[x].refcount == 1 <==> g.held[x] == 0 && forall k | 0 <= k < |g.so| :: Named(g.f, g.so[k], x) == 0
  {
    assert EntryOk(g, extra, x);
    if Refs(g.f, g.so, x) == 0 {
      forall k | 0 <= k < |g.so|
        ensures Named(g.f, g.so[k], x) == 0
      {
        RefsAtLeast(g.f, g.so, k, x);
      }
    } else if forall k | 0 <= k < |g.so| :: Named(g.f, g.so[k], x) == 0 {
      RefsNone(g.f, g.so, x);
    }
  }

  // ---- Changes ----

  const FRESH := Info("", [], false, false, 0, [], false)

  /** `alloc_info` appends a clean record. */
  lemma {:induction false} AddedKeeps(g: Graph, extra: multiset<Id>, e: Id, name: string, g': Graph)
    requires Inv(g, extra) && e != NULL && e !in g.so
    requires g' == g.(f := g.f[e := FRESH.(name := name)], so := g.so + [e])
    ensures Inv(g', extra)
  {
    assert EntryOk(g, extra, e);
    forall x: Id
      ensures EntryOk(g', extra, x)
    {
      assert EntryOk(g, extra, x);
      RefsFrame(g.f, g'.f, g.so, x);
      RefsSnoc(g'.f, g.so, e, x);
      if x == e { NoRefs(g, extra, e); }
    }
    forall d: Id, i
      ensures SlotOk(g', d, i)
    {
      assert SlotOk(g, d, i);
    }
  }

  ghost predicate Patched(g: Graph, extra: multiset<Id>, e: Id, x: Id, g': Graph) {
    && Inv(g, extra) && e in g.so && e in g.f && !Usable(g.f[e])
    && x in g.so && x in g.f && Usable(g.f[x])
    && g' == g.(f := g.f[e := g.f[e].(slots := g.f[e].slots + [x])][x := g.f[x].(refcount := g.f[x].refcount + 1)])
  }

  /** One more slot of `so[k]` names `x`. */
  lemma {:induction false} RefsPatched(f: Infos, so: seq<Id>, k: nat, x: Id, f': Infos, y: Id)
    requires NoRepeats(so) && k < |so| && so[k] in f && so[k] in f' && f'[so[k]].slots == f[so[k]].slots + [x]
    requires forall e | e != so[k] :: (e in f <==> e in f') && (e in f && e in f' ==> f'[e].slots == f[e].slots)
    ensures Refs(f', so, y) == Refs(f, so, y) + (if x == y then 1 else 0)
  {
    CountSnoc(f[so[k]].slots, x, y);
    RefsChange(f, f', so, k, y);
  }

  lemma {:induction false} PatchedEntry(g: Graph, extra: multiset<Id>, e: Id, x: Id, g': Graph, k: nat, y: Id)
    requires Patched(g, extra, e, x, g') && k < |g.so| && g.so[k] == e
    ensures EntryOk(g', extra, y)
  {
    assert EntryOk(g, extra, y);
    RefsPatched(g.f, g.so, k, x, g'.f, y);
  }

  lemma {:induction false} PatchedSlot(g: Graph, extra: multiset<Id>, e: Id, x: Id, g': Graph, d: Id, i: int)
    requires Patched(g, extra, e, x, g')
    ensures SlotOk(g', d, i)
  {
    assert SlotOk(g, d, i) && EntryOk(g, extra, x);
    assert Rank(g', d) == Rank(g, d);
  }

  /** A slot of a library that is being linked is patched, and the library it names is counted. */
  lemma {:induction false} PatchedKeeps(g: Graph, extra: multiset<Id>, e: Id, x: Id, g': Graph)
    requires Patched(g, extra, e, x, g')
    ensures Inv(g', extra)
  {
    var k :| 0 <= k < |g.so| && g.so[k] == e;
    forall y: Id
      ensures EntryOk(g', extra, y)
    {
      PatchedEntry(g, extra, e, x, g', k, y);
    }
    forall d: Id, i
      ensures SlotOk(g', d, i)
    {
      PatchedSlot(g, extra, e, x, g', d, i);
    }
  }

  /** Linking completes. */
  lemma {:induction false} LinkedKeeps(g: Graph, extra: multiset<Id>, e: Id, g': Graph)
    requires Inv(g, extra) && e in g.so && e in g.f && !g.f[e].linked && !g.f[e].error
    requires g' == g.(f := g.f[e := g.f[e].(linked := true)], stamp := g.stamp[e := g.clock], clock := g.clock + 1)
    ensures Inv(g', extra)
  {
    forall y: Id
      ensures EntryOk(g', extra, y)
    {
      assert EntryOk(g, extra, y);
      RefsFrame(g.f, g'.f, g.so, y);
    }
    forall d: Id, i
      ensures SlotOk(g', d, i)
    {
      assert SlotOk(g, d, i);
    }
  }

  /** Marks that do not make a library usable or unusable. */
  lemma {:induction false} RelabelledKeeps(g: Graph, extra: multiset<Id>, e: Id, i': Info, g': Graph)
    requires Inv(g, extra) && e in g.so && e in g.f && g' == g.(f := g.f[e := i'])
    requires i'.slots == g.f[e].slots && i'.refcount == g.f[e].refcount && Usable(i') == Usable(g.f[e])
    ensures Inv(g', extra)
  {
    forall y: Id
      ensures EntryOk(g', extra, y)
    {
      assert EntryOk(g, extra, y);
      RefsFrame(g.f, g'.f, g.so, y);
    }
    forall d: Id, i
      ensures SlotOk(g', d, i)
    {
      assert SlotOk(g, d, i);
    }
  }

  /** A reference is taken from outside. */
  lemma {:induction false} OpenedKeeps(g: Graph, extra: multiset<Id>, x: Id, g': Graph)
    requires Inv(g, extra) && x in g.so && x in g.f
    requires g' == g.(f := g.f[x := g.f[x].(refcount := g.f[x].refcount + 1)], held := g.held + multiset{x})
    ensures Inv(g', extra)
  {
    forall y: Id
      ensures EntryOk(g', extra, y)
    {
      assert EntryOk(g, extra, y);
      RefsFrame(g.f, g'.f, g.so, y);
    }
    forall d: Id, i
      ensures SlotOk(g', d, i)
    {
      assert SlotOk(g, d, i);
    }
  }

  /** A reference held from outside is about to be given up. */
  lemma {:induction false} ClosingKeeps(g: Graph, extra: multiset<Id>, x: Id, g': Graph)
    requires Inv(g, extra) && x in g.held && x in g.f && Usable(g.f[x]) && g' == g.(held := g.held - multiset{x})
    ensures Inv(g', extra + multiset{x})
  {
    var extra' := extra + multiset{x};
    forall y: Id
      ensures EntryOk(g', extra', y)
    {
      assert EntryOk(g, extra, y);
    }
    forall d: Id, i
      ensures SlotOk(g', d, i)
    {
      assert SlotOk(g, d, i);
    }
  }

  /** A reference being given up is not the last one. */
  lemma {:induction false} DroppedKeeps(g: Graph, extra: multiset<Id>, x: Id, g': Graph)
    requires Inv(g, extra) && x in extra && x in g.f
    requires g' == g.(f := g.f[x := g.f[x].(refcount := g.f[x].refcount - 1)])
    ensures Inv(g', extra - multiset{x})
  {
    var extra' := extra - multiset{x};
    forall y: Id
      ensures EntryOk(g', extra', y)
    {
      assert EntryOk(g, extra, y);
      RefsFrame(g.f, g'.f, g.so, y);
    }
    forall d: Id, i
      ensures SlotOk(g', d, i)
    {
      assert SlotOk(g, d, i);
    }
  }

  /** A slot is cleared; the reference it stood for is about to be given up. */
  lemma {:induction false} ClearedKeeps(g: Graph, extra: multiset<Id>, e: Id, j: nat, g': Graph)
    requires Inv(g, extra) && e in g.so && e in g.f && j < |g.f[e].slots| && g.f[e].slots[j] != NULL
    requires g' == g.(f := g.f[e := g.f[e].(slots := g.f[e].slots[j := NULL])])
    ensures Inv(g', extra + multiset{g.f[e].slots[j]})
  {
    var x := g.f[e].slots[j];
    var extra' := extra + multiset{x};
    var k :| 0 <= k < |g.so| && g.so[k] == e;
    assert SlotOk(g, e, j);
    forall y: Id
      ensures EntryOk(g', extra', y)
    {
      assert EntryOk(g, extra, y);
      CountUpdate(g.f[e].slots, j, NULL, y);
      RefsChange(g.f, g'.f, g.so, k, y);
    }
    forall d: Id, i
      ensures SlotOk(g', d, i)
    {
      assert SlotOk(g, d, i);
    }
  }

  /** The last reference to `g.so[k]` is given up, its slots are clear, and its record leaves `solist`. */
  lemma {:induction false} RemovedKeeps(g: Graph, extra: multiset<Id>, k: nat, g': Graph)
    requires Inv(g, extra) && k < |g.so| && g.so[k] in g.f && g.so[k] in extra && g.f[g.so[k]].refcount == 1
    requires forall i | 0 <= i < |g.f[g.so[k]].slots| :: g.f[g.so[k]].slots[i] == NULL
    requires g' == g.(f := g.f[g.so[k] := g.f[g.so[k]].(refcount := 0)], so := Without(g.so, k))
    ensures Inv(g', extra - multiset{g.so[k]})
  {
    var e := g.so[k];
    var extra' := extra - multiset{e};
    assert EntryOk(g, extra, e);
    forall y: Id
      ensures EntryOk(g', extra', y)
    {
      assert EntryOk(g, extra, y);
      WithoutElements(g.so, k, y);
      RefsFrame(g.f, g'.f, g'.so, y);
      RefsWithout(g.f, g.so, k, y);
      CountIn(g.f[e].slots, y);
    }
    forall d: Id, i
      ensures SlotOk(g', d, i)
    {
      RemovedSlot(g, extra, k, g', d, i);
    }
  }

  lemma {:induction false} RemovedSlot(g: Graph, extra: multiset<Id>, k: nat, g': Graph, d: Id, i: int)
    requires Inv(g, extra) && k < |g.so| && g.so[k] in g.f && Refs(g.f, g.so, g.so[k]) == 0
    requires g' == g.(f := g.f[g.so[k] := g.f[g.so[k]].(refcount := 0)], so := Without(g.so, k))
    ensures SlotOk(g', d, i)
  {
    var e := g.so[k];
    assert SlotOk(g, d, i);
    WithoutElements(g.so, k, d);
    if d in g'.so && d in g.f && 0 <= i < |g.f[d].slots| && g.f[d].slots[i] != NULL {
      var x := g.f[d].slots[i];
      var n :| 0 <= n < |g.so| && g.so[n] == d;
      CountIn(g.f[d].slots, e);
      RefsAtLeast(g.f, g.so, n, e);
      WithoutElements(g.so, k, x);
    }
  }

  /** A record whose library could not be loaded leaves `solist` again. */
  lemma {:induction false} AbandonedKeeps(g: Graph, extra: multiset<Id>, k: nat, g': Graph)
    requires Inv(g, extra) && k < |g.so| && g.so[k] in g.f && !Usable(g.f[g.so[k]]) && g.f[g.so[k]].slots == []
    requires g.f[g.so[k]].refcount == 0 && g' == g.(so := Without(g.so, k))
    ensures Inv(g', extra)
  {
    var e := g.so[k];
    assert EntryOk(g, extra, e);
    forall y: Id
      ensures EntryOk(g', extra, y)
    {
      assert EntryOk(g, extra, y);
      WithoutElements(g.so, k, y);
      RefsWithout(g.f, g.so, k, y);
    }
    forall d: Id, i
      ensures SlotOk(g', d, i)
    {
      assert SlotOk(g, d, i);
      WithoutElements(g.so, k, d);
      if d in g'.so && d in g.f && 0 <= i < |g.f[d].slots| {
        WithoutElements(g.so, k, g.f[d].slots[i]);
      }
    }
  }
}
