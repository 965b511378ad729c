/** The linker's whole invariant, and that each of its elementary steps keeps it. */
module LibState {
  import opened Lists
  import opened SoPool
  import opened LibGraph
  import opened LibInit
  import opened LibRecords

  const LIBDL_NAME: string := "libdl.so"

  /**
   * What is under way: references being given up, initialisers running, libraries being taken apart, and a library
   * just linked that nothing refers to yet.
   */
  datatype Phase = Phase(extra: multiset<Id>, active: set<Id>, dying: set<Id>, spared: set<Id>)

  const REST := Phase(multiset{}, {}, {}, {})

  /** The static record of libdl: linked from the start, with no dynamic section. */
  const LIBDL_INFO := Info(LIBDL_NAME, [], true, false, 0, [], false)

  ghost predicate LibdlOk(f: Infos) {
    LIBDL in f && Usable(f[LIBDL]) && f[LIBDL].slots == [] && f[LIBDL].needed == [] && f[LIBDL].name == LIBDL_NAME
  }

  ghost predicate Sound(g: Graph, h: History, exe: Id, ph: Phase) {
    && Inv(g, ph.extra) && Ctors(g.f, g.so, h, ph.active)
    && Records(g.f, g.so, exe, ph.dying, ph.spared) && LibdlOk(g.f)
  }

  lemma {:induction false} InfosThere(g: Graph, extra: multiset<Id>)
    requires Inv(g, extra)
    ensures forall e | e in g.so :: e in g.f && e != NULL
  {
    forall e | e in g.so
      ensures e in g.f && e != NULL
    {
      assert EntryOk(g, extra, e);
    }
  }

  /** The slot of a library that is not being taken apart names a usable library called as the `DT_NEEDED` entry asks. */
  lemma {:induction false} SlotFilled(g: Graph, h: History, exe: Id, ph: Phase, e: Id, i: nat)
    requires Sound(g, h, exe, ph) && e in g.so && e in g.f && e !in ph.dying && i < |g.f[e].slots|
    ensures i < |g.f[e].needed|
    ensures var x := g.f[e].slots[i];
            x in g.so && x in g.f && Usable(g.f[x]) && x != NULL && g.f[x].name == BaseName(g.f[e].needed[i])
  {
    assert SlotOk(g, e, i) && RecordAt(g.f, g.so, ph.dying, ph.spared, e) && SlotNamed(g.f, ph.dying, e, i);
  }

  // ---- Before the first library ----

  const START := Graph(map[LIBDL := LIBDL_INFO], [LIBDL], map[LIBDL := 0], 1, multiset{})
  const NO_HISTORY := History(1, map[LIBDL := 0], [], map[])

  lemma {:induction false} StartSound()
    ensures Sound(START, NO_HISTORY, NULL, REST)
  {
    var g, h := START, NO_HISTORY;
    forall e: Id
      ensures EntryOk(g, multiset{}, e)
    {
      RefsNone(g.f, g.so, e);
    }
    forall e: Id
      ensures CtorAt(g.f, g.so, h, {}, e)
    {
    }
    forall e: Id, d: Id
      ensures LoadsApart(g.so, h, e, d) && NamesApart(g.f, g.so, NULL, e, d)
    {
    }
    forall e: Id
      ensures RecordAt(g.f, g.so, {}, {}, e)
    {
    }
  }

  // ---- Loading ----

  ghost function Added(g: Graph, e: Id, name: string): Graph {
    g.(f := g.f[e := FRESH.(name := name)], so := g.so + [e])
  }

  lemma {:induction false} SoundAdded(g: Graph, h: History, exe: Id, e: Id, name: string, exe': Id)
    requires Sound(g, h, exe, REST) && e != NULL && e !in g.so && e != LIBDL
    requires exe' == exe || (exe' == e && exe !in g.so)
    requires exe' == e || forall d | d in g.so && d in g.f :: g.f[d].name != name
    ensures Sound(Added(g, e, name), NewLoad(h, e), exe', REST)
  {
    var g' := Added(g, e, name);
    AddedKeeps(g, multiset{}, e, name, g');
    CtorsAdded(g, multiset{}, h, {}, e, g'.f);
    RecordAdded(g, multiset{}, exe, e, name, exe');
  }

  /** One record changed in what initialisers do not look at. */
  lemma {:induction false} CtorsChanged(f: Infos, so: seq<Id>, h: History, active: set<Id>, e: Id, i': Info)
    requires Ctors(f, so, h, active) && e in f && i'.called == f[e].called && forall d | d in so :: d in f
    requires e in so && e in h.done ==> Usable(i') && |i'.slots| == |f[e].slots|
    requires e in so && e in h.done ==> forall i | 0 <= i < |i'.slots| :: i'.slots[i] == NULL || i'.slots[i] == f[e].slots[i]
    ensures Ctors(f[e := i'], so, h, active)
  {
    var f' := f[e := i'];
    assert CtorAt(f, so, h, active, e);
    forall d: Id | d in so
      ensures Kept(f, f', h.done, d)
    {
    }
    CtorsKept(f, so, h, active, f', so);
  }

  /** The initialisers of a library that was not marked as called have not run. */
  lemma {:induction false} NotRun(f: Infos, so: seq<Id>, h: History, active: set<Id>, e: Id)
    requires Ctors(f, so, h, active) && e in so && e in f && !f[e].called
    ensures e !in h.done && e !in active
  {
    assert CtorAt(f, so, h, active, e);
  }

  ghost predicate BeingLinked(g: Graph, e: Id) {
    e in g.so && e in g.f && e != LIBDL && !g.f[e].linked && !g.f[e].error && !g.f[e].called
  }

  /** The file's dynamic section becomes readable. */
  lemma {:induction false} SoundMapped(g: Graph, h: History, exe: Id, e: Id, needed: seq<string>)
    requires Sound(g, h, exe, REST) && BeingLinked(g, e) && g.f[e].slots == []
    ensures Sound(g.(f := g.f[e := g.f[e].(needed := needed)]), h, exe, REST)
  {
    var i' := g.f[e].(needed := needed);
    InfosThere(g, multiset{});
    RelabelledKeeps(g, multiset{}, e, i', g.(f := g.f[e := i']));
    NotRun(g.f, g.so, h, {}, e);
    CtorsChanged(g.f, g.so, h, {}, e, i');
    RecordChanged(g.f, g.so, exe, {}, {}, e, i', {}, {});
  }

  ghost function PatchedGraph(g: Graph, e: Id, x: Id): Graph
    requires e in g.f && x in g.f
  {
    g.(f := g.f[e := g.f[e].(slots := g.f[e].slots + [x])][x := g.f[x].(refcount := g.f[x].refcount + 1)])
  }

  lemma {:induction false} SoundPatched(g: Graph, h: History, exe: Id, e: Id, x: Id)
    requires Sound(g, h, exe, REST.(spared := {x})) && BeingLinked(g, e) && x in g.so && x in g.f && Usable(g.f[x])
    requires |g.f[e].slots| < |g.f[e].needed| && g.f[x].name == BaseName(g.f[e].needed[|g.f[e].slots|])
    ensures Sound(PatchedGraph(g, e, x), h, exe, REST)
  {
    var i1 := g.f[e].(slots := g.f[e].slots + [x]);
    var f1 := g.f[e := i1];
    InfosThere(g, multiset{});
    assert EntryOk(g, multiset{}, x);
    PatchedKeeps(g, multiset{}, e, x, PatchedGraph(g, e, x));
    NotRun(g.f, g.so, h, {}, e);
    CtorsChanged(g.f, g.so, h, {}, e, i1);
    CtorsChanged(f1, g.so, h, {}, x, f1[x].(refcount := f1[x].refcount + 1));
    RecordsPatched(g.f, g.so, exe, e, x);
  }

  lemma {:induction false} RecordsPatched(f: Infos, so: seq<Id>, exe: Id, e: Id, x: Id)
    requires Records(f, so, exe, {}, {x}) && e in so && e in f && x in f && x != e && !Usable(f[e])
    requires |f[e].slots| < |f[e].needed| && f[x].name == BaseName(f[e].needed[|f[e].slots|]) && x != NULL && f[x].refcount >= 0
    ensures Records(f[e := f[e].(slots := f[e].slots + [x])][x := f[x].(refcount := f[x].refcount + 1)], so, exe, {}, {})
  {
    var i1 := f[e].(slots := f[e].slots + [x]);
    var f1 := f[e := i1];
    assert RecordAt(f, so, {}, {x}, e);
    forall i
      ensures SlotNamed(f1, {}, e, i)
    {
      assert SlotNamed(f, {}, e, i);
      assert 0 <= i < |f[e].slots| ==> i1.slots[i] == f[e].slots[i];
    }
    RecordChanged(f, so, exe, {}, {x}, e, i1, {}, {x});
    RecordReferred(f1, so, exe, {x}, x, f1[x].(refcount := f1[x].refcount + 1));
  }

  /** A library that was spared is referred to. */
  lemma {:induction false} RecordReferred(f: Infos, so: seq<Id>, exe: Id, spared: set<Id>, x: Id, i': Info)
    requires Records(f, so, exe, {}, spared) && spared <= {x} && x in f && i' == f[x].(refcount := i'.refcount) && i'.refcount > 0
    ensures Records(f[x := i'], so, exe, {}, {})
  {
    assert RecordAt(f, so, {}, spared, x);
    SameSlots(f, so, {}, spared, x, i', {});
    RecordChanged(f, so, exe, {}, spared, x, i', {}, {});
  }

  /** Sparing a library asks for less. */
  lemma {:induction false} SoundSpared(g: Graph, h: History, exe: Id, x: Id)
    requires Sound(g, h, exe, REST)
    ensures Sound(g, h, exe, REST.(spared := {x}))
  {
    forall e: Id
      ensures RecordAt(g.f, g.so, {}, {x}, e)
    {
      assert RecordAt(g.f, g.so, {}, {}, e);
    }
  }

  /** Allowing a library to lose slots asks for less. */
  lemma {:induction false} SoundDying(g: Graph, h: History, exe: Id, ph: Phase, e: Id)
    requires Sound(g, h, exe, ph)
    ensures Sound(g, h, exe, ph.(dying := ph.dying + {e}))
  {
    var dying := ph.dying + {e};
    forall d: Id
      ensures RecordAt(g.f, g.so, dying, ph.spared, d)
    {
      assert RecordAt(g.f, g.so, ph.dying, ph.spared, d);
      if d in g.so && d in g.f {
        forall i
          ensures SlotNamed(g.f, dying, d, i)
        {
          assert SlotNamed(g.f, ph.dying, d, i);
        }
      }
    }
  }

  ghost function FinishedGraph(g: Graph, e: Id): Graph
    requires e in g.f
  {
    g.(f := g.f[e := g.f[e].(linked := true)], stamp := g.stamp[e := g.clock], clock := g.clock + 1)
  }

  lemma {:induction false} SoundFinished(g: Graph, h: History, exe: Id, e: Id)
    requires Sound(g, h, exe, REST) && BeingLinked(g, e) && |g.f[e].slots| == |g.f[e].needed|
    ensures Sound(FinishedGraph(g, e), h, exe, REST.(spared := {e}))
  {
    var i' := g.f[e].(linked := true);
    InfosThere(g, multiset{});
    LinkedKeeps(g, multiset{}, e, FinishedGraph(g, e));
    NotRun(g.f, g.so, h, {}, e);
    CtorsChanged(g.f, g.so, h, {}, e, i');
    assert RecordAt(g.f, g.so, {}, {}, e);
    SameSlots(g.f, g.so, {}, {}, e, i', {e});
    RecordChanged(g.f, g.so, exe, {}, {}, e, i', {}, {e});
  }

  lemma {:induction false} SoundFailed(g: Graph, h: History, exe: Id, e: Id, late: bool)
    requires Sound(g, h, exe, REST) && BeingLinked(g, e)
    ensures Sound(g.(f := g.f[e := g.f[e].(linked := late, error := true)]), h, exe, REST)
  {
    var i' := g.f[e].(linked := late, error := true);
    InfosThere(g, multiset{});
    RelabelledKeeps(g, multiset{}, e, i', g.(f := g.f[e := i']));
    NotRun(g.f, g.so, h, {}, e);
    CtorsChanged(g.f, g.so, h, {}, e, i');
    assert RecordAt(g.f, g.so, {}, {}, e);
    SameSlots(g.f, g.so, {}, {}, e, i', {});
    RecordChanged(g.f, g.so, exe, {}, {}, e, i', {}, {});
  }

  lemma {:induction false} SoundAbandoned(g: Graph, h: History, exe: Id, k: nat)
    requires Sound(g, h, exe, REST) && k < |g.so| && g.so[k] in g.f && !Usable(g.f[g.so[k]])
    requires g.f[g.so[k]].slots == [] && g.f[g.so[k]].refcount == 0
    ensures Sound(g.(so := Without(g.so, k)), h, exe, REST)
  {
    AbandonedKeeps(g, multiset{}, k, g.(so := Without(g.so, k)));
    CtorsRemoved(g, multiset{}, h, k);
    RecordRemoved(g.f, g.so, exe, {}, {}, k, {});
  }

  lemma {:induction false} CtorsRemoved(g: Graph, extra: multiset<Id>, h: History, k: nat)
    requires Inv(g, extra) && Ctors(g.f, g.so, h, {}) && k < |g.so|
    ensures Ctors(g.f, Without(g.so, k), h, {})
  {
    InfosThere(g, extra);
    var so' := Without(g.so, k);
    forall d: Id | d in so'
      ensures d in g.so && d in g.f && Kept(g.f, g.f, h.done, d)
    {
      WithoutElements(g.so, k, d);
    }
    CtorsKept(g.f, g.so, h, {}, g.f, so');
  }

  // ---- References from outside ----

  ghost function Opened(g: Graph, x: Id): Graph
    requires x in g.f
  {
    g.(f := g.f[x := g.f[x].(refcount := g.f[x].refcount + 1)], held := g.held + multiset{x})
  }

  lemma {:induction false} SoundOpened(g: Graph, h: History, exe: Id, spared: set<Id>, x: Id)
    requires Sound(g, h, exe, REST.(spared := spared)) && spared <= {x} && x in g.so && x in g.f
    ensures Sound(Opened(g, x), h, exe, REST)
  {
    var i' := g.f[x].(refcount := g.f[x].refcount + 1);
    InfosThere(g, multiset{});
    assert EntryOk(g, multiset{}, x) && CtorAt(g.f, g.so, h, {}, x);
    OpenedKeeps(g, multiset{}, x, Opened(g, x));
    CtorsChanged(g.f, g.so, h, {}, x, i');
    RecordReferred(g.f, g.so, exe, spared, x, i');
  }

  /** A library that is held from outside need not be spared. */
  lemma {:induction false} SoundReferred(g: Graph, h: History, exe: Id, x: Id)
    requires Sound(g, h, exe, REST.(spared := {x})) && x in g.held
    ensures Sound(g, h, exe, REST)
  {
    assert EntryOk(g, multiset{}, x);
    RecordReferred(g.f, g.so, exe, {x}, x, g.f[x]);
    assert g.f[x := g.f[x]] == g.f;
  }

  lemma {:induction false} SoundClosing(g: Graph, h: History, exe: Id, x: Id)
    requires Sound(g, h, exe, REST) && x in g.held && x in g.f && Usable(g.f[x])
    ensures Sound(g.(held := g.held - multiset{x}), h, exe, REST.(extra := multiset{x}))
  {
    ClosingKeeps(g, multiset{}, x, g.(held := g.held - multiset{x}));
    assert multiset{} + multiset{x} == multiset{x};
  }

  // ---- Initialisers ----

  lemma {:induction false} SoundEntered(g: Graph, h: History, exe: Id, ph: Phase, e: Id)
    requires Sound(g, h, exe, ph) && e in g.so && e in g.f && !g.f[e].called
    ensures Sound(g.(f := g.f[e := g.f[e].(called := true)]), h, exe, ph.(active := ph.active + {e}))
  {
    var i' := g.f[e].(called := true);
    RelabelledKeeps(g, ph.extra, e, i', g.(f := g.f[e := i']));
    CtorsEntered(g.f, g.so, h, ph.active, e);
    RecordMarked(g.f, g.so, exe, ph.dying, ph.spared, e, i');
  }

  lemma {:induction false} SoundRan(g: Graph, h: History, exe: Id, ph: Phase, e: Id)
    requires Sound(g, h, exe, ph) && e in ph.active && e in g.so && e in g.f && Usable(g.f[e]) && e !in ph.dying
    requires forall j | 0 <= j < |g.f[e].slots| :: g.f[e].slots[j] in h.done
    ensures e in h.load && e !in h.done && Sound(g, Initialised(g.f, h, e), exe, ph.(active := ph.active - {e}))
  {
    assert CtorAt(g.f, g.so, h, ph.active, e) && RecordAt(g.f, g.so, ph.dying, ph.spared, e);
    forall j | 0 <= j < |g.f[e].slots|
      ensures g.f[e].slots[j] in g.so && g.f[e].slots[j] in g.f && g.f[e].slots[j] != e
    {
      assert SlotOk(g, e, j) && SlotNamed(g.f, ph.dying, e, j);
    }
    assert ph.active - {e} + {e} == ph.active;
    CtorsFinished(g.f, g.so, h, ph.active - {e}, e);
  }

  // ---- Unloading ----

  ghost function Cleared(g: Graph, e: Id, j: nat): Graph
    requires e in g.f && j < |g.f[e].slots|
  {
    g.(f := g.f[e := g.f[e].(slots := g.f[e].slots[j := NULL])])
  }

  lemma {:induction false} SoundCleared(g: Graph, h: History, exe: Id, ph: Phase, e: Id, j: nat)
    requires Sound(g, h, exe, ph) && ph.active == {} && ph.spared == {} && e in ph.dying
    requires e in g.so && e in g.f && e != LIBDL && j < |g.f[e].slots| && g.f[e].slots[j] != NULL
    ensures Sound(Cleared(g, e, j), h, exe, ph.(extra := ph.extra + multiset{g.f[e].slots[j]}))
  {
    var i' := g.f[e].(slots := g.f[e].slots[j := NULL]);
    InfosThere(g, ph.extra);
    ClearedKeeps(g, ph.extra, e, j, Cleared(g, e, j));
    assert CtorAt(g.f, g.so, h, {}, e);
    CtorsChanged(g.f, g.so, h, {}, e, i');
    RecordsCleared(g.f, g.so, exe, ph.dying, e, j);
  }

  lemma {:induction false} RecordsCleared(f: Infos, so: seq<Id>, exe: Id, dying: set<Id>, e: Id, j: nat)
    requires Records(f, so, exe, dying, {}) && e in dying && e in so && e in f && j < |f[e].slots|
    ensures Records(f[e := f[e].(slots := f[e].slots[j := NULL])], so, exe, dying, {})
  {
    var i' := f[e].(slots := f[e].slots[j := NULL]);
    var f' := f[e := i'];
    assert RecordAt(f, so, dying, {}, e);
    forall i
      ensures SlotNamed(f', dying, e, i)
    {
      assert SlotNamed(f, dying, e, i);
      assert i != j && 0 <= i < |f[e].slots| ==> i'.slots[i] == f[e].slots[i];
    }
    RecordChanged(f, so, exe, dying, {}, e, i', dying, {});
  }

  ghost function Removed(g: Graph, k: nat): Graph
    requires k < |g.so| && g.so[k] in g.f
  {
    g.(f := g.f[g.so[k] := g.f[g.so[k]].(refcount := 0)], so := Without(g.so, k))
  }

  lemma {:induction false} SoundRemoved(g: Graph, h: History, exe: Id, ph: Phase, k: nat)
    requires Sound(g, h, exe, ph) && ph.active == {} && ph.spared == {} && k < |g.so| && g.so[k] != LIBDL
    requires g.so[k] in g.f && g.so[k] in ph.extra && g.f[g.so[k]].refcount == 1
    requires forall i | 0 <= i < |g.f[g.so[k]].slots| :: g.f[g.so[k]].slots[i] == NULL
    ensures Sound(Removed(g, k), h, exe, ph.(extra := ph.extra - multiset{g.so[k]}, dying := ph.dying - {g.so[k]}))
  {
    var e := g.so[k];
    InfosThere(g, ph.extra);
    RemovedKeeps(g, ph.extra, k, Removed(g, k));
    CtorsRemoved(g, ph.extra, h, k);
    WithoutElements(g.so, k, e);
    var so', f' := Without(g.so, k), g.f[e := g.f[e].(refcount := 0)];
    forall d: Id | d in so'
      ensures d in g.f
    {
      WithoutElements(g.so, k, d);
    }
    CtorsChanged(g.f, so', h, {}, e, f'[e]);
    RecordRemoved(g.f, g.so, exe, ph.dying, {}, k, ph.dying - {e});
    RecordChanged(g.f, so', exe, ph.dying - {e}, {}, e, f'[e], ph.dying - {e}, {});
  }

  ghost function Dropped(g: Graph, x: Id): Graph
    requires x in g.f
  {
    g.(f := g.f[x := g.f[x].(refcount := g.f[x].refcount - 1)])
  }

  lemma {:induction false} SoundDropped(g: Graph, h: History, exe: Id, ph: Phase, x: Id)
    requires Sound(g, h, exe, ph) && ph.active == {} && x in ph.extra && x in g.f && g.f[x].refcount > 1
    ensures Sound(Dropped(g, x), h, exe, ph.(extra := ph.extra - multiset{x}))
  {
    var i' := g.f[x].(refcount := g.f[x].refcount - 1);
    InfosThere(g, ph.extra);
    DroppedKeeps(g, ph.extra, x, Dropped(g, x));
    assert EntryOk(g, ph.extra, x) && CtorAt(g.f, g.so, h, {}, x);
    CtorsChanged(g.f, g.so, h, {}, x, i');
    RecordMarked(g.f, g.so, exe, ph.dying, ph.spared, x, i');
  }
}
