/** The dynamic linker's bookkeeping: loading with dependencies, initialisers, and unloading. */
module Linker {
  import opened Lists
  import opened SoPool
  import opened LibGraph
  import opened LibInit
  import opened LibRecords
  import opened LibState
  import opened LibChange
  import opened LibFaults

  /** A reference more or less in one part is one more or less in all. */
  lemma {:induction false} Apart(others: multiset<Id>, mine: multiset<Id>, h: Id)
    ensures others + mine + multiset{h} == others + (mine + multiset{h}) && mine + others + multiset{h} == mine + multiset{h} + others
    ensures h in mine ==> others + mine - multiset{h} == others + (mine - multiset{h})
    ensures h in mine ==> mine + others - multiset{h} == mine - multiset{h} + others
  {
  }

  class Linker {
    const world: World

    var pool: Pool
    var info: Infos
    var main: Id
    /** For which names a file was looked for so far. */
    var tried: seq<string>
    ghost var so: seq<Id>
    ghost var fl: seq<Id>
    ghost var stamp: map<Id, nat>
    ghost var clock: nat
    /** Outstanding handles of `dlopen`. */
    ghost var handles: multiset<Id>
    /** References that are never given up: the main executable's own and the preloads'. */
    ghost var kept: multiset<Id>
    ghost var hist: History
    /** The executable's record, which has a path for a name; `main` is set only when it has been linked. */
    ghost var exe: Id

    ghost function G(): Graph
      reads this
    {
      Graph(info, so, stamp, clock, handles + kept)
    }

    ghost predicate Core(ph: Phase)
      reads this
    {
      SoPool.Valid(pool, so, fl) && Sound(G(), hist, exe, ph)
    }

    /** At rest after the start of the process: the executable is never given up, and every handle is on an initialised library. */
    ghost predicate Running()
      reads this
    {
      && Core(REST) && main == exe && main in kept && ReadyAt(G(), hist, main)
      && forall e | e in handles :: ReadyAt(G(), hist, e)
    }

    /** The chain of slots `p` leads to `x` from a reference that is never given up, or from a library that failed. */
    ghost predicate Fixed(p: seq<Id>, x: Id)
      reads this
    {
      Rooted(G(), kept, p, x)
    }

    constructor (world: World)
      ensures Core(REST) && this.world == world && tried == [] && so == [LIBDL]
      ensures handles == kept == multiset{} && exe == NULL && hist.log == []
    {
      this.world := world;
      tried := [];
      pool := EMPTY;
      info := map[LIBDL := LIBDL_INFO];
      main, exe := NULL, NULL;
      so, fl := [LIBDL], [];
      stamp, clock := map[LIBDL := 0], 1;
      handles, kept := multiset{}, multiset{};
      hist := NO_HISTORY;
      new;
      EmptyValid();
      StartSound();
      assert handles + kept == multiset{};
    }

    // ---- Loading ----

    /** `alloc_info`. */
    method AllocInfo(name: string) returns (si: Id)
      requires SoPool.Valid(pool, so, fl)
      modifies this`pool, this`info, this`so, this`fl, this`hist
      ensures SoPool.Valid(pool, so, fl)
      ensures si == NULL <==> |name| >= SOINFO_NAME_LEN || |old(so)| == SO_MAX + 1
      ensures si == NULL ==> G() == old(G()) && hist == old(hist)
      ensures si != NULL ==> si !in old(so) && si != LIBDL && G() == Added(old(G()), si, name) && hist == NewLoad(old(hist), si)
    {
      if |name| >= SOINFO_NAME_LEN {
        return NULL;
      }
      ghost var fl';
      si, pool, fl' := Alloc(pool, so, fl);
      fl := fl';
      if si != NULL {
        info := info[si := FRESH.(name := name)];
        so := so + [si];
        hist := NewLoad(hist, si);
      }
    }

    /** `free_info`, for a record that is on `solist`. */
    method FreeInfo(si: Id) returns (ghost k: nat)
      requires SoPool.Valid(pool, so, fl) && si in so && si != LIBDL
      modifies this`pool, this`so, this`fl
      ensures 0 < k < |old(so)| && old(so)[k] == si && so == Without(old(so), k) && SoPool.Valid(pool, so, fl)
    {
      ghost var fl';
      pool, k, fl' := SoPool.Free(pool, si, so, fl);
      so := Without(so, k);
      fl := fl';
    }

    /** `load_library`, for a name that is not on `solist`: reading the file may fail before or after a record is allocated. */
    method LoadLibrary(name: string) returns (si: Id, fault: Fault)
      requires Core(REST) && forall e | e in so && e in info :: info[e].name != BaseName(name)
      modifies this`pool, this`info, this`so, this`fl, this`hist, this`tried
      ensures Core(REST) && Extends(old(G()), old(hist), G(), hist, {})
      ensures tried == old(tried) + [name] && fault == world.faults(|old(tried)|)
      ensures si == NULL <==> || name !in world.fs || fault == Unreadable || |BaseName(name)| >= SOINFO_NAME_LEN
                              || |old(so)| == SO_MAX + 1 || fault == Unmappable
      ensures si == NULL ==> so == old(so)
      ensures si != NULL ==> si !in old(so) && si != LIBDL && so == old(so) + [si]
      ensures si != NULL ==> si in info && info[si] == FRESH.(name := BaseName(name), needed := world.fs[name])
    {
      ExtendsSelf(G(), multiset{}, hist);
      fault := world.faults(|tried|);
      tried := tried + [name];
      if name !in world.fs || fault == Unreadable {
        return NULL, fault;
      }
      si := MapLibrary(name, fault == Unmappable);
    }

    /** The part of `load_library` from the allocation of the record on. */
    method MapLibrary(name: string, unmappable: bool) returns (si: Id)
      requires Core(REST) && name in world.fs && forall e | e in so && e in info :: info[e].name != BaseName(name)
      modifies this`pool, this`info, this`so, this`fl, this`hist
      ensures Core(REST) && Extends(old(G()), old(hist), G(), hist, {})
      ensures si == NULL <==> |BaseName(name)| >= SOINFO_NAME_LEN || |old(so)| == SO_MAX + 1 || unmappable
      ensures si == NULL ==> so == old(so)
      ensures si != NULL ==> si !in old(so) && si != LIBDL && so == old(so) + [si]
      ensures si != NULL ==> si in info && info[si] == FRESH.(name := BaseName(name), needed := world.fs[name])
    {
      ghost var g0, h0 := G(), hist;
      si := AllocInfo(BaseName(name));
      if si == NULL {
        ExtendsSelf(g0, multiset{}, h0);
        return;
      }
      ghost var g1, h1 := G(), hist;
      SoundAdded(g0, h0, exe, si, BaseName(name), exe);
      AddedExtends(g0, multiset{}, h0, si, BaseName(name));
      if unmappable {
        Abandon(si, g0, h0);
        si := NULL;
        return;
      }
      info := info[si := info[si].(needed := world.fs[name])];
      SoundMapped(g1, h1, exe, si, world.fs[name]);
      LaterExtends(g0, h0, g1, h1, si, info[si]);
    }

    /** A record that turned out to be of no use is freed. */
    method Abandon(si: Id, ghost g0: Graph, ghost h0: History)
      requires Core(REST) && BeingLinked(G(), si) && info[si].slots == [] && info[si].refcount == 0
      requires Extends(g0, h0, G(), hist, {}) && si !in g0.so && so == g0.so + [si]
      modifies this`pool, this`so, this`fl
      ensures Core(REST) && so == g0.so && Extends(g0, h0, G(), hist, {})
    {
      ghost var g := G();
      ghost var k := FreeInfo(si);
      SoundAbandoned(g, hist, exe, k);
      AbandonedExtends(g0, h0, g, hist, si, k);
    }

    /** The search of `find_library`: the first record with that name. */
    method Search(bname: string) returns (si: Id)
      requires Core(REST)
      ensures si != NULL ==> si in so && si in info && info[si].name == bname
      ensures si == NULL ==> forall e | e in so && e in info :: info[e].name != bname
      ensures bname == LIBDL_NAME ==> si == LIBDL
      ensures si == FirstNamed(info, so, bname)
    {
      InfosThere(G(), multiset{});
      si := LIBDL;
      ghost var k := 0;
      while si != NULL
        invariant 0 <= k <= |so| && si == (if k < |so| then so[k] else NULL)
        invariant forall i | 0 <= i < k :: so[i] in info && info[so[i]].name != bname
        decreases |so| - k
      {
        assert so[k] in so && LinkAt(pool.next, so, k);
        if info[si].name == bname {
          FirstNamedIs(info, so, bname, k);
          return;
        }
        si := pool.next[si];
        k := k + 1;
        assert k < |so| ==> so[k] in so;
      }
      FirstNamedIs(info, so, bname, k);
    }

    /** A reason for there being no library under the name. */
    ghost predicate Excuse(name: string, why: Why)
      reads this
    {
      Excused(world, info, so, tried, name, why)
    }

    /**
     * `find_library`, for a name that is not null. A record of that name decides at once; otherwise the file is loaded
     * and linked. A library just linked is not referred to yet.
     */
    method FindLibrary(name: string) returns (si: Id, ghost why: Why)
      requires Core(REST)
      modifies this`pool, this`info, this`so, this`fl, this`stamp, this`clock, this`hist, this`tried
      ensures Core(REST.(spared := if si == NULL then {} else {si})) && Extends(old(G()), old(hist), G(), hist, {})
      ensures si != NULL ==> si in so && si in info && Usable(info[si]) && info[si].name == BaseName(name)
      ensures si == NULL ==> Excuse(name, why)
      ensures var e := old(FirstNamed(info, so, BaseName(name)));
              e != NULL ==> G() == old(G()) && tried == old(tried) && e in info && si == if Usable(info[e]) then e else NULL
      ensures old(FirstNamed(info, so, BaseName(name))) == NULL ==> old(tried) + [name] <= tried
      ensures old(tried) <= tried && (|old(so)| == SO_MAX + 1 ==> |so| == SO_MAX + 1)
      ensures BaseName(name) == LIBDL_NAME ==> si == LIBDL
      decreases SO_MAX + 1 - |so|, 1
    {
      ghost var g0, h0 := G(), hist;
      ExtendsSelf(g0, multiset{}, h0);
      why := Loaded;
      si := Search(BaseName(name));
      if si != NULL {
        if info[si].error || !info[si].linked {
          assert info[LIBDL].linked && !info[LIBDL].error;
          why := Unusable;
          si := NULL;
        } else {
          SoundSpared(g0, h0, exe, si);
        }
        return;
      }
      si, why := Fetch(name);
    }

    /** The rest of `find_library`: a library that is not known yet is loaded and linked. */
    method Fetch(name: string) returns (si: Id, ghost why: Why)
      requires Core(REST) && forall e | e in so && e in info :: info[e].name != BaseName(name)
      modifies this`pool, this`info, this`so, this`fl, this`stamp, this`clock, this`hist, this`tried
      ensures Core(REST.(spared := if si == NULL then {} else {si})) && Extends(old(G()), old(hist), G(), hist, {})
      ensures si != NULL ==> si in so && si in info && Usable(info[si]) && info[si].name == BaseName(name)
      ensures si == NULL ==> Excuse(name, why)
      ensures old(tried) + [name] <= tried && (|old(so)| == SO_MAX + 1 ==> |so| == SO_MAX + 1)
      decreases SO_MAX + 1 - |so|, 0
    {
      ghost var g0, h0 := G(), hist;
      ghost var k := |tried|;
      var fault;
      si, fault := LoadLibrary(name);
      if si == NULL {
        why := if name !in world.fs then NoFile else if fault == Unreadable || fault == Unmappable then Faulty(k)
               else if |BaseName(name)| >= SOINFO_NAME_LEN then LongName else PoolFull;
        return;
      }
      ghost var g1, h1, tried1 := G(), hist, tried;
      var ok;
      ok, why := LinkImage(si, fault);
      ExtendsTwice(g0, h0, g1, h1, G(), hist, {}, {si}, {});
      assert tried1[k] == name && tried[k] == tried1[k];
      if !ok {
        why := if Spoils(fault) then Faulty(k) else why;
        si := NULL;
      }
    }

    /**
     * The `DT_NEEDED` part of `link_image`, and the ways in which the rest of it can fail. It fails if a library is not to
     * be had, or else if relocation or protection fails.
     */
    method LinkImage(si: Id, fault: Fault) returns (ok: bool, ghost why: Why)
      requires Core(REST) && BeingLinked(G(), si) && info[si].slots == []
      modifies this`pool, this`info, this`so, this`fl, this`stamp, this`clock, this`hist, this`tried
      ensures Core(REST.(spared := if ok then {si} else {})) && Extends(old(G()), old(hist), G(), hist, {si})
      ensures si in so && si in info && Usable(info[si]) == ok && info[si].error == !ok && !info[si].called
      ensures info[si].needed == old(info[si].needed) && info[si].name == old(info[si].name)
      ensures |info[si].slots| <= |info[si].needed| && (ok ==> |info[si].slots| == |info[si].needed|)
      ensures forall i | 0 <= i < |info[si].slots| ::
                var x := info[si].slots[i];
                x in so && x in info && Usable(info[x]) && info[x].name == BaseName(info[si].needed[i])
      ensures ok ==> !Spoils(fault)
      ensures !ok && !Spoils(fault) ==> why.Lacks? && why.needed in info[si].needed && Excuse(why.needed, why.why)
      ensures old(tried) <= tried && (|old(so)| == SO_MAX + 1 ==> |so| == SO_MAX + 1)
      decreases SO_MAX + 1 - |so|, 3
    {
      ghost var g0, h0 := G(), hist;
      ExtendsSelf(g0, multiset{}, h0);
      var needed := info[si].needed;
      for i := 0 to |needed|
        invariant Core(REST) && Extends(g0, h0, G(), hist, {si}) && |so| >= |g0.so| && old(tried) <= tried
        invariant BeingLinked(G(), si) && |info[si].slots| == i && info[si].needed == needed && info[si].name == g0.f[si].name
      {
        ghost var g1, h1 := G(), hist;
        ok, why := Need(si, i);
        ExtendsTwice(g0, h0, g1, h1, G(), hist, {si}, {si}, {si});
        if !ok {
          Filled(si, REST);
          why := Lacks(needed[i], why);
          return;
        }
      }
      why := Loaded;
      ghost var g1, h1 := G(), hist;
      ok := Conclude(si, fault);
      ExtendsTwice(g0, h0, g1, h1, G(), hist, {si}, {si}, {si});
      Filled(si, REST.(spared := if ok then {si} else {}));
    }

    lemma {:induction false} Filled(si: Id, ph: Phase)
      requires Core(ph) && si in so && si in info && si !in ph.dying
      ensures |info[si].slots| <= |info[si].needed| && (Usable(info[si]) ==> |info[si].slots| == |info[si].needed|)
      ensures forall i | 0 <= i < |info[si].slots| ::
                var x := info[si].slots[i];
                x in so && x in info && Usable(info[x]) && info[x].name == BaseName(info[si].needed[i])
    {
      assert RecordAt(info, so, ph.dying, ph.spared, si);
      forall i | 0 <= i < |info[si].slots|
        ensures var x := info[si].slots[i];
                x in so && x in info && Usable(info[x]) && info[x].name == BaseName(info[si].needed[i])
      {
        SlotFilled(G(), hist, exe, ph, si, i);
      }
    }

    /** `DT_NEEDED` entry `i`: the library is found and the slot patched, or linking fails. */
    method Need(si: Id, i: nat) returns (ok: bool, ghost why: Why)
      requires Core(REST) && BeingLinked(G(), si) && |info[si].slots| == i < |info[si].needed|
      modifies this`pool, this`info, this`so, this`fl, this`stamp, this`clock, this`hist, this`tried
      ensures Core(REST) && Extends(old(G()), old(hist), G(), hist, {si}) && si in so && si in info
      ensures info[si].needed == old(info[si].needed) && info[si].name == old(info[si].name) && !info[si].called
      ensures !ok ==> info[si].error && info[si].slots == old(info[si].slots) && Excuse(info[si].needed[i], why)
      ensures ok ==> BeingLinked(G(), si) && |info[si].slots| == i + 1 && info[si].slots[..i] == old(info[si].slots)
      ensures old(tried) <= tried && (|old(so)| == SO_MAX + 1 ==> |so| == SO_MAX + 1)
      decreases SO_MAX + 1 - |so|, 2
    {
      ghost var g0, h0 := G(), hist;
      var lsi;
      lsi, why := FindLibrary(info[si].needed[i]);
      ghost var g1 := G();
      assert SameAt(g0, h0, g1, hist, si);
      Prefix(g0.so, g1.so, si);
      ok := lsi != NULL;
      if ok {
        Patch(si, lsi);
      } else {
        Miss(si, i, why);
      }
      ExtendsTwice(g0, h0, g1, hist, G(), hist, {}, {si}, {si});
    }

    /** Linking fails for want of a library; the reason for its absence is still good. */
    method Miss(si: Id, i: nat, ghost why: Why)
      requires Core(REST) && BeingLinked(G(), si) && i < |info[si].needed| && Excuse(info[si].needed[i], why)
      modifies this`info
      ensures Core(REST) && Extends(old(G()), hist, G(), hist, {si}) && si in info
      ensures info[si] == old(info[si]).(linked := false, error := true) && Excuse(info[si].needed[i], why)
    {
      ghost var f := info;
      Fail(si, false);
      assert forall e {:trigger FailedKept(f, so, info, so, e)} :: FailedKept(f, so, info, so, e);
      StillExcused(world, f, so, tried, info, so, tried, info[si].needed[i], why);
    }

    /** The end of `link_image`: relocation or the final protection of memory may fail. */
    method Conclude(si: Id, fault: Fault) returns (ok: bool)
      requires Core(REST) && BeingLinked(G(), si) && |info[si].slots| == |info[si].needed|
      modifies this`info, this`stamp, this`clock
      ensures Core(REST.(spared := if ok then {si} else {})) && Extends(old(G()), hist, G(), hist, {si}) && si in info
      ensures info[si] == old(info[si]).(linked := fault != Unrelocatable, error := Spoils(fault))
      ensures ok <==> !Spoils(fault)
    {
      ok := !Spoils(fault);
      if ok {
        Finish(si);
      } else {
        Fail(si, fault == Unprotectable);
      }
    }

    /** A `DT_NEEDED` slot is overwritten with the library found for it. */
    method Patch(si: Id, lsi: Id)
      requires Core(REST.(spared := {lsi})) && BeingLinked(G(), si) && lsi in so && lsi in info && Usable(info[lsi])
      requires |info[si].slots| < |info[si].needed| && info[lsi].name == BaseName(info[si].needed[|info[si].slots|])
      modifies this`info
      ensures Core(REST) && G() == PatchedGraph(old(G()), si, lsi) && Extends(old(G()), hist, G(), hist, {si})
    {
      ghost var g := G();
      SoundPatched(g, hist, exe, si, lsi);
      PatchedExtends(g, multiset{}, hist, si, lsi);
      info := info[si := info[si].(slots := info[si].slots + [lsi])];
      info := info[lsi := info[lsi].(refcount := info[lsi].refcount + 1)];
    }

    /** `FLAG_LINKED` is set. */
    method Finish(si: Id)
      requires Core(REST) && BeingLinked(G(), si) && |info[si].slots| == |info[si].needed|
      modifies this`info, this`stamp, this`clock
      ensures Core(REST.(spared := {si})) && G() == FinishedGraph(old(G()), si) && Extends(old(G()), hist, G(), hist, {si})
    {
      ghost var g := G();
      SoundFinished(g, hist, exe, si);
      info := info[si := info[si].(linked := true)];
      stamp, clock := stamp[si := clock], clock + 1;
      RecordExtends(g, multiset{}, hist, si, G());
    }

    /** `FLAG_ERROR` is set, after `FLAG_LINKED` if only the final protection of memory failed; patched slots stay. */
    method Fail(si: Id, late: bool)
      requires Core(REST) && BeingLinked(G(), si)
      modifies this`info
      ensures Core(REST) && Extends(old(G()), hist, G(), hist, {si})
      ensures info == old(info)[si := old(info[si]).(linked := late, error := true)]
    {
      ghost var g := G();
      SoundFailed(g, hist, exe, si, late);
      info := info[si := info[si].(linked := late, error := true)];
      RecordExtends(g, multiset{}, hist, si, G());
    }

    // ---- Initialisers ----

    /** `call_constructors_recursive`, for initialisers that do not call the linker themselves. */
    method CallConstructors(si: Id, ghost ph: Phase)
      requires Core(ph) && ph.dying == {} && si in so && si in info && Usable(info[si])
      requires forall e | e in ph.active :: Rank(G(), si) < Rank(G(), e)
      modifies this`info, this`hist
      ensures Core(ph) && si in hist.done && OnlyCalled(old(info), info) && Later(old(hist), hist)
      ensures old(info[si].called) ==> info == old(info) && hist == old(hist)
      ensures !old(info[si].called) ==> hist.done[si] == |hist.log| - 1
      decreases Rank(G(), si)
    {
      ghost var g0, h0 := G(), hist;
      assert CtorAt(info, so, hist, ph.active, si);
      assert OnlyCalled(info, info) && Later(h0, h0);
      if info[si].called {
        return;
      }
      ghost var ph' := ph.(active := ph.active + {si});
      Enter(si, ph);
      var n := |info[si].slots|;
      for i := 0 to n
        invariant Core(ph') && OnlyCalled(g0.f, info) && Later(h0, hist)
        invariant si in info && info[si].slots == g0.f[si].slots && Usable(info[si])
        invariant forall j | 0 <= j < i :: info[si].slots[j] in hist.done
      {
        ghost var g1, h1 := G(), hist;
        RanksBelow(g0, g1, ph.active, ph', exe, si, i);
        CallConstructors(info[si].slots[i], ph');
        OnlyCalledTwice(g0.f, g1.f, info);
        LaterTwice(h0, h1, hist);
        assert CalledAt(g1.f, info, si);
      }
      RunInitialisers(si, ph', h0);
      assert ph'.active - {si} == ph.active;
    }

    /** `constructors_called` is set first. */
    method Enter(si: Id, ghost ph: Phase)
      requires Core(ph) && si in so && si in info && !info[si].called
      modifies this`info
      ensures Core(ph.(active := ph.active + {si})) && OnlyCalled(old(info), info)
      ensures info == old(info)[si := old(info[si]).(called := true)] && si !in ph.active
    {
      NotRun(info, so, hist, ph.active, si);
      SoundEntered(G(), hist, exe, ph, si);
      info := info[si := info[si].(called := true)];
    }

    /** The library's own initialisers run; only that they did is recorded. */
    ghost method RunInitialisers(si: Id, ph: Phase, h0: History)
      requires Core(ph) && si in ph.active && ph.dying == {} && si in so && si in info && Usable(info[si]) && Later(h0, hist)
      requires forall j | 0 <= j < |info[si].slots| :: info[si].slots[j] in hist.done
      modifies this`hist
      ensures Core(ph.(active := ph.active - {si})) && si in hist.done && hist.done[si] == |hist.log| - 1 && Later(h0, hist)
    {
      SoundRan(G(), hist, exe, ph, si);
      ghost var h1 := hist;
      hist := Initialised(info, hist, si);
      ghost var h2 := hist;
      forall e: Id
        ensures LaterAt(h1, h2, e)
      {
      }
      LaterTwice(h0, h1, h2);
    }

    // ---- Unloading ----

    /** `unload_library`: gives up the reference to `si` that `ph.extra` holds, where libdl is on a route or out of reach. */
    method UnloadLibrary(si: Id, ghost ph: Phase, ghost p: seq<Id>)
      requires Core(ph) && ph.active == {} && ph.spared == {} && si in ph.extra && Guard(G(), ph.extra, p)
      requires forall e | e in ph.dying :: e in so && Rank(G(), si) < Rank(G(), e)
      modifies this`pool, this`info, this`so, this`fl
      ensures Core(ph.(extra := ph.extra - multiset{si})) && Guard(G(), ph.extra - multiset{si}, p)
      ensures Receded(old(G()), G(), Rank(old(G()), si), {}) && si in old(info)
      ensures old(info[si].refcount) == 1 ==> si !in so
      ensures old(info[si].refcount) != 1 ==> G() == Dropped(old(G()), si)
      decreases Rank(G(), si), 2
    {
      ghost var g0 := G();
      assert EntryOk(g0, ph.extra, si);
      if info[si].refcount == 1 {
        TakeApart(si, ph, p);
      } else {
        SoundDropped(g0, hist, exe, ph, si);
        GuardDropped(g0, ph.extra, p, si);
        DroppedRecedes(g0, ph.extra, si);
        info := info[si := info[si].(refcount := info[si].refcount - 1)];
      }
    }

    /** The case of the last reference. */
    method TakeApart(si: Id, ghost ph: Phase, ghost p: seq<Id>)
      requires Core(ph) && ph.active == {} && ph.spared == {} && si in ph.extra && Guard(G(), ph.extra, p)
      requires forall e | e in ph.dying :: e in so && Rank(G(), si) < Rank(G(), e)
      requires si in so && si in info && info[si].refcount == 1
      modifies this`pool, this`info, this`so, this`fl
      ensures Core(ph.(extra := ph.extra - multiset{si})) && Guard(G(), ph.extra - multiset{si}, p)
      ensures Receded(old(G()), G(), Rank(old(G()), si), {}) && si !in so
      decreases Rank(G(), si), 1
    {
      ghost var g0 := G();
      ghost var r := Rank(g0, si);
      ghost var ph' := ph.(dying := ph.dying + {si});
      SoundDying(g0, hist, exe, ph, si);
      RecededSelf(g0, ph.extra, r, {si});
      var n := |info[si].slots|;
      for i := 0 to n
        invariant Core(ph') && Guard(G(), ph.extra, p) && Receded(g0, G(), r, {si})
        invariant si in so && si in info && info[si].refcount == 1 && |info[si].slots| == n && Rank(G(), si) == r
        invariant (forall j | 0 <= j < i :: info[si].slots[j] == NULL) && info[si].slots[i..] == g0.f[si].slots[i..]
      {
        SlotFilled(g0, hist, exe, ph, si, i);
        StillAbove(g0, G(), r, {si}, ph.dying);
        ReleaseSlot(si, i, ph', p, g0);
      }
      Discard(si, ph', p, g0);
      assert ph.dying + {si} - {si} == ph.dying;
    }

    /** A slot of the library being unloaded is cleared, and the library it named is unloaded in turn. */
    method ReleaseSlot(si: Id, i: nat, ghost ph: Phase, ghost p: seq<Id>, ghost g0: Graph)
      requires Core(ph) && ph.active == {} && ph.spared == {} && si in ph.extra && si in ph.dying && Guard(G(), ph.extra, p)
      requires forall e | e in ph.dying :: e in so && Rank(G(), si) <= Rank(G(), e)
      requires si in so && si in info && info[si].refcount == 1 && i < |info[si].slots| && info[si].slots[i] != NULL
      requires Receded(g0, G(), Rank(G(), si), {si})
      modifies this`pool, this`info, this`so, this`fl
      ensures Core(ph) && Guard(G(), ph.extra, p) && Receded(g0, G(), Rank(old(G()), si), {si})
      ensures si in so && si in info && info[si] == old(info[si]).(slots := old(info[si].slots)[i := NULL])
      ensures Rank(G(), si) == Rank(old(G()), si)
      decreases Rank(G(), si), 0
    {
      ghost var g1 := G();
      var lsi := info[si].slots[i];
      assert SlotOk(g1, si, i);
      GuardSpares(g1, ph.extra, p, si);
      GuardCleared(g1, ph.extra, p, si, i);
      SoundCleared(g1, hist, exe, ph, si, i);
      ClearedRecedes(g0, g1, si, i);
      info := info[si := info[si].(slots := info[si].slots[i := NULL])];
      ghost var g2 := G();
      UnloadLibrary(lsi, ph.(extra := ph.extra + multiset{lsi}), p);
      assert ph.extra + multiset{lsi} - multiset{lsi} == ph.extra;
      ReleasedRecedes(g0, g2, G(), si, Rank(g2, lsi));
    }

    /** The unloaded library's record is freed. */
    method Discard(si: Id, ghost ph: Phase, ghost p: seq<Id>, ghost g0: Graph)
      requires Core(ph) && ph.active == {} && ph.spared == {} && si in ph.extra && Guard(G(), ph.extra, p)
      requires si in so && si in info && info[si].refcount == 1 && Receded(g0, G(), Rank(G(), si), {si})
      requires forall j | 0 <= j < |info[si].slots| :: info[si].slots[j] == NULL
      modifies this`pool, this`info, this`so, this`fl
      ensures Core(ph.(extra := ph.extra - multiset{si}, dying := ph.dying - {si})) && Guard(G(), ph.extra - multiset{si}, p)
      ensures Receded(g0, G(), Rank(old(G()), si), {}) && si !in so
    {
      ghost var g := G();
      GuardSpares(g, ph.extra, p, si);
      ghost var k := FreeInfo(si);
      info := info[si := info[si].(refcount := 0)];
      SoundRemoved(g, hist, exe, ph, k);
      GuardRemoved(g, ph.extra, p, k);
      RemovedRecedes(g0, g, k);
      WithoutElements(g.so, k, si);
    }

    // ---- Start of the process ----

    /** The main executable's record, with the one reference that is never given up. */
    method AllocMain(name: string, needed: seq<string>) returns (si: Id)
      requires Core(REST) && exe !in so
      modifies this`pool, this`info, this`so, this`fl, this`hist, this`kept, this`exe
      ensures Core(REST) && (si == NULL <==> |name| >= SOINFO_NAME_LEN || |old(so)| == SO_MAX + 1)
      ensures si != NULL ==> exe == si && si in kept && si in so && si in info && si != LIBDL
      ensures si != NULL ==> info[si] == FRESH.(name := name, needed := needed, refcount := info[si].refcount)
    {
      ghost var g, h := G(), hist;
      si := AllocInfo(name);
      if si != NULL {
        SoundAdded(g, h, exe, si, name, si);
        exe := si;
        SoundMapped(G(), hist, exe, si, needed);
        info := info[si := info[si].(needed := needed)];
        Keep(si, {});
      }
    }

    /** `refcount++` for a reference that is never given up. */
    method Keep(x: Id, ghost spared: set<Id>)
      requires Core(REST.(spared := spared)) && spared <= {x} && x in so && x in info
      modifies this`info, this`kept
      ensures Core(REST) && kept == old(kept) + multiset{x}
      ensures info == old(info)[x := old(info[x]).(refcount := old(info[x].refcount) + 1)]
    {
      SoundOpened(G(), hist, exe, spared, x);
      Apart(handles, kept, x);
      info := info[x := info[x].(refcount := info[x].refcount + 1)];
      kept := kept + multiset{x};
    }

    /** `libs` are kept, and are called as `names` ask. */
    ghost predicate Preloaded(names: seq<string>, libs: seq<Id>)
      reads this
    {
      |libs| <= |names| && forall i | 0 <= i < |libs| ::
        libs[i] in kept && libs[i] in so && libs[i] in info && Usable(info[libs[i]]) && info[libs[i]].name == BaseName(names[i])
    }

    /** The preloads are loaded before the main executable `si` is linked, and are never given up either. */
    method LoadPreloads(si: Id, names: seq<string>) returns (ok: bool, ghost libs: seq<Id>, ghost why: Why)
      requires Core(REST) && BeingLinked(G(), si) && si in kept
      modifies this`pool, this`info, this`so, this`fl, this`stamp, this`clock, this`hist, this`kept, this`tried
      ensures Core(REST) && BeingLinked(G(), si) && info[si] == old(info[si]).(refcount := info[si].refcount)
      ensures si in kept && hist.log == old(hist.log) && Preloaded(names, libs) && (ok ==> |libs| == |names|)
      ensures !ok ==> why.Lacks? && why.needed in names && Excuse(why.needed, why.why)
    {
      libs, why := [], Loaded;
      for i := 0 to |names|
        invariant Core(REST) && BeingLinked(G(), si) && info[si] == old(info[si]).(refcount := info[si].refcount)
        invariant si in kept && hist.log == old(hist.log) && Preloaded(names, libs) && |libs| == i
      {
        ghost var g := G();
        var lsi;
        lsi, why := Preload(names[i], names, libs);
        assert CountedAt(g, G(), si);
        if lsi == NULL {
          return false, libs, Lacks(names[i], why);
        }
        libs := libs + [lsi];
      }
      ok := true;
    }

    method Preload(name: string, ghost names: seq<string>, ghost libs: seq<Id>) returns (si: Id, ghost why: Why)
      requires Core(REST) && Preloaded(names, libs)
      modifies this`pool, this`info, this`so, this`fl, this`stamp, this`clock, this`hist, this`kept, this`tried
      ensures Core(REST) && hist.log == old(hist.log) && kept == old(kept) + (if si == NULL then multiset{} else multiset{si})
      ensures si != NULL ==> si in so && si in info && Usable(info[si]) && info[si].name == BaseName(name)
      ensures si == NULL ==> Excuse(name, why)
      ensures Preloaded(names, libs) && forall e {:trigger CountedAt(old(G()), G(), e)} :: CountedAt(old(G()), G(), e)
    {
      ghost var g, h := G(), hist;
      si, why := FindLibrary(name);
      ghost var g1, h1 := G(), hist;
      if si != NULL {
        Keep(si, {si});
      }
      ghost var g' := G();
      forall e: Id
        ensures CountedAt(g, g', e)
      {
        ExtendsCounted(g, h, g1, h1, e);
      }
      assert forall i | 0 <= i < |libs| :: CountedAt(g, g', libs[i]);
    }

    /**
     * The linker's part in starting a process. The executable's initialisers run last, after those of everything it
     * needs; those of a preload run only if it is needed as well. `fault` is what goes wrong with the executable itself.
     */
    method Start(argv0: string, preloads: seq<string>, needed: seq<string>, fault: Fault)
      returns (ok: bool, ghost libs: seq<Id>, ghost why: Why)
      requires Core(REST) && so == [LIBDL] && handles == multiset{} && exe == NULL
      modifies this
      ensures handles == multiset{} && (ok ==> Running() && hist.done[main] == |hist.log| - 1)
      ensures ok ==> info[main].name == argv0 && info[main].needed == needed && Preloaded(preloads, libs) && |libs| == |preloads|
      ensures ok ==> ((exists p :: Fixed(p, LIBDL)) <==> info[LIBDL].refcount > 0)
      ensures |argv0| >= SOINFO_NAME_LEN || Spoils(fault) ==> !ok
      ensures !ok ==> || |argv0| >= SOINFO_NAME_LEN || Spoils(fault)
                      || (why.Lacks? && (why.needed in preloads || why.needed in needed) && Excuse(why.needed, why.why))
    {
      libs, why := [], Loaded;
      var si := AllocMain(argv0, needed);
      if si == NULL {
        return false, libs, why;
      }
      ok, libs, why := LoadPreloads(si, preloads);
      if !ok {
        return;
      }
      ok, why := LinkMain(si, fault, preloads, libs);
    }

    /** The executable `si` is linked, and runs if that succeeds. */
    method LinkMain(si: Id, fault: Fault, ghost preloads: seq<string>, ghost libs: seq<Id>) returns (ok: bool, ghost why: Why)
      requires Core(REST) && BeingLinked(G(), si) && info[si].slots == [] && si == exe && si in kept && handles == multiset{}
      requires Preloaded(preloads, libs)
      modifies this`pool, this`info, this`so, this`fl, this`stamp, this`clock, this`hist, this`tried, this`main
      ensures ok ==> Running() && main == si && hist.done[main] == |hist.log| - 1 && Preloaded(preloads, libs)
      ensures si in info && info[si].name == old(info[si].name) && info[si].needed == old(info[si].needed)
      ensures ok ==> ((exists p :: Fixed(p, LIBDL)) <==> info[LIBDL].refcount > 0)
      ensures ok ==> !Spoils(fault)
      ensures !ok && !Spoils(fault) ==> why.Lacks? && why.needed in info[si].needed && Excuse(why.needed, why.why)
    {
      ghost var g, h := G(), hist;
      ok, why := LinkImage(si, fault);
      if ok {
        PreloadsKept(preloads, libs, g, h, si);
        StartMain(si, preloads, libs);
      }
    }

    lemma {:induction false} PreloadsKept(names: seq<string>, libs: seq<Id>, g: Graph, h: History, si: Id)
      requires |libs| <= |names| && Extends(g, h, G(), hist, {si}) && si in g.f && !Usable(g.f[si])
      requires forall i | 0 <= i < |libs| ::
                 libs[i] in kept && libs[i] in g.so && libs[i] in g.f && Usable(g.f[libs[i]]) && g.f[libs[i]].name == BaseName(names[i])
      ensures Preloaded(names, libs)
    {
      ghost var g', h' := G(), hist;
      forall i | 0 <= i < |libs|
        ensures libs[i] in g'.so && SameAt(g, h, g', h', libs[i])
      {
        Prefix(g.so, g'.so, libs[i]);
      }
    }

    method StartMain(si: Id, ghost preloads: seq<string>, ghost libs: seq<Id>)
      requires Core(REST.(spared := {si})) && si in so && si in info && Usable(info[si]) && !info[si].called
      requires si == exe && si in kept && handles == multiset{} && Preloaded(preloads, libs)
      modifies this`info, this`hist, this`main
      ensures Running() && main == si && info[si] == old(info[si]).(called := true) && hist.done[main] == |hist.log| - 1
      ensures (exists p :: Fixed(p, LIBDL)) <==> info[LIBDL].refcount > 0
      ensures Preloaded(preloads, libs)
    {
      ghost var f := info;
      CallConstructors(si, REST.(spared := {si}));
      assert CalledAt(f, info, si) && CtorAt(info, so, hist, {}, si);
      assert forall i | 0 <= i < |libs| :: CalledAt(f, info, libs[i]);
      SoundReferred(G(), hist, exe, si);
      main := si;
      assert handles + kept == kept;
      assert G() == G().(held := kept);
      RoutedIffCounted(G(), hist, exe);
      forall p
        ensures Fixed(p, LIBDL) <==> IsRoute(G(), p, LIBDL)
      {
      }
    }

    // ---- The interface ----

    /** `dlopen` with a name; 0 if the library cannot be loaded. */
    method Dlopen(name: string) returns (si: Id, ghost why: Why)
      requires Running()
      modifies this`pool, this`info, this`so, this`fl, this`stamp, this`clock, this`hist, this`tried, this`handles
      ensures Running() && Grown(old(G()), old(hist), G(), hist)
      ensures si == NULL ==> handles == old(handles) && hist.log == old(hist.log)
      ensures si != NULL ==> handles == old(handles) + multiset{si} && si in so && si in info
      ensures si != NULL ==> Usable(info[si]) && info[si].name == BaseName(name)
      ensures si == NULL ==> Excuse(name, why)
      ensures var e := old(FirstNamed(info, so, BaseName(name)));
              e != NULL ==> so == old(so) && tried == old(tried) && e in old(info) && si == if Usable(old(info)[e]) then e else NULL
      ensures forall p, x {:trigger Fixed(p, x)} | old(Fixed(p, x)) :: Fixed(p, x)
    {
      ghost var g0, h0 := G(), hist;
      si, why := FindLibrary(name);
      ExtendsGrown(g0, h0, G(), hist);
      if si == NULL {
        StillRunning(g0, h0);
      } else {
        Adopt(si, g0, h0);
      }
      StillFixed(g0, h0);
    }

    lemma {:induction false} StillFixed(g0: Graph, h0: History)
      requires Grown(g0, h0, G(), hist)
      ensures forall p, x {:trigger Fixed(p, x)} | Rooted(g0, kept, p, x) :: Fixed(p, x)
    {
      forall p, x | Rooted(g0, kept, p, x)
        ensures Fixed(p, x)
      {
        RootedGrown(g0, h0, G(), hist, kept, p, x);
      }
    }

    /** The rest of `dlopen`: initialisers, and one more reference. */
    method Adopt(si: Id, ghost g0: Graph, ghost h0: History)
      requires Core(REST.(spared := {si})) && si in so && si in info && Usable(info[si]) && Grown(g0, h0, G(), hist)
      requires main == exe && main in kept && ReadyAt(g0, h0, main) && forall e | e in handles :: ReadyAt(g0, h0, e)
      modifies this`info, this`hist, this`handles
      ensures Running() && handles == old(handles) + multiset{si} && Grown(g0, h0, G(), hist)
      ensures si in info && so == old(so) && Usable(info[si]) && info[si].name == old(info[si].name)
    {
      ghost var g1, h1 := G(), hist;
      CallConstructors(si, REST.(spared := {si}));
      assert CalledAt(g1.f, info, si);
      AdoptedGrown(g0, h0, g1, h1, G(), hist, si);
      Take(si, {si});
      StillRunning(g0, h0);
    }

    /** `refcount++` for a handle. */
    method Take(x: Id, ghost spared: set<Id>)
      requires Core(REST.(spared := spared)) && spared <= {x} && x in so && x in info
      modifies this`info, this`handles
      ensures Core(REST) && G() == Opened(old(G()), x) && handles == old(handles) + multiset{x}
    {
      SoundOpened(G(), hist, exe, spared, x);
      Apart(kept, handles, x);
      info := info[x := info[x].(refcount := info[x].refcount + 1)];
      handles := handles + multiset{x};
    }

    /** The executable and the libraries with handles stay as they are while the linker's state grows. */
    lemma {:induction false} StillRunning(g0: Graph, h0: History)
      requires Core(REST) && Grown(g0, h0, G(), hist) && main == exe && main in kept && ReadyAt(g0, h0, main)
      requires forall e | e in handles :: ReadyAt(g0, h0, e) || ReadyAt(G(), hist, e)
      ensures Running()
    {
      ghost var g', h' := G(), hist;
      StillReady(g0, h0, g', h', main);
      forall e | e in handles
        ensures ReadyAt(g', h', e)
      {
        if ReadyAt(g0, h0, e) { StillReady(g0, h0, g', h', e); }
      }
    }

    /** `dlopen` with a null name: a handle on the main executable. */
    method DlopenSelf() returns (si: Id)
      requires Running()
      modifies this`info, this`handles
      ensures Running() && si == main && G() == Opened(old(G()), main) && handles == old(handles) + multiset{si}
      ensures forall p, x {:trigger Fixed(p, x)} | old(Fixed(p, x)) :: Fixed(p, x)
    {
      ghost var g0 := G();
      si := main;
      Take(si, {});
      ghost var g' := G();
      InfosThere(g0, multiset{});
      forall p, x | Rooted(g0, kept, p, x)
        ensures Fixed(p, x)
      {
        assert forall i | 0 <= i < |p| :: SlotsKeptAt(g0, g', p[i]);
        RootedKept(g0, g', kept, p, x);
      }
    }

    /** What closing `h` leaves keeps libdl on the route `p`, or, if `p` is empty, libdl cannot be reached from `h`. */
    ghost predicate Closable(h: Id, p: seq<Id>)
      reads this
    {
      Guard(G().(held := G().held - multiset{h}), multiset{h}, p)
    }

    /** `dlclose` of an outstanding handle. */
    method Dlclose(h: Id, ghost p: seq<Id>)
      requires Running() && h in handles && Closable(h, p)
      modifies this`pool, this`info, this`so, this`fl, this`handles
      ensures Running() && handles == old(handles) - multiset{h} && h in old(info)
      ensures old(info[h].refcount) == 1 ==> h !in so
      ensures old(info[h].refcount) != 1 ==>
                so == old(so) && info == old(info)[h := old(info[h]).(refcount := old(info[h].refcount) - 1)]
      ensures Receded(old(G()).(held := G().held), G(), Rank(old(G()), h), {})
      ensures forall q, x {:trigger Fixed(q, x)} | old(Fixed(q, x)) :: Fixed(q, x)
    {
      ghost var g0, r := G(), Rank(G(), h);
      Release(h, p);
      ghost var g1 := g0.(held := G().held);
      StillHeld(g1, r);
      forall q, x | Rooted(g0, kept, q, x)
        ensures Fixed(q, x)
      {
        assert g1.(held := kept) == g0.(held := kept);
        RootedStays(g1, G(), r, kept, q, x);
      }
    }

    /** The handle's reference is given up. */
    method Release(h: Id, ghost p: seq<Id>)
      requires Core(REST) && h in handles && h in info && Usable(info[h]) && Closable(h, p)
      modifies this`pool, this`info, this`so, this`fl, this`handles
      ensures Core(REST) && handles == old(handles) - multiset{h} && Rank(old(G()), h) < clock
      ensures old(info[h].refcount) == 1 ==> h !in so
      ensures old(info[h].refcount) != 1 ==>
                so == old(so) && info == old(info)[h := old(info[h]).(refcount := old(info[h].refcount) - 1)]
      ensures Receded(old(G()).(held := G().held), G(), Rank(old(G()), h), {})
    {
      ghost var g0 := G();
      Apart(kept, handles, h);
      assert EntryOk(g0, multiset{}, h);
      SoundClosing(g0, hist, exe, h);
      handles := handles - multiset{h};
      ghost var g1, ph := G(), REST.(extra := multiset{h});
      assert g1 == g0.(held := g0.held - multiset{h});
      UnloadLibrary(h, ph, p);
      assert ph.(extra := ph.extra - multiset{h}) == REST && g1 == g0.(held := G().held);
    }

    /** The executable and the libraries that still have handles changed only in their counts. */
    lemma {:induction false} StillHeld(g1: Graph, r: nat)
      requires Inv(G(), multiset{}) && Receded(g1, G(), r, {}) && main in kept
      ensures forall e | e in handles || e == main :: e in so && e in info && e in g1.f && info[e] == g1.f[e].(refcount := info[e].refcount)
    {
      ghost var g' := G();
      forall e | e in handles || e == main
        ensures e in so && e in info && e in g1.f && info[e] == g1.f[e].(refcount := info[e].refcount)
      {
        assert EntryOk(g', multiset{}, e) && RecededAt(g1, g', r, {}, e);
      }
    }

    /** Closing never costs libdl where it is on a route from something that is never given up. */
    lemma {:induction false} FixedClosable(h: Id, p: seq<Id>)
      requires Fixed(p, LIBDL) && h in handles
      ensures Closable(h, p)
    {
      var g' := G().(held := G().held - multiset{h});
      PathKept(G().(held := kept), g', p);
    }

    /** A count is exactly the references there are; and what is loaded and usable is reached from a root. */
    lemma {:induction false} Counted(e: Id)
      requires Core(REST) && e in so && e in info
      ensures info[e].refcount == handles[e] + kept[e] + Refs(info, so, e)
      ensures Usable(info[e]) && (e != LIBDL || info[e].refcount > 0) ==> exists q :: IsRoute(G(), q, e)
    {
      assert EntryOk(G(), multiset{}, e);
      if Usable(info[e]) && (e != LIBDL || info[e].refcount > 0) {
        ghost var q := LoadedIsReached(G(), hist, exe, e);
      }
    }

    /** The initialisers of a library that has run them are logged once, and after those of all it needs. */
    lemma {:induction false} RanInOrder(e: Id, i: nat)
      requires Core(REST) && e in so && e in info && e in hist.done && i < |info[e].slots|
      ensures e in hist.load && hist.done[e] < |hist.log| && hist.log[hist.done[e]].load == hist.load[e]
      ensures forall j | 0 <= j < |hist.log| && hist.log[j].load == hist.load[e] :: j == hist.done[e]
      ensures info[e].slots[i] in hist.done && hist.done[info[e].slots[i]] < hist.done[e]
    {
      assert CtorAt(info, so, hist, {}, e);
      SlotFilled(G(), hist, exe, REST, e, i);
      forall j | 0 <= j < |hist.log| && hist.log[j].load == hist.load[e]
        ensures j == hist.done[e]
      {
        assert OnceAt(hist.log, j, hist.done[e]) && OnceAt(hist.log, hist.done[e], j);
      }
    }

    lemma {:induction false} Tidy()
      requires Core(REST)
      ensures forall e | e in so && e in info :: info[e].refcount == handles[e] + kept[e] + Refs(info, so, e)
      ensures forall e | e in so && e in info && Usable(info[e]) && e != LIBDL :: exists q :: IsRoute(G(), q, e)
      ensures forall e, i | e in so && e in info && e in hist.done && 0 <= i < |info[e].slots| ::
                info[e].slots[i] in hist.done && hist.done[info[e].slots[i]] < hist.done[e]
    {
      forall e | e in so && e in info
        ensures info[e].refcount == handles[e] + kept[e] + Refs(info, so, e)
        ensures Usable(info[e]) && e != LIBDL ==> exists q :: IsRoute(G(), q, e)
      {
        Counted(e);
      }
      forall e, i | e in so && e in info && e in hist.done && 0 <= i < |info[e].slots|
        ensures info[e].slots[i] in hist.done && hist.done[info[e].slots[i]] < hist.done[e]
      {
        RanInOrder(e, i);
      }
    }
  }

  datatype Request = Open(name: string) | OpenSelf | Close(handle: Id)

  /** What there is between two requests; `mine` are the handles the caller has open. */
  datatype Stage = Stage(f: Infos, so: seq<Id>, tried: seq<string>, mine: multiset<Id>)

  ghost function StageOf(l: Linker, mine: multiset<Id>): Stage
    reads l
  {
    Stage(l.info, l.so, l.tried, mine)
  }

  /** A name that is known is answered from its first record; otherwise there is a library or a reason why there is none. */
  ghost predicate Opening(w: World, name: string, x: Stage, y: Stage, reply: Id) {
    var e := FirstNamed(x.f, x.so, BaseName(name));
    && (reply == NULL ==> y.mine == x.mine && exists why :: Excused(w, y.f, y.so, y.tried, name, why))
    && (reply != NULL ==> && y.mine == x.mine + multiset{reply} && reply in y.so && reply in y.f
                          && Usable(y.f[reply]) && y.f[reply].name == BaseName(name))
    && (e != NULL ==> y.so == x.so && y.tried == x.tried && e in x.f && reply == if Usable(x.f[e]) then e else NULL)
  }

  /** The last reference takes the library away; any other only lowers its count. A handle the caller does not have is ignored. */
  ghost predicate Closing(h: Id, x: Stage, y: Stage) {
    if h !in x.mine then
      y == x
    else
      && y.mine == x.mine - multiset{h} && y.tried == x.tried && h in x.f
      && (x.f[h].refcount == 1 ==> h !in y.so)
      && (x.f[h].refcount != 1 ==> y.so == x.so && y.f == x.f[h := x.f[h].(refcount := x.f[h].refcount - 1)])
  }

  ghost predicate Answered(w: World, main: Id, request: Request, x: Stage, y: Stage, reply: Id) {
    match request
    case Open(name) => Opening(w, name, x, y, reply)
    case OpenSelf =>
      && reply == main && main in x.f && y.mine == x.mine + multiset{main} && y.so == x.so && y.tried == x.tried
      && y.f == x.f[main := x.f[main].(refcount := x.f[main].refcount + 1)]
    case Close(h) => reply == NULL && Closing(h, x, y)
  }

  /** Each request so far was answered. */
  ghost predicate AnsweredAt(w: World, main: Id, requests: seq<Request>, replies: seq<Id>, trace: seq<Stage>, i: nat) {
    i < |requests| && i < |replies| && i + 1 < |trace| ==> Answered(w, main, requests[i], trace[i], trace[i + 1], replies[i])
  }

  lemma {:induction false} AnsweredStep(w: World, main: Id, requests: seq<Request>, replies: seq<Id>, trace: seq<Stage>,
                                        reply: Id, y: Stage)
    requires |trace| == |replies| + 1 <= |requests|
    requires Answered(w, main, requests[|replies|], trace[|replies|], y, reply)
    requires forall i: nat {:trigger AnsweredAt(w, main, requests, replies, trace, i)} ::
               AnsweredAt(w, main, requests, replies, trace, i)
    ensures var replies', trace' := replies + [reply], trace + [y];
            forall i: nat {:trigger AnsweredAt(w, main, requests, replies', trace', i)} ::
              AnsweredAt(w, main, requests, replies', trace', i)
  {
    ghost var replies', trace' := replies + [reply], trace + [y];
    forall i: nat
      ensures AnsweredAt(w, main, requests, replies', trace', i)
    {
      assert AnsweredAt(w, main, requests, replies, trace, i);
    }
  }

  /** One request of a caller who has the handles `mine` open, and others `others`. */
  method Perform(l: Linker, request: Request, mine: multiset<Id>, ghost others: multiset<Id>, ghost p: seq<Id>)
    returns (reply: Id, mine': multiset<Id>)
    requires l.Running() && l.handles == others + mine && (request.Close? ==> l.Fixed(p, LIBDL))
    modifies l`pool, l`info, l`so, l`fl, l`stamp, l`clock, l`hist, l`tried, l`handles
    ensures l.Running() && l.handles == others + mine' && old(l.hist.log) <= l.hist.log
    ensures Answered(l.world, l.main, request, old(StageOf(l, mine)), StageOf(l, mine'), reply)
    ensures forall q, x {:trigger l.Fixed(q, x)} | old(l.Fixed(q, x)) :: l.Fixed(q, x)
  {
    reply, mine' := NULL, mine;
    match request
    case Open(name) =>
      ghost var why;
      reply, why := l.Dlopen(name);
      assert reply == NULL ==> Excused(l.world, l.info, l.so, l.tried, name, why);
      if reply != NULL {
        Apart(others, mine, reply);
        mine' := mine + multiset{reply};
      }
    case OpenSelf =>
      reply := l.DlopenSelf();
      Apart(others, mine, reply);
      mine' := mine + multiset{reply};
    case Close(h) =>
      if h in mine {
        l.FixedClosable(h, p);
        l.Dlclose(h, p);
        Apart(others, mine, h);
        mine' := mine - multiset{h};
      }
  }

  /**
   * Any sequence of requests; `mine` are the handles this caller has open, and `trace` is what there was before each
   * request and after the last. Closing presupposes that libdl is on a route from something that is never given up.
   */
  method Serve(l: Linker, requests: seq<Request>, ghost p: seq<Id>)
    returns (replies: seq<Id>, mine: multiset<Id>, ghost trace: seq<Stage>)
    requires l.Running() && (l.Fixed(p, LIBDL) || forall i | 0 <= i < |requests| :: !requests[i].Close?)
    modifies l`pool, l`info, l`so, l`fl, l`stamp, l`clock, l`hist, l`tried, l`handles
    ensures l.Running() && l.handles == old(l.handles) + mine
    ensures |replies| == |requests| && |trace| == |requests| + 1
    ensures trace[0] == old(StageOf(l, multiset{})) && trace[|requests|] == StageOf(l, mine)
    ensures forall i: nat {:trigger AnsweredAt(l.world, l.main, requests, replies, trace, i)} ::
              AnsweredAt(l.world, l.main, requests, replies, trace, i)
    ensures forall e | e in l.so && e in l.info ::
              l.info[e].refcount == old(l.handles)[e] + mine[e] + l.kept[e] + Refs(l.info, l.so, e)
    ensures forall e | e in l.so && e in l.info && Usable(l.info[e]) && e != LIBDL :: exists q :: IsRoute(l.G(), q, e)
    ensures old(l.hist.log) <= l.hist.log && Orderly(l.hist.log)
    ensures forall e, i | e in l.so && e in l.info && e in l.hist.done && 0 <= i < |l.info[e].slots| ::
              l.info[e].slots[i] in l.hist.done && l.hist.done[l.info[e].slots[i]] < l.hist.done[e]
    ensures forall q, x {:trigger l.Fixed(q, x)} | old(l.Fixed(q, x)) :: l.Fixed(q, x)
  {
    replies, mine := [], multiset{};
    trace := [StageOf(l, mine)];
    for i := 0 to |requests|
      invariant l.Running() && l.handles == old(l.handles) + mine && old(l.hist.log) <= l.hist.log
      invariant |replies| == i && |trace| == i + 1 && trace[0] == old(StageOf(l, multiset{})) && trace[i] == StageOf(l, mine)
      invariant forall j: nat {:trigger AnsweredAt(l.world, l.main, requests, replies, trace, j)} ::
                  AnsweredAt(l.world, l.main, requests, replies, trace, j)
      invariant forall q, x {:trigger l.Fixed(q, x)} | old(l.Fixed(q, x)) :: l.Fixed(q, x)
    {
      var reply;
      reply, mine := Perform(l, requests[i], mine, old(l.handles), p);
      AnsweredStep(l.world, l.main, requests, replies, trace, reply, StageOf(l, mine));
      replies, trace := replies + [reply], trace + [StageOf(l, mine)];
    }
    l.Tidy();
  }
}
