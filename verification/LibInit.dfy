/** The order in which initialisers run, over the whole life of the process. */
module LibInit {
  import opened Lists
  import opened SoPool
  import opened LibGraph

  /** The initialisers of one load of a library ran; `deps` are the loads its slots named at that moment. */
  datatype Event = Ran(load: nat, name: string, deps: seq<nat>)

  /**
   * Every allocation of a record is a new load with its own number; `load` maps the records to their present loads.
   * `log` are the initialiser runs so far, and `done` is the place in it of a record's present load.
   */
  datatype History = History(loads: nat, load: map<Id, nat>, log: seq<Event>, done: map<Id, nat>)

  ghost predicate Precedes(log: seq<Event>, i: int, n: nat) {
    exists j {:trigger log[j]} :: 0 <= j < i && j < |log| && log[j].load == n
  }

  ghost predicate OnceAt(log: seq<Event>, i: int, j: int) {
    0 <= i < j < |log| ==> log[i].load != log[j].load
  }

  ghost predicate AfterAt(log: seq<Event>, i: int, k: int) {
    0 <= i < |log| && 0 <= k < |log[i].deps| ==> Precedes(log, i, log[i].deps[k])
  }

  /** No load is initialised twice, and none before the loads it depends on, whether they are still there or not. */
  ghost predicate Orderly(log: seq<Event>) {
    && (forall i, j {:trigger OnceAt(log, i, j)} :: OnceAt(log, i, j))
    && (forall i, k {:trigger AfterAt(log, i, k)} :: AfterAt(log, i, k))
  }

  ghost predicate LogOk(h: History) {
    Orderly(h.log) && forall i {:trigger h.log[i]} | 0 <= i < |h.log| :: h.log[i].load < h.loads
  }

  /**
   * A record's initialisers have run exactly if it is marked as called and not `active`; then they are in the log, after
   * those of the libraries its slots name, and otherwise they are not in the log at all.
   */
  ghost predicate CtorAt(f: Infos, so: seq<Id>, h: History, active: set<Id>, e: Id) {
    e in so && e in f ==>
      && e in h.load && h.load[e] < h.loads
      && (f[e].called <==> e in h.done || e in active) && !(e in h.done && e in active)
      && (e !in h.done ==> !Precedes(h.log, |h.log|, h.load[e]))
      && (e in h.done ==>
            && Usable(f[e]) && h.done[e] < |h.log| && h.log[h.done[e]].load == h.load[e]
            && forall i {:trigger f[e].slots[i]} | 0 <= i < |f[e].slots| ::
                 f[e].slots[i] == NULL || (f[e].slots[i] in h.done && h.done[f[e].slots[i]] < h.done[e]))
  }

  ghost predicate LoadsApart(so: seq<Id>, h: History, e: Id, d: Id) {
    e in so && d in so && e != d && e in h.load && d in h.load ==> h.load[e] != h.load[d]
  }

  ghost predicate Ctors(f: Infos, so: seq<Id>, h: History, active: set<Id>) {
    && LogOk(h)
    && (forall e {:trigger CtorAt(f, so, h, active, e)} :: CtorAt(f, so, h, active, e))
    && (forall e, d {:trigger LoadsApart(so, h, e, d)} :: LoadsApart(so, h, e, d))
  }

  /** Everything a chain of slots leads to from an initialised library is initialised. */
  lemma {:induction false} PathInitialised(g: Graph, h: History, p: seq<Id>, k: nat)
    requires Ctors(g.f, g.so, h, {}) && Path(g, p) && k < |p| && p[0] in h.done
    ensures p[k] in h.done
  {
    if k > 0 {
      PathInitialised(g, h, p, k - 1);
      assert DependsAt(g, p, k - 1);
      assert CtorAt(g.f, g.so, h, {}, p[k - 1]);
      var i :| 0 <= i < |g.f[p[k - 1]].slots| && g.f[p[k - 1]].slots[i] == p[k];
    }
  }

  // ---- Changes ----

  /** A record that kept its marks, and whose slots, once it is initialised, were at most cleared. */
  ghost predicate Kept(f: Infos, f': Infos, done: map<Id, nat>, e: Id) {
    e in f && e in f' ==>
      && f'[e].called == f[e].called
      && (e in done ==>
            && Usable(f'[e]) == Usable(f[e]) && |f'[e].slots| == |f[e].slots|
            && forall i {:trigger f'[e].slots[i]} | 0 <= i < |f'[e].slots| ::
                 f'[e].slots[i] == NULL || f'[e].slots[i] == f[e].slots[i])
  }

  lemma {:induction false} CtorsKept(f: Infos, so: seq<Id>, h: History, active: set<Id>, f': Infos, so': seq<Id>)
    requires Ctors(f, so, h, active)
    requires forall e {:trigger Kept(f, f', h.done, e)} | e in so' :: e in so && e in f && Kept(f, f', h.done, e)
    ensures Ctors(f', so', h, active)
  {
    forall e: Id
      ensures CtorAt(f', so', h, active, e)
    {
      assert CtorAt(f, so, h, active, e);
      assert e in so' ==> Kept(f, f', h.done, e);
    }
    forall e: Id, d: Id
      ensures LoadsApart(so', h, e, d)
    {
      assert LoadsApart(so, h, e, d);
      assert e in so' ==> Kept(f, f', h.done, e);
      assert d in so' ==> Kept(f, f', h.done, d);
    }
  }

  /** A clean record is a new load. */
  ghost function NewLoad(h: History, e: Id): History {
    History(h.loads + 1, h.load[e := h.loads], h.log, h.done - {e})
  }

  lemma {:induction false} Unlogged(h: History)
    requires LogOk(h)
    ensures !Precedes(h.log, |h.log|, h.loads)
  {
  }

  lemma {:induction false} CtorsAdded(g: Graph, extra: multiset<Id>, h: History, active: set<Id>, e: Id, f': Infos)
    requires Inv(g, extra) && Ctors(g.f, g.so, h, active) && e != NULL && e !in g.so && e !in active
    requires e in f' && !f'[e].called && f' == g.f[e := f'[e]]
    ensures Ctors(f', g.so + [e], NewLoad(h, e), active)
  {
    var so', h' := g.so + [e], NewLoad(h, e);
    Unlogged(h);
    forall d: Id
      ensures CtorAt(f', so', h', active, d)
    {
      assert CtorAt(g.f, g.so, h, active, d);
      if d in g.so && d in g.f {
        forall i | 0 <= i < |g.f[d].slots|
          ensures g.f[d].slots[i] != e
        {
          assert SlotOk(g, d, i);
        }
      }
    }
    forall c: Id, d: Id
      ensures LoadsApart(so', h', c, d)
    {
      assert LoadsApart(g.so, h, c, d) && CtorAt(g.f, g.so, h, active, c) && CtorAt(g.f, g.so, h, active, d);
      assert EntryOk(g, extra, c) && EntryOk(g, extra, d);
    }
  }

  /** `constructors_called` is set before the dependencies are visited. */
  lemma {:induction false} CtorsEntered(f: Infos, so: seq<Id>, h: History, active: set<Id>, e: Id)
    requires Ctors(f, so, h, active) && e in so && e in f && !f[e].called
    ensures Ctors(f[e := f[e].(called := true)], so, h, active + {e})
  {
    var f', active' := f[e := f[e].(called := true)], active + {e};
    assert CtorAt(f, so, h, active, e);
    forall d: Id
      ensures CtorAt(f', so, h, active', d)
    {
      assert CtorAt(f, so, h, active, d);
    }
  }

  /** The loads of the libraries that `slots` name. */
  ghost function LoadsOf(load: map<Id, nat>, slots: seq<Id>): seq<nat> {
    seq(|slots|, i requires 0 <= i < |slots| => if slots[i] in load then load[slots[i]] else 0)
  }

  /** The initialisers of `e` run. */
  ghost function Initialised(f: Infos, h: History, e: Id): History
    requires e in f && e in h.load
  {
    h.(log := h.log + [Ran(h.load[e], f[e].name, LoadsOf(h.load, f[e].slots))], done := h.done[e := |h.log|])
  }

  /** All that `e` depends on has been initialised. */
  ghost predicate Ready(f: Infos, so: seq<Id>, h: History, e: Id)
    requires e in f
  {
    forall i {:trigger f[e].slots[i]} | 0 <= i < |f[e].slots| ::
      f[e].slots[i] in so && f[e].slots[i] in f && f[e].slots[i] in h.done && f[e].slots[i] != e
  }

  lemma {:induction false} PrecedesGrows(log: seq<Event>, ev: Event, i: int, n: nat)
    requires i <= |log|
    ensures Precedes(log + [ev], i, n) <==> Precedes(log, i, n)
  {
    var log' := log + [ev];
    if Precedes(log, i, n) {
      var j :| 0 <= j < i && j < |log| && log[j].load == n;
      assert log'[j].load == n;
    }
    if Precedes(log', i, n) {
      var j :| 0 <= j < i && j < |log'| && log'[j].load == n;
      assert log[j].load == n;
    }
  }

  lemma {:induction false} LogGrows(f: Infos, so: seq<Id>, h: History, active: set<Id>, e: Id)
    requires Ctors(f, so, h, active) && e in so && e in f && e in h.load && e !in h.done && Ready(f, so, h, e)
    ensures LogOk(Initialised(f, h, e))
  {
    var h' := Initialised(f, h, e);
    var n, ev := |h.log|, h'.log[|h.log|];
    assert CtorAt(f, so, h, active, e);
    forall i, j
      ensures OnceAt(h'.log, i, j)
    {
      assert OnceAt(h.log, i, j);
      if 0 <= i < j == n { assert h.log[i].load != h.load[e]; }
    }
    forall i, k
      ensures AfterAt(h'.log, i, k)
    {
      assert AfterAt(h.log, i, k);
      if 0 <= i < n && 0 <= k < |h.log[i].deps| {
        PrecedesGrows(h.log, ev, i, h.log[i].deps[k]);
      } else if i == n && 0 <= k < |ev.deps| {
        var x := f[e].slots[k];
        assert CtorAt(f, so, h, active, x);
        assert h'.log[h.done[x]].load == ev.deps[k];
      }
    }
  }

  /** A library's own initialisers run when those of all libraries its slots name have finished. */
  lemma {:induction false} CtorsFinished(f: Infos, so: seq<Id>, h: History, active: set<Id>, e: Id)
    requires Ctors(f, so, h, active + {e}) && e !in active && e in so && e in f && Usable(f[e]) && e in h.load && e !in h.done
    requires Ready(f, so, h, e)
    ensures Ctors(f, so, Initialised(f, h, e), active)
  {
    var h', active1 := Initialised(f, h, e), active + {e};
    var n, ev := |h.log|, h'.log[|h.log|];
    LogGrows(f, so, h, active1, e);
    assert CtorAt(f, so, h, active1, e);
    forall d: Id
      ensures CtorAt(f, so, h', active, d)
    {
      FinishedAt(f, so, h, active, e, d);
    }
    forall c: Id, d: Id
      ensures LoadsApart(so, h', c, d)
    {
      assert LoadsApart(so, h, c, d);
    }
  }

  lemma {:induction false} FinishedAt(f: Infos, so: seq<Id>, h: History, active: set<Id>, e: Id, d: Id)
    requires Ctors(f, so, h, active + {e}) && e !in active && e in so && e in f && Usable(f[e]) && e in h.load && e !in h.done
    requires Ready(f, so, h, e)
    ensures CtorAt(f, so, Initialised(f, h, e), active, d)
  {
    var h', active1 := Initialised(f, h, e), active + {e};
    var n, ev := |h.log|, h'.log[|h.log|];
    assert CtorAt(f, so, h, active1, e) && CtorAt(f, so, h, active1, d) && LoadsApart(so, h, d, e);
    if d in so && d in f {
      if d == e {
        forall i | 0 <= i < |f[e].slots|
          ensures h.done[f[e].slots[i]] < n
        {
          assert CtorAt(f, so, h, active1, f[e].slots[i]);
        }
      } else if d !in h.done {
        PrecedesGrows(h.log, ev, n, h.load[d]);
      } else {
        assert h'.log[h.done[d]] == h.log[h.done[d]];
      }
    }
  }

  // ---- Comparing histories ----

  ghost predicate LaterAt(h: History, h': History, e: Id) {
    e in h.done ==> e in h'.done && h'.done[e] == h.done[e]
  }

  /** The same loads, with more initialiser runs behind those there were. */
  ghost predicate Later(h: History, h': History) {
    && h'.load == h.load && h'.loads == h.loads && h.log <= h'.log
    && forall e {:trigger LaterAt(h, h', e)} :: LaterAt(h, h', e)
  }

  lemma {:induction false} LaterTwice(h: History, h1: History, h2: History)
    requires Later(h, h1) && Later(h1, h2)
    ensures Later(h, h2) && forall e | e in h1.done :: e in h2.done
  {
    forall e: Id
      ensures LaterAt(h, h2, e) && (e in h1.done ==> e in h2.done)
    {
      assert LaterAt(h, h1, e) && LaterAt(h1, h2, e);
    }
  }
}
