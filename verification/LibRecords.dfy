/** What library records say: names, `DT_NEEDED` entries and their slots, and that nothing usable is forgotten. */
module LibRecords {
  import opened Lists
  import opened SoPool
  import opened LibGraph

  /** What follows the last slash. */
  function BaseName(s: string): string {
    if s == [] || s[|s| - 1] == '/' then [] else BaseName(s[..|s| - 1]) + [s[|s| - 1]]
  }

  lemma {:induction false} BaseNameIs(s: string)
    ensures var r := BaseName(s);
            '/' !in r && |r| <= |s| && s[|s| - |r|..] == r && (|r| < |s| ==> s[|s| - |r| - 1] == '/')
    decreases |s|
  {
    if s != [] && s[|s| - 1] != '/' {
      var n := |s| - 1;
      var r, q := BaseName(s), BaseName(s[..n]);
      BaseNameIs(s[..n]);
      assert r == q + [s[n]];
      assert s[|s| - |r|..] == s[..n][n - |q|..] + [s[n]];
    }
  }

  /**
   * Slot `i` names a library called as `DT_NEEDED` entry `i` asks; slots are cleared only in libraries that are `dying`;
   * a usable library has all its slots, and is referred to unless it is libdl or `spared`.
   */
  ghost predicate RecordAt(f: Infos, so: seq<Id>, dying: set<Id>, spared: set<Id>, e: Id) {
    e in so && e in f ==>
      && |f[e].slots| <= |f[e].needed|
      && (Usable(f[e]) ==> |f[e].slots| == |f[e].needed|)
      && (Usable(f[e]) && e != LIBDL && e !in spared ==> f[e].refcount > 0)
      && forall i {:trigger SlotNamed(f, dying, e, i)} :: SlotNamed(f, dying, e, i)
  }

  ghost predicate SlotNamed(f: Infos, dying: set<Id>, e: Id, i: int) {
    e in f && 0 <= i < |f[e].slots| && i < |f[e].needed| ==>
      var x := f[e].slots[i];
      (x == NULL ==> e in dying) && (x != NULL && x in f ==> f[x].name == BaseName(f[e].needed[i]))
  }

  ghost predicate NamesApart(f: Infos, so: seq<Id>, exe: Id, e: Id, d: Id) {
    e in so && d in so && e in f && d in f && e != d && e != exe && d != exe ==> f[e].name != f[d].name
  }

  /** All records are right, and no two but the executable's share a name. */
  ghost predicate Records(f: Infos, so: seq<Id>, exe: Id, dying: set<Id>, spared: set<Id>) {
    && (forall e {:trigger RecordAt(f, so, dying, spared, e)} :: RecordAt(f, so, dying, spared, e))
    && (forall e, d {:trigger NamesApart(f, so, exe, e, d)} :: NamesApart(f, so, exe, e, d))
  }

  /** One record changes, keeping its name. */
  lemma {:induction false} RecordChanged(f: Infos, so: seq<Id>, exe: Id, dying: set<Id>, spared: set<Id>,
                                         e: Id, i': Info, dying': set<Id>, spared': set<Id>)
    requires Records(f, so, exe, dying, spared) && e in f && i'.name == f[e].name
    requires (forall d | d in dying && d != e :: d in dying') && (forall d | d in spared && d != e :: d in spared')
    requires RecordAt(f[e := i'], so, dying', spared', e)
    ensures Records(f[e := i'], so, exe, dying', spared')
  {
    var f' := f[e := i'];
    forall d: Id
      ensures RecordAt(f', so, dying', spared', d)
    {
      assert RecordAt(f, so, dying, spared, d);
      if d != e && d in so && d in f {
        forall i
          ensures SlotNamed(f', dying', d, i)
        {
          assert SlotNamed(f, dying, d, i);
        }
      }
    }
    forall c: Id, d: Id
      ensures NamesApart(f', so, exe, c, d)
    {
      assert NamesApart(f, so, exe, c, d);
    }
  }

  /** A record that keeps its slots goes on naming the same libraries. */
  lemma {:induction false} SameSlots(f: Infos, so: seq<Id>, dying: set<Id>, spared: set<Id>, e: Id, i': Info, spared': set<Id>)
    requires RecordAt(f, so, dying, spared, e) && e in f
    requires i'.slots == f[e].slots && i'.needed == f[e].needed && i'.name == f[e].name
    requires e in so && Usable(i') ==> |i'.slots| == |i'.needed| && (e == LIBDL || e in spared' || i'.refcount > 0)
    ensures RecordAt(f[e := i'], so, dying, spared', e)
  {
    var f' := f[e := i'];
    if e in so {
      forall i
        ensures SlotNamed(f', dying, e, i)
      {
        assert SlotNamed(f, dying, e, i);
      }
    }
  }

  /** Marks and counts change, and counts do not drop to zero. */
  lemma {:induction false} RecordMarked(f: Infos, so: seq<Id>, exe: Id, dying: set<Id>, spared: set<Id>, e: Id, i': Info)
    requires Records(f, so, exe, dying, spared) && e in f && i' == f[e].(refcount := i'.refcount, called := i'.called)
    requires f[e].refcount > 0 ==> i'.refcount > 0
    ensures Records(f[e := i'], so, exe, dying, spared)
  {
    assert RecordAt(f, so, dying, spared, e);
    SameSlots(f, so, dying, spared, e, i', spared);
    RecordChanged(f, so, exe, dying, spared, e, i', dying, spared);
  }

  /** A clean record with a name of its own is added. */
  lemma {:induction false} RecordAdded(g: Graph, extra: multiset<Id>, exe: Id, e: Id, name: string, exe': Id)
    requires Inv(g, extra) && Records(g.f, g.so, exe, {}, {}) && e != NULL && e !in g.so
    requires exe' == exe || exe' == e
    requires exe' == e || forall d | d in g.so && d in g.f :: g.f[d].name != name
    requires exe' == e ==> forall d | d in g.so && d in g.f && d == exe :: false
    ensures Records(g.f[e := FRESH.(name := name)], g.so + [e], exe', {}, {})
  {
    var f', so' := g.f[e := FRESH.(name := name)], g.so + [e];
    forall d: Id
      ensures RecordAt(f', so', {}, {}, d)
    {
      assert RecordAt(g.f, g.so, {}, {}, d);
      if d in g.so && d in g.f {
        forall i
          ensures SlotNamed(f', {}, d, i)
        {
          assert SlotNamed(g.f, {}, d, i) && SlotOk(g, d, i);
        }
      }
    }
    forall c: Id, d: Id
      ensures NamesApart(f', so', exe', c, d)
    {
      assert NamesApart(g.f, g.so, exe, c, d) && EntryOk(g, extra, c) && EntryOk(g, extra, d);
    }
  }

  /** A record leaves `solist`. */
  lemma {:induction false} RecordRemoved(f: Infos, so: seq<Id>, exe: Id, dying: set<Id>, spared: set<Id>, k: nat, dying': set<Id>)
    requires Records(f, so, exe, dying, spared) && NoRepeats(so) && k < |so| && (forall d | d in dying && d != so[k] :: d in dying')
    ensures Records(f, Without(so, k), exe, dying', spared)
  {
    var so' := Without(so, k);
    forall d: Id
      ensures RecordAt(f, so', dying', spared, d)
    {
      assert RecordAt(f, so, dying, spared, d);
      WithoutElements(so, k, d);
      if d in so' && d in f {
        forall i
          ensures SlotNamed(f, dying', d, i)
        {
          assert SlotNamed(f, dying, d, i);
        }
      }
    }
    forall c: Id, d: Id
      ensures NamesApart(f, so', exe, c, d)
    {
      assert NamesApart(f, so, exe, c, d);
      WithoutElements(so, k, c);
      WithoutElements(so, k, d);
    }
  }
}
