/** The linker's pool of library records, threaded on `solist` and `freelist`. */
module SoPool {
  import opened Lists

  /** The address of a library record: 1 is the static `libdl_info`, `k + 2` is `&sopool[k]`. */
  type Id = nat

  const NULL: Id := 0
  const LIBDL: Id := 1
  const SO_MAX: nat := 160

  /** `next` fields, `freelist`, `sonext` and `socount`; `solist` always is `&libdl_info`. */
  datatype Pool = Pool(next: map<Id, Id>, freelist: Id, sonext: Id, socount: nat)

  ghost predicate LinkAt(next: map<Id, Id>, s: seq<Id>, i: int) {
    0 <= i < |s| ==> s[i] in next && next[s[i]] == if i + 1 < |s| then s[i + 1] else NULL
  }

  /** The records `s` are threaded on `next` in this order. */
  ghost predicate Chain(next: map<Id, Id>, s: seq<Id>) {
    forall i {:trigger LinkAt(next, s, i)} :: LinkAt(next, s, i)
  }

  ghost predicate UsedAt(n: nat, so: seq<Id>, fl: seq<Id>, id: Id) {
    && (id in so || id in fl <==> id == LIBDL || 2 <= id < n + 2)
    && !(id in so && id in fl)
  }

  /** `so` and `fl` are the two lists: disjoint, covering the used part of the pool, `sonext` being the last of `so`. */
  ghost predicate Valid(p: Pool, so: seq<Id>, fl: seq<Id>) {
    && so != [] && so[0] == LIBDL && p.sonext == so[|so| - 1]
    && p.freelist == (if fl == [] then NULL else fl[0])
    && Chain(p.next, so) && Chain(p.next, fl) && NoRepeats(so) && NoRepeats(fl)
    && p.socount <= SO_MAX && |so| + |fl| == p.socount + 1
    && forall id {:trigger UsedAt(p.socount, so, fl, id)} :: UsedAt(p.socount, so, fl, id)
  }

  const EMPTY := Pool(map[LIBDL := NULL], NULL, LIBDL, 0)

  lemma {:induction false} EmptyValid()
    ensures Valid(EMPTY, [LIBDL], [])
  {
    forall id: Id
      ensures UsedAt(0, [LIBDL], [], id)
    {
    }
  }

  /** With nothing on the free list, the next unused record of the pool goes there. */
  method Refill(p: Pool, ghost so: seq<Id>, ghost fl: seq<Id>) returns (p': Pool, ghost fl': seq<Id>)
    requires Valid(p, so, fl) && p.freelist == NULL && p.socount < SO_MAX
    ensures Valid(p', so, fl') && p'.freelist != NULL && fl == [] && fl' == [p.socount + 2] && p'.socount == p.socount + 1
  {
    FreelistEmpty(p, so, fl);
    var e := p.socount + 2;
    p' := Pool(p.next[e := NULL], e, p.sonext, p.socount + 1);
    fl' := [e];
    assert UsedAt(p.socount, so, fl, e);
    var n := p.socount + 1;
    forall id: Id
      ensures UsedAt(n, so, fl', id)
    {
      assert UsedAt(p.socount, so, fl, id);
    }
    forall i
      ensures LinkAt(p'.next, so, i)
    {
      assert LinkAt(p.next, so, i);
      assert 0 <= i < |so| ==> so[i] in so;
    }
  }

  lemma {:induction false} FreelistEmpty(p: Pool, so: seq<Id>, fl: seq<Id>)
    requires Valid(p, so, fl)
    ensures p.freelist == NULL <==> fl == []
  {
    if fl != [] {
      assert fl[0] in fl;
      assert UsedAt(p.socount, so, fl, fl[0]);
    }
  }

  /** The list part of `alloc_info`: the first free record moves to the end of `solist`. */
  method Alloc(p: Pool, ghost so: seq<Id>, ghost fl: seq<Id>) returns (si: Id, p': Pool, ghost fl': seq<Id>)
    requires Valid(p, so, fl)
    ensures si == NULL <==> |so| == SO_MAX + 1
    ensures si == NULL ==> p' == p && fl' == fl
    ensures si != NULL ==> si !in so && si != LIBDL && Valid(p', so + [si], fl')
    ensures fl != [] ==> si == fl[0] && fl' == fl[1..] && p'.socount == p.socount
    ensures fl == [] && si != NULL ==> si == p.socount + 2 && fl' == [] && p'.socount == p.socount + 1
  {
    p', fl' := p, fl;
    FreelistEmpty(p, so, fl);
    if p'.freelist == NULL {
      if p'.socount == SO_MAX {
        return NULL, p, fl;
      }
      p', fl' := Refill(p, so, fl);
      FreelistEmpty(p', so, fl');
    }
    si := p'.freelist;
    assert fl'[0] in fl' && UsedAt(p'.socount, so, fl', si);
    assert LinkAt(p'.next, fl', 0);
    assert so[0] in so;
    ghost var q, gl := p', fl';
    p' := p'.(freelist := p'.next[si]);
    p' := p'.(next := p'.next[p'.sonext := si][si := NULL], sonext := si);
    fl' := fl'[1..];
    MoveChains(q.socount, q.next, so, gl, p'.next);
    MoveUsed(q.socount, so, gl);
  }

  lemma {:induction false} MoveChains(n: nat, next: map<Id, Id>, so: seq<Id>, fl: seq<Id>, next': map<Id, Id>)
    requires Chain(next, so) && Chain(next, fl) && NoRepeats(so) && NoRepeats(fl) && so != [] && fl != []
    requires forall id {:trigger UsedAt(n, so, fl, id)} :: UsedAt(n, so, fl, id)
    requires next' == next[so[|so| - 1] := fl[0]][fl[0] := NULL]
    ensures Chain(next', so + [fl[0]]) && Chain(next', fl[1..])
    ensures NoRepeats(so + [fl[0]]) && NoRepeats(fl[1..])
  {
    var so', fl' := so + [fl[0]], fl[1..];
    assert fl[0] in fl && so[|so| - 1] in so;
    assert UsedAt(n, so, fl, fl[0]) && UsedAt(n, so, fl, so[|so| - 1]);
    forall i
      ensures LinkAt(next', so', i)
    {
      assert LinkAt(next, so, i);
      assert 0 <= i < |so| ==> so[i] in so;
    }
    forall i
      ensures LinkAt(next', fl', i)
    {
      assert LinkAt(next, fl, i + 1);
      assert 0 <= i < |fl'| ==> fl'[i] == fl[i + 1] && fl[i + 1] in fl;
    }
  }

  lemma {:induction false} MoveUsed(n: nat, so: seq<Id>, fl: seq<Id>)
    requires fl != [] && NoRepeats(fl)
    requires forall id {:trigger UsedAt(n, so, fl, id)} :: UsedAt(n, so, fl, id)
    ensures var so', fl' := so + [fl[0]], fl[1..];
            forall id {:trigger UsedAt(n, so', fl', id)} :: UsedAt(n, so', fl', id)
  {
    var so', fl' := so + [fl[0]], fl[1..];
    forall id: Id
      ensures UsedAt(n, so', fl', id)
    {
      assert UsedAt(n, so, fl, id);
      if id in fl && id != fl[0] {
        var j :| 0 <= j < |fl| && fl[j] == id;
        assert fl'[j - 1] == id;
      }
    }
  }

  /** `free_info`: the record is unlinked from `solist` and put first on the free list. */
  method Free(p: Pool, si: Id, ghost so: seq<Id>, ghost fl: seq<Id>)
    returns (p': Pool, ghost k: nat, ghost fl': seq<Id>)
    requires Valid(p, so, fl) && si in so && si != LIBDL
    ensures 0 < k < |so| && so[k] == si && Valid(p', Without(so, k), fl')
    ensures fl' == [si] + fl && p'.socount == p.socount
  {
    var prev, trav := NULL, LIBDL;
    k := 0;
    while trav != si
      invariant k < |so| && trav == so[k] && si !in so[..k]
      invariant (k == 0 ==> trav == LIBDL) && (k > 0 ==> prev == so[k - 1])
      decreases |so| - k
    {
      assert LinkAt(p.next, so, k);
      assert so[..k + 1] == so[..k] + [so[k]];
      StillAhead(so, k, si);
      prev, trav := trav, p.next[trav];
      k := k + 1;
    }
    assert LinkAt(p.next, so, k) && LinkAt(p.next, so, k - 1);
    p' := p.(next := p.next[prev := p.next[si]]);
    if si == p'.sonext {
      p' := p'.(sonext := prev);
    }
    p' := p'.(next := p'.next[si := p'.freelist], freelist := si);
    fl' := [si] + fl;
    LastOnly(so, k);
    assert si in so && UsedAt(p.socount, so, fl, si);
    BackChains(p.socount, p.next, so, fl, k, p'.next, p.freelist);
    BackUsed(p.socount, so, fl, k);
  }

  lemma {:induction false} StillAhead(so: seq<Id>, k: nat, si: Id)
    requires k < |so| && si in so && si !in so[..k] && so[k] != si
    ensures k + 1 < |so| && si !in so[..k + 1]
  {
    assert forall i | 0 <= i < k :: so[i] in so[..k];
    var j :| 0 <= j < |so| && so[j] == si;
  }

  lemma {:induction false} LastOnly(so: seq<Id>, k: nat)
    requires NoRepeats(so) && k < |so|
    ensures so[k] == so[|so| - 1] <==> k == |so| - 1
  {
  }

  lemma {:induction false} BackChains(n: nat, next: map<Id, Id>, so: seq<Id>, fl: seq<Id>, k: nat, next': map<Id, Id>, free: Id)
    requires Chain(next, so) && Chain(next, fl) && NoRepeats(so) && NoRepeats(fl) && 0 < k < |so|
    requires forall id {:trigger UsedAt(n, so, fl, id)} :: UsedAt(n, so, fl, id)
    requires free == (if fl == [] then NULL else fl[0]) && so[k] in next
    requires next' == next[so[k - 1] := next[so[k]]][so[k] := free]
    ensures Chain(next', Without(so, k)) && Chain(next', [so[k]] + fl)
    ensures NoRepeats(Without(so, k)) && NoRepeats([so[k]] + fl)
  {
    var so', fl' := Without(so, k), [so[k]] + fl;
    assert so[k] in so && so[k - 1] in so;
    assert UsedAt(n, so, fl, so[k]) && UsedAt(n, so, fl, so[k - 1]);
    assert LinkAt(next, so, k);
    forall i
      ensures LinkAt(next', so', i)
    {
      assert LinkAt(next, so, i) && LinkAt(next, so, i + 1);
    }
    forall i
      ensures LinkAt(next', fl', i)
    {
      assert LinkAt(next, fl, i - 1);
      assert 0 < i < |fl'| ==> fl'[i] == fl[i - 1] && fl[i - 1] in fl;
    }
    forall i, j | 0 <= i < j < |fl'|
      ensures fl'[i] != fl'[j]
    {
      assert fl'[j] == fl[j - 1] && fl[j - 1] in fl;
    }
  }

  lemma {:induction false} BackUsed(n: nat, so: seq<Id>, fl: seq<Id>, k: nat)
    requires k < |so| && NoRepeats(so)
    requires forall id {:trigger UsedAt(n, so, fl, id)} :: UsedAt(n, so, fl, id)
    ensures var so', fl' := Without(so, k), [so[k]] + fl;
            forall id {:trigger UsedAt(n, so', fl', id)} :: UsedAt(n, so', fl', id)
  {
    var so', fl' := Without(so, k), [so[k]] + fl;
    forall id: Id
      ensures UsedAt(n, so', fl', id)
    {
      assert UsedAt(n, so, fl, id) && so[k] in so;
      WithoutElements(so, k, id);
    }
  }
}
