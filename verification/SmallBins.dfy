/** The 32 small bins with their bitmap: circular lists of free chunks of one size each. */
module SmallBins {
  import opened Words
  import opened BinMap
  import opened Lists
  import opened Rings

  type Sizes = map<Addr, nat>

  const NSMALLBINS: nat := 32

  /** `smallbin_at(M, i)`: the header that closes the list of bin `i`. */
  function Header(i: nat): Addr {
    -1 - i
  }

  /** `smallmap` and the link words of headers and small free chunks. */
  datatype SmallState = SmallState(marks: BinMap, nodes: Nodes)

  /** The chunks of each bin, in `fd` order from the header. */
  type BinLists = seq<seq<Addr>>

  ghost predicate BinOk(ss: SmallState, size: Sizes, ls: BinLists, i: int) {
    0 <= i < NSMALLBINS && |ls| == NSMALLBINS ==>
      && Header(i) in ss.nodes
      && (Marked(ss.marks, i) <==> ls[i] != [])
      && (ls[i] != [] ==> Cycle(ss.nodes, [Header(i)] + ls[i]))
      && NoRepeats(ls[i])
      && forall a | a in ls[i] :: 0 < a && a in ss.nodes && a in size && size[a] == 8 * i
  }

  /** Every bin holds only chunks of its own size and is marked exactly when it is nonempty. */
  ghost predicate Valid(ss: SmallState, size: Sizes, ls: BinLists) {
    && |ls| == NSMALLBINS
    && forall i {:trigger BinOk(ss, size, ls, i)} :: BinOk(ss, size, ls, i)
  }

  /** The chunks held in the small bins. */
  ghost function Held(ls: BinLists): set<Addr> {
    set i, a | 0 <= i < |ls| && a in ls[i] :: a
  }

  /** The words are valid lists that hold exactly the chunks `held`. */
  ghost predicate Holds(ss: SmallState, size: Sizes, held: set<Addr>) {
    exists ls {:trigger Valid(ss, size, ls)} :: Valid(ss, size, ls) && Held(ls) == held
  }

  lemma {:induction false} HeldBySize(ss: SmallState, size: Sizes, ls: BinLists, a: Addr)
    requires Valid(ss, size, ls) && a in Held(ls)
    ensures 0 < a && a in ss.nodes && a in size && size[a] < 256 && size[a] % 8 == 0
    ensures a in ls[size[a] / 8]
  {
    var i :| 0 <= i < |ls| && a in ls[i];
    assert BinOk(ss, size, ls, i);
  }

  /** The bins depend only on the sizes of held chunks. */
  lemma {:induction false} Frame(ss: SmallState, size: Sizes, size': Sizes, ls: BinLists)
    requires Valid(ss, size, ls)
    requires forall a | a in Held(ls) :: a in size && a in size' && size'[a] == size[a]
    ensures Valid(ss, size', ls)
  {
    forall i
      ensures BinOk(ss, size', ls, i)
    {
      assert BinOk(ss, size, ls, i);
      if 0 <= i < |ls| {
        forall a | a in ls[i] ensures a in Held(ls) {}
      }
    }
  }

  /** The bins depend only on the links of held chunks and of headers. */
  lemma {:induction false} NodesFrame(ss: SmallState, size: Sizes, ls: BinLists, nodes': Nodes)
    requires Valid(ss, size, ls)
    requires forall a | a in ss.nodes && (a in Held(ls) || a < 0) :: a in nodes' && nodes'[a] == ss.nodes[a]
    ensures Valid(ss.(nodes := nodes'), size, ls)
  {
    var ss' := ss.(nodes := nodes');
    forall i
      ensures BinOk(ss', size, ls, i)
    {
      assert BinOk(ss, size, ls, i);
      if 0 <= i < |ls| {
        var r := [Header(i)] + ls[i];
        forall a | a in ls[i] ensures a in Held(ls) && a in nodes' {}
        forall k | 0 <= k < |r|
          ensures r[k] in ss.nodes && r[k] in nodes' && nodes'[r[k]] == ss.nodes[r[k]]
        {
          if k > 0 { assert r[k] == ls[i][k - 1]; }
        }
        if ls[i] != [] { CycleFrame(ss.nodes, r, nodes'); }
      }
    }
  }

  /** `init_bins`. */
  method Init(ghost size: Sizes) returns (ss: SmallState, ghost ls: BinLists)
    ensures Valid(ss, size, ls) && Held(ls) == {}
    ensures Holds(ss, size, {})
  {
    var nodes: Nodes := map[];
    for i := 0 to NSMALLBINS
      invariant forall j: nat | j < i :: Header(j) in nodes
    {
      nodes := nodes[Header(i) := Node(Header(i), Header(i), 0, 0, 0, 0)];
    }
    ss := SmallState(0, nodes);
    ls := seq(NSMALLBINS, _ => []);
    NoMarks(0);
    forall i
      ensures BinOk(ss, size, ls, i)
    {
    }
  }

  /** Replacing the list of one bin, when the words of chunks and headers of other bins are kept. */
  lemma {:induction false} BinReplaced(ss: SmallState, size: Sizes, ls: BinLists, i: nat, x: Addr, ss': SmallState, l': seq<Addr>)
    requires Valid(ss, size, ls) && i < NSMALLBINS
    requires forall j: nat | j < NSMALLBINS && j != i :: (Marked(ss'.marks, j) <==> Marked(ss.marks, j)) && x !in ls[j]
    requires forall a | a in ss.nodes && a !in ls[i] && a != Header(i) && a != x :: a in ss'.nodes && ss'.nodes[a] == ss.nodes[a]
    requires BinOk(ss', size, ls[i := l'], i) && (x == 0 || 0 < x)
    ensures Valid(ss', size, ls[i := l'])
  {
    var ls' := ls[i := l'];
    forall j
      ensures BinOk(ss', size, ls', j)
    {
      if 0 <= j < NSMALLBINS && j != i {
        assert BinOk(ss, size, ls, j) && BinOk(ss, size, ls, i);
        var r := [Header(j)] + ls[j];
        forall k | 0 <= k < |r|
          ensures r[k] in ss.nodes && r[k] in ss'.nodes && ss'.nodes[r[k]] == ss.nodes[r[k]]
        {
          if k > 0 { assert r[k] == ls[j][k - 1]; }
        }
        assert r[0] == Header(j);
        forall a | a in ls[j] ensures a in ss'.nodes {
          var k :| 0 <= k < |ls[j]| && ls[j][k] == a;
          assert r[k + 1] == a;
        }
        if ls[j] != [] { CycleFrame(ss.nodes, r, ss'.nodes); }
      }
    }
  }

  lemma {:induction false} HeldAfter(ss: SmallState, size: Sizes, ls: BinLists, i: nat, l': seq<Addr>)
    requires Valid(ss, size, ls) && i < NSMALLBINS
    ensures forall a :: a in Held(ls[i := l']) <==> (a in Held(ls) && a !in ls[i]) || a in l'
  {
    var ls' := ls[i := l'];
    forall a
      ensures a in Held(ls') <==> (a in Held(ls) && a !in ls[i]) || a in l'
    {
      if a in l' { assert ls'[i] == l'; }
      if a in Held(ls) && a !in ls[i] {
        var j :| 0 <= j < |ls| && a in ls[j];
        assert ls'[j] == ls[j];
      }
      if a in Held(ls') && a !in l' {
        var j :| 0 <= j < |ls'| && a in ls'[j];
        assert BinOk(ss, size, ls, j) && BinOk(ss, size, ls, i);
      }
    }
  }

  /** `insert_small_chunk`: the chunk goes to the front of the list of its size. */
  method Insert(ss: SmallState, size: Sizes, p: Addr, s: nat, ghost ls: BinLists)
    returns (ss': SmallState, ghost ls': BinLists)
    requires Valid(ss, size, ls)
    requires 0 < p && p !in Held(ls) && p in size && size[p] == s && s < 256 && s % 8 == 0
    ensures Valid(ss', size, ls')
    ensures ls' == ls[s / 8 := [p] + ls[s / 8]]
    ensures Held(ls') == Held(ls) + {p}
    ensures Holds(ss', size, Held(ls) + {p})
    ensures forall a {:trigger SameWord(ss.nodes, ss'.nodes, a)} | 0 <= a && a !in Held(ls) && a != p :: SameWord(ss.nodes, ss'.nodes, a)
  {
    var i := s / 8;
    assert BinOk(ss, size, ls, i);
    var b := Header(i);
    var f := b;
    ghost var r := [b] + ls[i];
    var marks := ss.marks;
    if !Marked(marks, i) {
      marks := Mark(marks, i);
    } else {
      f := ss.nodes[b].fd;
      assert CycleAt(ss.nodes, r, 0);
      assert f == ls[i][0] && f in ls[i];
    }
    var nodes := ss.nodes[b := ss.nodes[b].(fd := p)];
    nodes := nodes[f := nodes[f].(bk := p)];
    nodes := nodes[p := Node(f, b, 0, 0, 0, 0)];
    ss' := SmallState(marks, nodes);
    ls' := ls[i := [p] + ls[i]];
    InsertedList(ss, size, ls, i, p, f, ss');
    forall j: nat | j < NSMALLBINS
      ensures Marked(ss'.marks, j) <==> j == i || Marked(ss.marks, j)
      ensures p !in ls[j]
    {
      MarkClear(ss.marks, i, j);
      assert p in ls[j] ==> p in Held(ls);
    }
    BinReplaced(ss, size, ls, i, p, ss', [p] + ls[i]);
    HeldAfter(ss, size, ls, i, [p] + ls[i]);
  }

  lemma {:induction false} InsertedList(ss: SmallState, size: Sizes, ls: BinLists, i: nat, p: Addr, f: Addr, ss': SmallState)
    requires Valid(ss, size, ls) && i < NSMALLBINS
    requires 0 < p && p !in Held(ls) && p in size && size[p] == 8 * i
    requires Header(i) in ss.nodes && f in ss.nodes
    requires if ls[i] == [] then f == Header(i) else f == ss.nodes[Header(i)].fd && f in ls[i]
    requires var nodes1 := ss.nodes[Header(i) := ss.nodes[Header(i)].(fd := p)];
             ss'.nodes == nodes1[f := nodes1[f].(bk := p)][p := Node(f, Header(i), 0, 0, 0, 0)]
    requires ss'.marks == if ls[i] == [] then Mark(ss.marks, i) else ss.marks
    ensures BinOk(ss', size, ls[i := [p] + ls[i]], i)
  {
    assert BinOk(ss, size, ls, i);
    var b, l := Header(i), [p] + ls[i];
    var r := [b] + ls[i];
    MarkClear(ss.marks, i, i);
    assert forall a | a in ls[i] :: a in Held(ls);
    if ls[i] != [] {
      var nodes1 := ss.nodes[b := ss.nodes[b].(fd := p)];
      CycleInsert(ss.nodes, r, p, f, Node(f, b, 0, 0, 0, 0), nodes1, ss'.nodes);
      assert Inserted(r, p) == [b] + l;
    } else {
      assert [b] + l == [b, p];
      assert forall k :: CycleAt(ss'.nodes, [b, p], k);
    }
  }

  /** `unlink_small_chunk`. */
  method Unlink(ss: SmallState, size: Sizes, p: Addr, s: nat, ghost ls: BinLists)
    returns (ss': SmallState, ghost ls': BinLists)
    requires Valid(ss, size, ls)
    requires p in Held(ls) && p in size && size[p] == s
    ensures Valid(ss', size, ls')
    ensures s / 8 < |ls| && ls' == ls[s / 8 := Minus(ls[s / 8], p)]
    ensures Held(ls') == Held(ls) - {p}
    ensures Holds(ss', size, Held(ls) - {p})
    ensures forall a {:trigger SameWord(ss.nodes, ss'.nodes, a)} | 0 <= a && a !in Held(ls) :: SameWord(ss.nodes, ss'.nodes, a)
  {
    HeldBySize(ss, size, ls, p);
    var i := s / 8;
    assert BinOk(ss, size, ls, i);
    ghost var n: nat :| n < |ls[i]| && ls[i][n] == p;
    ghost var r := [Header(i)] + ls[i];
    assert r[n + 1] == p && CycleAt(ss.nodes, r, n + 1);
    var f, b := ss.nodes[p].fd, ss.nodes[p].bk;
    NeighboursOf(ss, size, ls, i, n);
    if f == b {
      ss' := ss.(marks := Clear(ss.marks, i));
    } else {
      var nodes := ss.nodes[f := ss.nodes[f].(bk := b)];
      nodes := nodes[b := nodes[b].(fd := f)];
      ss' := ss.(nodes := nodes);
    }
    ghost var l' := ls[i][..n] + ls[i][n + 1..];
    ls' := ls[i := l'];
    RemovedList(ss, size, ls, i, n, ss');
    OthersStay(ss, size, ls, i, ss');
    BinReplaced(ss, size, ls, i, 0, ss', l');
    HeldWithout(ss, size, ls, i, n);
    ListMinus(ls[i], n);
  }

  lemma {:induction false} OthersStay(ss: SmallState, size: Sizes, ls: BinLists, i: nat, ss': SmallState)
    requires Valid(ss, size, ls) && i < NSMALLBINS && (ss'.marks == ss.marks || ss'.marks == Clear(ss.marks, i))
    ensures forall j: nat | j < NSMALLBINS && j != i :: (Marked(ss'.marks, j) <==> Marked(ss.marks, j)) && 0 !in ls[j]
  {
    forall j: nat | j < NSMALLBINS && j != i
      ensures (Marked(ss'.marks, j) <==> Marked(ss.marks, j)) && 0 !in ls[j]
    {
      MarkClear(ss.marks, i, j);
      assert BinOk(ss, size, ls, j);
    }
  }

  lemma {:induction false} ListMinus(l: seq<Addr>, n: nat)
    requires n < |l| && NoRepeats(l)
    ensures Minus(l, l[n]) == l[..n] + l[n + 1..]
  {
    MinusIs(l, n);
  }

  lemma {:induction false} HeldWithout(ss: SmallState, size: Sizes, ls: BinLists, i: nat, n: nat)
    requires Valid(ss, size, ls) && i < NSMALLBINS && n < |ls[i]|
    ensures Held(ls[i := ls[i][..n] + ls[i][n + 1..]]) == Held(ls) - {ls[i][n]}
  {
    assert BinOk(ss, size, ls, i);
    var l' := ls[i][..n] + ls[i][n + 1..];
    ListWithout(ls[i], n);
    HeldAfter(ss, size, ls, i, l');
    forall a
      ensures a in Held(ls[i := l']) <==> a in Held(ls) - {ls[i][n]}
    {
      assert a in ls[i] ==> a in Held(ls);
    }
  }

  lemma {:induction false} ListWithout(l: seq<Addr>, n: nat)
    requires n < |l| && NoRepeats(l)
    ensures NoRepeats(l[..n] + l[n + 1..])
    ensures forall a :: a in l[..n] + l[n + 1..] <==> a in l && a != l[n]
  {
    var l' := l[..n] + l[n + 1..];
    forall a | a in l && a != l[n]
      ensures a in l'
    {
      var k :| 0 <= k < |l| && l[k] == a;
      assert a == l'[if k < n then k else k - 1];
    }
  }

  /** The neighbours of the chunk at position `n`: both the header exactly when the chunk is alone. */
  lemma {:induction false} NeighboursOf(ss: SmallState, size: Sizes, ls: BinLists, i: nat, n: nat)
    requires Valid(ss, size, ls) && i < NSMALLBINS && n < |ls[i]| && ls[i][n] in ss.nodes
    ensures var p, l := ls[i][n], ls[i];
            && ss.nodes[p].fd == (if n + 1 == |l| then Header(i) else l[n + 1])
            && ss.nodes[p].bk == (if n == 0 then Header(i) else l[n - 1])
            && ss.nodes[p].fd in ss.nodes && ss.nodes[p].bk in ss.nodes
            && (ss.nodes[p].fd == ss.nodes[p].bk <==> |l| == 1)
  {
    assert BinOk(ss, size, ls, i);
    var l := ls[i];
    var r := [Header(i)] + l;
    assert r[n + 1] == l[n] && CycleAt(ss.nodes, r, n + 1);
    assert n + 1 < |l| ==> l[n + 1] in l;
    assert n > 0 ==> l[n - 1] in l;
  }

  lemma {:induction false} RemovedList(ss: SmallState, size: Sizes, ls: BinLists, i: nat, n: nat, ss': SmallState)
    requires Valid(ss, size, ls) && i < NSMALLBINS && n < |ls[i]| && ls[i][n] in ss.nodes
    requires var p := ls[i][n]; var f, b := ss.nodes[p].fd, ss.nodes[p].bk;
             && f in ss.nodes && b in ss.nodes
             && (if f == b then ss' == ss.(marks := Clear(ss.marks, i))
                 else var nodes1 := ss.nodes[f := ss.nodes[f].(bk := b)];
                      ss' == ss.(nodes := nodes1[b := nodes1[b].(fd := f)]))
    ensures BinOk(ss', size, ls[i := ls[i][..n] + ls[i][n + 1..]], i)
  {
    assert BinOk(ss, size, ls, i);
    NeighboursOf(ss, size, ls, i, n);
    ListWithout(ls[i], n);
    MarkClear(ss.marks, i, i);
    var l, p := ls[i], ls[i][n];
    var f, b, r := ss.nodes[p].fd, ss.nodes[p].bk, [Header(i)] + l;
    var l' := l[..n] + l[n + 1..];
    forall a | a in l'
      ensures 0 < a && a in ss'.nodes && a in size && size[a] == 8 * i
    {
      assert a in l;
    }
    if |l| > 1 {
      assert NoRepeats(r);
      assert r[n + 1] == p;
      CycleRemove(ss.nodes, r, n + 1, f, b, ss.nodes[f := ss.nodes[f].(bk := b)], ss'.nodes);
      assert Removed(r, n + 1) == [Header(i)] + l';
    } else {
      assert l' == [];
    }
  }

  /** `unlink_first_small_chunk` on a marked bin: the front chunk leaves. */
  method UnlinkFirst(ss: SmallState, size: Sizes, i: nat, ghost ls: BinLists)
    returns (p: Addr, ss': SmallState, ghost ls': BinLists)
    requires Valid(ss, size, ls) && i < NSMALLBINS && Marked(ss.marks, i)
    ensures p in Held(ls) && p in size && size[p] == 8 * i && ls[i] != [] && p == ls[i][0]
    ensures Valid(ss', size, ls') && ls' == ls[i := ls[i][1..]]
    ensures Held(ls') == Held(ls) - {p}
    ensures Holds(ss', size, Held(ls) - {p})
    ensures forall a {:trigger SameWord(ss.nodes, ss'.nodes, a)} | 0 <= a && a !in Held(ls) :: SameWord(ss.nodes, ss'.nodes, a)
  {
    assert BinOk(ss, size, ls, i);
    var b := Header(i);
    ghost var r := [b] + ls[i];
    assert CycleAt(ss.nodes, r, 0);
    p := ss.nodes[b].fd;
    assert r[1] == ls[i][0] == p && p in ls[i];
    assert p in Held(ls);
    ss', ls' := Unlink(ss, size, p, 8 * i, ls);
  }
}
