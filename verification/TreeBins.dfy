/** The 32 tree bins with their bitmap: `insert_large_chunk`, `unlink_large_chunk` and the best-fit searches. */
module TreeBins {
  import opened Words
  import opened Digits
  import opened BinIndex
  import opened BinMap
  import opened Lists
  import opened Rings
  import Trie
  import TrieSearch

  type Sizes = Trie.Sizes

  /** `treebins`, `treemap` and the link words of the tree chunks. */
  datatype TreeState = TreeState(root: seq<Addr>, marks: BinMap, nodes: Nodes)

  type Views = seq<Trie.View>

  ghost predicate BinOk(ts: TreeState, size: Sizes, vs: Views, i: int) {
    0 <= i < NTREEBINS && |ts.root| == NTREEBINS && |vs| == NTREEBINS ==>
      && Trie.Valid(ts.nodes, size, i, ts.root[i], vs[i])
      && (Marked(ts.marks, i) <==> ts.root[i] != 0)
  }

  /** Every bin is a valid trie and is marked exactly when it is nonempty. */
  ghost predicate Valid(ts: TreeState, size: Sizes, vs: Views) {
    && |ts.root| == NTREEBINS && |vs| == NTREEBINS
    && forall i {:trigger BinOk(ts, size, vs, i)} :: BinOk(ts, size, vs, i)
  }

  /** The chunks held in the tree bins. */
  ghost function Held(vs: Views): set<Addr> {
    set i, a | 0 <= i < |vs| && a in vs[i].at :: a
  }

  /** The words are valid tries that hold exactly the chunks `held`. */
  ghost predicate Holds(ts: TreeState, size: Sizes, held: set<Addr>) {
    exists vs {:trigger Valid(ts, size, vs)} :: Valid(ts, size, vs) && Held(vs) == held
  }

  /** A held chunk is in the bin of its size, and in no other. */
  lemma {:induction false} HeldBySize(ts: TreeState, size: Sizes, vs: Views, i: nat, a: Addr)
    requires Valid(ts, size, vs) && i < NTREEBINS && a in vs[i].at
    ensures a in size && 0 < a && 256 <= size[a] < WORD && size[a] % 8 == 0 && i == TreeIndex(size[a])
    ensures a in ts.nodes && InBin(i, size[a])
  {
    assert BinOk(ts, size, vs, i);
    assert vs[i].at[a] in vs[i].ring;
    LargeSizes(i);
    TreeIndexUnique(i, size[a]);
  }

  lemma {:induction false} LargeSizes(i: nat)
    ensures MinSize(i) >= 256
  {
    MinSizeSteps(0);
    assert Pow2(7) == 128 by { Pow2Table(); }
    if i > 0 { MinSizeMonotone(0, i); }
  }

  lemma {:induction false} HeldIn(ts: TreeState, size: Sizes, vs: Views, a: Addr)
    requires Valid(ts, size, vs) && a in Held(vs)
    ensures a in size && 256 <= size[a] < WORD && size[a] % 8 == 0 && 0 < a && a in ts.nodes
    ensures TreeIndex(size[a]) < NTREEBINS && a in vs[TreeIndex(size[a])].at
  {
    var i :| 0 <= i < |vs| && a in vs[i].at;
    HeldBySize(ts, size, vs, i, a);
  }

  /** The held chunks of the size of `a`, oldest first. */
  ghost function Line(size: Sizes, vs: Views, a: Addr): seq<Addr> {
    if a in size && size[a] < WORD && TreeIndex(size[a]) < |vs| then Trie.Line(vs[TreeIndex(size[a])], a) else []
  }

  /** The chunk is the first in line for its size. */
  ghost predicate Oldest(size: Sizes, vs: Views, a: Addr) {
    Line(size, vs, a) != [] && Line(size, vs, a)[0] == a
  }

  /** The newcomer `x` is last in the line of its size; the other lines are as before. */
  ghost predicate JoinedAt(size: Sizes, vs: Views, vs': Views, x: Addr, a: Addr) {
    a in Held(vs) && a in size && x in size ==>
      Line(size, vs', a) == if size[a] == size[x] then Line(size, vs, a) + [x] else Line(size, vs, a)
  }

  ghost predicate Joined(size: Sizes, vs: Views, vs': Views, x: Addr) {
    && (forall a {:trigger JoinedAt(size, vs, vs', x, a)} :: JoinedAt(size, vs, vs', x, a))
    && x in size && ((forall a | a in Held(vs) :: a in size && size[a] != size[x]) ==> Line(size, vs', x) == [x])
  }

  /** `x` has left its line, where the others keep their order; the other lines are as before. */
  ghost predicate LeftAt(size: Sizes, vs: Views, vs': Views, x: Addr, a: Addr) {
    a in Held(vs) && a != x ==> Line(size, vs', a) == if a in Line(size, vs, x) then Minus(Line(size, vs, x), x) else Line(size, vs, a)
  }

  ghost predicate Left(size: Sizes, vs: Views, vs': Views, x: Addr) {
    forall a {:trigger LeftAt(size, vs, vs', x, a)} :: LeftAt(size, vs, vs', x, a)
  }

  /** Lines are kept bin by bin. */
  lemma {:induction false} BinJoined(ts: TreeState, size: Sizes, vs: Views, i: nat, x: Addr, v': Trie.View)
    requires Valid(ts, size, vs) && x in size && size[x] < WORD && i == TreeIndex(size[x]) < NTREEBINS
    requires Trie.Joined(size, vs[i], v', x)
    ensures Joined(size, vs, vs[i := v'], x)
  {
    var vs' := vs[i := v'];
    forall a
      ensures JoinedAt(size, vs, vs', x, a)
    {
      if a in Held(vs) {
        HeldIn(ts, size, vs, a);
        assert Trie.JoinedAt(size, vs[i], v', x, a);
      }
    }
    assert forall a | a in vs[i].at :: a in Held(vs);
  }

  lemma {:induction false} BinLeft(ts: TreeState, size: Sizes, vs: Views, i: nat, x: Addr, v': Trie.View)
    requires Valid(ts, size, vs) && i < NTREEBINS && x in vs[i].at && Trie.Left(vs[i], v', x)
    ensures Left(size, vs, vs[i := v'], x)
  {
    var vs' := vs[i := v'];
    HeldBySize(ts, size, vs, i, x);
    forall a
      ensures LeftAt(size, vs, vs', x, a)
    {
      if a in Held(vs) && a != x {
        HeldIn(ts, size, vs, a);
        assert BinOk(ts, size, vs, i);
        if a in vs[i].at {
          HeldBySize(ts, size, vs, i, a);
          assert Trie.LeftAt(vs[i], v', x, a);
        } else {
          OutOfLine(vs[i], x, a);
        }
      }
    }
  }

  lemma {:induction false} OutOfLine(v: Trie.View, x: Addr, a: Addr)
    requires Trie.Shape(v) && x in v.at && a !in v.at
    ensures a !in Trie.Line(v, x)
  {
    AgesElements(v.ring[v.at[x]], a);
    Trie.RingMembers(v, v.at[x], a);
  }

  lemma {:induction false} NodeOldest(ts: TreeState, size: Sizes, vs: Views, i: nat, a: Addr)
    requires Valid(ts, size, vs) && i < NTREEBINS && Trie.IsNode(vs[i], a)
    ensures Oldest(size, vs, a)
  {
    HeldBySize(ts, size, vs, i, a);
    assert BinOk(ts, size, vs, i);
    Trie.NodeIsOldest(vs[i], a);
  }

  ghost function IndexOf(size: Sizes, a: Addr): nat
    requires a in size && size[a] < WORD
  {
    TreeIndex(size[a])
  }

  /** The bins depend only on the words and sizes of held chunks. */
  lemma {:induction false} Frame(ts: TreeState, size: Sizes, size': Sizes, vs: Views)
    requires Valid(ts, size, vs)
    requires forall a | a in Held(vs) :: a in size && a in size' && size'[a] == size[a]
    ensures Valid(ts, size', vs)
  {
    forall i
      ensures BinOk(ts, size', vs, i)
    {
      assert BinOk(ts, size, vs, i);
      if 0 <= i < NTREEBINS {
        forall a | a in vs[i].at
          ensures a in ts.nodes && a in Held(vs)
        {
          HeldBySize(ts, size, vs, i, a);
        }
        Trie.Frame(ts.nodes, ts.nodes, size, size', i, ts.root[i], vs[i]);
      }
    }
  }

  lemma {:induction false} NodesFrame(ts: TreeState, size: Sizes, vs: Views, nodes': Nodes)
    requires Valid(ts, size, vs)
    requires forall a | a in ts.nodes && a in Held(vs) :: a in nodes' && nodes'[a] == ts.nodes[a]
    ensures Valid(ts.(nodes := nodes'), size, vs)
  {
    var ts' := ts.(nodes := nodes');
    forall i
      ensures BinOk(ts', size, vs, i)
    {
      assert BinOk(ts, size, vs, i);
      if 0 <= i < NTREEBINS {
        forall a | a in vs[i].at
          ensures a in ts.nodes && a in Held(vs) && a in size
        {
          HeldBySize(ts, size, vs, i, a);
        }
        Trie.Frame(ts.nodes, nodes', size, size, i, ts.root[i], vs[i]);
      }
    }
  }

  const NONE: seq<Addr> := seq(NTREEBINS, _ => 0)

  const NO_VIEWS: Views := seq(NTREEBINS, _ => Trie.Empty)

  lemma {:induction false} InitialValid(size: Sizes)
    ensures Valid(TreeState(NONE, 0, map[]), size, NO_VIEWS)
    ensures Held(NO_VIEWS) == {}
  {
    var vs := NO_VIEWS;
    forall i
      ensures BinOk(TreeState(NONE, 0, map[]), size, vs, i)
    {
      NoMarks(0);
    }
  }

  /** Replacing one bin, when the words of chunks outside it (and other than `x`) are kept. */
  lemma {:induction false} BinReplaced(ts: TreeState, size: Sizes, vs: Views, i: nat, x: Addr, ts': TreeState, v': Trie.View)
    requires Valid(ts, size, vs) && i < NTREEBINS && |ts'.root| == NTREEBINS
    requires forall j | 0 <= j < NTREEBINS && j != i :: ts'.root[j] == ts.root[j] && x !in vs[j].at
    requires forall j: nat | j < NTREEBINS && j != i :: Marked(ts'.marks, j) <==> Marked(ts.marks, j)
    requires Marked(ts'.marks, i) <==> ts'.root[i] != 0
    requires Trie.Valid(ts'.nodes, size, i, ts'.root[i], v')
    requires forall a | a in ts.nodes && a !in vs[i].at && a != x :: a in ts'.nodes && ts'.nodes[a] == ts.nodes[a]
    ensures Valid(ts', size, vs[i := v'])
  {
    var vs' := vs[i := v'];
    forall j
      ensures BinOk(ts', size, vs', j)
    {
      assert BinOk(ts, size, vs, j);
      if 0 <= j < NTREEBINS && j != i {
        forall a | a in vs[j].at
          ensures a in ts.nodes && a in ts'.nodes && ts'.nodes[a] == ts.nodes[a] && a in size
        {
          HeldBySize(ts, size, vs, j, a);
          if a in vs[i].at { HeldBySize(ts, size, vs, i, a); }
        }
        Trie.Frame(ts.nodes, ts'.nodes, size, size, j, ts.root[j], vs[j]);
      }
    }
  }

  lemma {:induction false} HeldAfter(ts: TreeState, size: Sizes, vs: Views, i: nat, v': Trie.View)
    requires Valid(ts, size, vs) && i < NTREEBINS
    ensures Held(vs[i := v']) == (Held(vs) - vs[i].at.Keys) + v'.at.Keys
  {
    var vs' := vs[i := v'];
    forall a | a in (Held(vs) - vs[i].at.Keys) + v'.at.Keys
      ensures a in Held(vs')
    {
      if a in v'.at {
        assert vs'[i] == v';
      } else {
        var j :| 0 <= j < |vs| && a in vs[j].at;
        assert vs'[j] == vs[j];
      }
    }
    forall a | a in Held(vs')
      ensures a in (Held(vs) - vs[i].at.Keys) + v'.at.Keys
    {
      var j :| 0 <= j < |vs'| && a in vs'[j].at;
      if j != i {
        HeldBySize(ts, size, vs, j, a);
        if a in vs[i].at { HeldBySize(ts, size, vs, i, a); }
      }
    }
  }

  /** What one bin's trie leaves alone, all bins' words outside the held chunks do. */
  lemma {:induction false} OutsideKept(vs: Views, i: nat, x: Addr, nodes: Nodes, nodes': Nodes)
    requires i < |vs| && (nodes'.Keys == nodes.Keys || nodes'.Keys == nodes.Keys + {x})
    requires forall a | a in nodes && a !in vs[i].at && a != x :: a in nodes' && nodes'[a] == nodes[a]
    ensures forall a {:trigger SameWord(nodes, nodes', a)} | a !in Held(vs) && a != x :: SameWord(nodes, nodes', a)
  {
    forall a | a !in Held(vs) && a != x
      ensures SameWord(nodes, nodes', a)
    {
      assert a in vs[i].at ==> a in Held(vs);
      assert a in nodes' ==> a in nodes'.Keys;
    }
  }

  /** `insert_large_chunk`. */
  method Insert(ts: TreeState, size: Sizes, x: Addr, s: nat, ghost vs: Views)
    returns (ts': TreeState, ghost vs': Views)
    requires Valid(ts, size, vs)
    requires 0 < x && x !in Held(vs) && x in size && size[x] == s && 256 <= s < WORD && s % 8 == 0
    ensures Valid(ts', size, vs')
    ensures Held(vs') == Held(vs) + {x} && Joined(size, vs, vs', x)
    ensures Holds(ts', size, Held(vs) + {x})
    ensures forall a {:trigger SameWord(ts.nodes, ts'.nodes, a)} | a !in Held(vs) && a != x :: SameWord(ts.nodes, ts'.nodes, a)
  {
    var i := TreeIndex(s);
    TreeIndexBrackets(s);
    assert BinOk(ts, size, vs, i);
    ghost var v';
    if !Marked(ts.marks, i) {
      ts' := TreeState(ts.root[i := x], Mark(ts.marks, i), ts.nodes[x := Node(x, x, 0, 0, Trie.Slot(i), i)]);
      v' := Trie.View(map[Root := [x]], map[x := Root]);
      SoleRootValid(ts.nodes, size, i, x);
      forall j: nat | j < NTREEBINS
        ensures Marked(ts'.marks, j) <==> j == i || Marked(ts.marks, j)
      {
        MarkClear(ts.marks, i, j);
      }
    } else {
      var nodes';
      nodes', v' := Trie.InsertBelow(ts.nodes, size, i, ts.root[i], x, s, vs[i]);
      ts' := ts.(nodes := nodes');
    }
    vs' := vs[i := v'];
    if ts.root[i] == 0 { EmptyBin(ts, size, vs, i); SoleRootJoined(size, vs[i], x); }
    BinReplaced(ts, size, vs, i, x, ts', v');
    Arrived(ts, size, vs, i, x, ts', v');
  }

  /** What follows for all bins once `x` is in its own. */
  lemma {:induction false} Arrived(ts: TreeState, size: Sizes, vs: Views, i: nat, x: Addr, ts': TreeState, v': Trie.View)
    requires Valid(ts, size, vs) && x in size && size[x] < WORD && i == TreeIndex(size[x]) < NTREEBINS && Valid(ts', size, vs[i := v'])
    requires v'.at.Keys == vs[i].at.Keys + {x} && Trie.Joined(size, vs[i], v', x) && ts'.nodes.Keys == ts.nodes.Keys + {x}
    requires forall a | a in ts.nodes && a !in vs[i].at && a != x :: a in ts'.nodes && ts'.nodes[a] == ts.nodes[a]
    ensures Held(vs[i := v']) == Held(vs) + {x} && Joined(size, vs, vs[i := v'], x) && Holds(ts', size, Held(vs) + {x})
    ensures forall a {:trigger SameWord(ts.nodes, ts'.nodes, a)} | a !in Held(vs) && a != x :: SameWord(ts.nodes, ts'.nodes, a)
  {
    assert forall a | a in vs[i].at :: a in Held(vs);
    OutsideKept(vs, i, x, ts.nodes, ts'.nodes);
    HeldAfter(ts, size, vs, i, v');
    BinJoined(ts, size, vs, i, x, v');
    HoldsBy(ts', size, vs[i := v'], Held(vs) + {x});
  }

  lemma {:induction false} HoldsBy(ts: TreeState, size: Sizes, vs: Views, held: set<Addr>)
    requires Valid(ts, size, vs) && Held(vs) == held
    ensures Holds(ts, size, held)
  {
  }

  lemma {:induction false} EmptyBin(ts: TreeState, size: Sizes, vs: Views, i: nat)
    requires Valid(ts, size, vs) && i < NTREEBINS && ts.root[i] == 0
    ensures vs[i].at == map[]
  {
    assert BinOk(ts, size, vs, i);
    var v := vs[i];
    forall a | a in v.at
      ensures false
    {
      UnderRoot(v.at[a]);
      Trie.AncestorsPresent(v, v.at[a], Root);
      Trie.HeadFacts(size, i, v, Root);
    }
  }

  lemma {:induction false} SoleRootValid(nodes: Nodes, size: Sizes, i: nat, x: Addr)
    requires 0 < x && x in size && InBin(i, size[x]) && size[x] % 8 == 0
    ensures Trie.Valid(nodes[x := Node(x, x, 0, 0, Trie.Slot(i), i)], size, i, x, Trie.View(map[Root := [x]], map[x := Root]))
  {
    var v := Trie.View(map[Root := [x]], map[x := Root]);
    var nodes' := nodes[x := Node(x, x, 0, 0, Trie.Slot(i), i)];
    UnderRoot(Key(i, size[x]));
    assert forall k :: RingAt(nodes', i, [x], k);
    assert forall p :: Trie.PathOk(nodes', i, v, p);
  }

  lemma {:induction false} SoleRootJoined(size: Sizes, v: Trie.View, x: Addr)
    requires v.at == map[] && x in size
    ensures Trie.Joined(size, v, Trie.View(map[Root := [x]], map[x := Root]), x)
  {
    var v' := Trie.View(map[Root := [x]], map[x := Root]);
    assert Ages([x]) == [x];
    assert forall a :: Trie.JoinedAt(size, v, v', x, a);
  }

  /** `unlink_large_chunk`. */
  method Unlink(ts: TreeState, size: Sizes, x: Addr, ghost vs: Views)
    returns (ts': TreeState, ghost vs': Views)
    requires Valid(ts, size, vs) && x in Held(vs) && x in ts.nodes
    ensures Valid(ts', size, vs')
    ensures Held(vs') == Held(vs) - {x} && Left(size, vs, vs', x)
    ensures Holds(ts', size, Held(vs) - {x})
    ensures forall a {:trigger SameWord(ts.nodes, ts'.nodes, a)} | a !in Held(vs) :: SameWord(ts.nodes, ts'.nodes, a)
  {
    HeldIn(ts, size, vs, x);
    var i := ts.nodes[x].index;
    IndexWord(ts, size, vs, TreeIndex(size[x]), x);
    assert BinOk(ts, size, vs, i);
    var nodes', root';
    ghost var v';
    nodes', root', v' := Trie.Unlink(ts.nodes, size, i, ts.root[i], x, vs[i]);
    ts' := TreeState(ts.root[i := root'], if root' == 0 then Clear(ts.marks, i) else ts.marks, nodes');
    forall j: nat | j < NTREEBINS
      ensures Marked(ts'.marks, j) <==> (if j == i then root' != 0 else Marked(ts.marks, j))
    {
      MarkClear(ts.marks, i, j);
      if ts.root[i] == 0 { EmptyBin(ts, size, vs, i); }
    }
    forall j | 0 <= j < NTREEBINS && j != i
      ensures x !in vs[j].at
    {
      if x in vs[j].at { HeldBySize(ts, size, vs, j, x); }
    }
    vs' := vs[i := v'];
    OutsideKept(vs, i, x, ts.nodes, ts'.nodes);
    BinReplaced(ts, size, vs, i, x, ts', v');
    HeldAfter(ts, size, vs, i, v');
    BinLeft(ts, size, vs, i, x, v');
  }

  lemma {:induction false} IndexWord(ts: TreeState, size: Sizes, vs: Views, i: nat, x: Addr)
    requires Valid(ts, size, vs) && i < NTREEBINS && x in vs[i].at && x in ts.nodes
    ensures ts.nodes[x].index == i
  {
    assert BinOk(ts, size, vs, i);
    var v := vs[i];
    var p := v.at[x];
    var k :| 0 <= k < |v.ring[p]| && v.ring[p][k] == x;
    assert Trie.PathOk(ts.nodes, i, v, p);
    assert RingAt(ts.nodes, i, v.ring[p], k);
  }

  /** A path never exceeds the number of digits that distinguish the sizes of its bin. */
  lemma {:induction false} DepthBound(ts: TreeState, size: Sizes, vs: Views, i: nat, a: Addr)
    requires Valid(ts, size, vs) && i < NTREEBINS && a in vs[i].at
    ensures Depth(vs[i].at[a]) <= KeyLen(i) <= 29
  {
    assert BinOk(ts, size, vs, i);
    Trie.HeadFacts(size, i, vs[i], vs[i].at[a]);
  }

  // ---- Searching ----

  /** `best` is a smallest held chunk that can serve `nb`, with `rsize` to spare; 0 if no held chunk can. */
  ghost predicate BestFit(size: Sizes, vs: Views, nb: nat, best: Addr, rsize: nat)
    requires forall a | a in Held(vs) :: a in size
  {
    && (best == 0 ==> forall a | a in Held(vs) :: size[a] < nb)
    && (best != 0 ==> best in Held(vs) && size[best] == nb + rsize
                      && forall a | a in Held(vs) :: size[a] < nb || size[best] <= size[a])
  }

  lemma {:induction false} AllSized(ts: TreeState, size: Sizes, vs: Views)
    requires Valid(ts, size, vs)
    ensures forall a | a in Held(vs) :: a in size
  {
    forall a | a in Held(vs) ensures a in size { HeldIn(ts, size, vs, a); }
  }

  /** Chunks of bins below the bin of `nb` are too small; chunks of bins above it fit, and fit worse than chunks of its own bin. */
  lemma {:induction false} OtherBins(ts: TreeState, size: Sizes, vs: Views, i: nat, nb: nat, j: nat, a: Addr)
    requires Valid(ts, size, vs) && InBin(i, nb) && j < NTREEBINS && a in vs[j].at
    ensures a in size && (j < i ==> size[a] < nb) && (i < j ==> nb < size[a])
    ensures forall b | i < j && b in vs[i].at :: b in size && size[b] < size[a]
  {
    HeldBySize(ts, size, vs, j, a);
    if j < i { BinOrder(j, i, size[a], nb); }
    if i < j { BinOrder(i, j, nb, size[a]); }
    forall b | i < j && b in vs[i].at
      ensures b in size && size[b] < size[a]
    {
      HeldBySize(ts, size, vs, i, b);
      BinOrder(i, j, size[b], size[a]);
    }
  }

  /** A best fit found in the bin of `nb` itself is a best fit overall. */
  lemma {:induction false} OwnBinWins(ts: TreeState, size: Sizes, vs: Views, i: nat, nb: nat, best: Addr, rsize: nat)
    requires Valid(ts, size, vs) && InBin(i, nb) && (forall a | a in Held(vs) :: a in size)
    requires best in vs[i].at && best != 0 && best in size && size[best] == nb + rsize
    requires forall a | a in vs[i].at :: a in size && (size[a] < nb || nb + rsize <= size[a])
    ensures BestFit(size, vs, nb, best, rsize)
  {
    forall a | a in Held(vs)
      ensures size[a] < nb || size[best] <= size[a]
    {
      var j :| 0 <= j < |vs| && a in vs[j].at;
      OtherBins(ts, size, vs, i, nb, j, a);
    }
  }

  /** With nothing usable in the bin of `nb`, a smallest chunk of the next nonempty bin is a best fit. */
  lemma {:induction false} NextBinWins(ts: TreeState, size: Sizes, vs: Views, i: nat, nb: nat, k: nat, best: Addr, rsize: nat)
    requires Valid(ts, size, vs) && InBin(i, nb) && i < k < NTREEBINS && (forall a | a in Held(vs) :: a in size)
    requires forall a | a in vs[i].at :: a in size && size[a] < nb
    requires forall j: nat | i < j < k :: !Marked(ts.marks, j)
    requires best in vs[k].at && best != 0 && best in size && size[best] == nb + rsize
    requires forall a | a in vs[k].at :: a in size && nb + rsize <= size[a]
    ensures BestFit(size, vs, nb, best, rsize)
  {
    HeldBySize(ts, size, vs, k, best);
    forall a | a in Held(vs)
      ensures size[a] < nb || size[best] <= size[a]
    {
      var j :| 0 <= j < |vs| && a in vs[j].at;
      InOtherBin(ts, size, vs, i, nb, k, best, j, a);
    }
  }

  /** A chunk of bin `j` is too small, or is not smaller than `best`. */
  lemma {:induction false} InOtherBin(ts: TreeState, size: Sizes, vs: Views, i: nat, nb: nat, k: nat, best: Addr, j: nat, a: Addr)
    requires Valid(ts, size, vs) && InBin(i, nb) && i < k < NTREEBINS && j < NTREEBINS && a in vs[j].at && a in size
    requires forall b | b in vs[i].at :: b in size && size[b] < nb
    requires forall n: nat | i < n < k :: !Marked(ts.marks, n)
    requires best in vs[k].at && best in size && InBin(k, size[best]) && forall b | b in vs[k].at :: b in size && size[best] <= size[b]
    ensures size[a] < nb || size[best] <= size[a]
  {
    if j < i {
      OtherBins(ts, size, vs, i, nb, j, a);
    } else if i < j < k {
      assert BinOk(ts, size, vs, j);
      EmptyBin(ts, size, vs, j);
    } else if k < j {
      HeldBySize(ts, size, vs, j, a);
      BinOrder(k, j, size[best], size[a]);
    }
  }

  lemma {:induction false} NoBinServes(ts: TreeState, size: Sizes, vs: Views, i: nat, nb: nat)
    requires Valid(ts, size, vs) && InBin(i, nb) && (forall a | a in Held(vs) :: a in size)
    requires forall a | a in vs[i].at :: a in size && size[a] < nb
    requires forall j: nat | i < j < NTREEBINS :: !Marked(ts.marks, j)
    ensures BestFit(size, vs, nb, 0, 0)
  {
    forall a | a in Held(vs)
      ensures size[a] < nb
    {
      var j :| 0 <= j < |vs| && a in vs[j].at;
      OtherBins(ts, size, vs, i, nb, j, a);
      if i < j {
        assert BinOk(ts, size, vs, j);
        EmptyBin(ts, size, vs, j);
      }
    }
  }

  /** The search of `tmalloc_large`. */
  method FindLarge(ts: TreeState, size: Sizes, nb: nat, ghost vs: Views)
    returns (best: Addr, rsize: nat)
    requires Valid(ts, size, vs) && 256 <= nb < WORD && nb % 8 == 0
    ensures forall a | a in Held(vs) :: a in size
    ensures BestFit(size, vs, nb, best, rsize) && (best != 0 ==> Oldest(size, vs, best))
  {
    var i := TreeIndex(nb);
    TreeIndexBrackets(nb);
    AllSized(ts, size, vs);
    assert BinOk(ts, size, vs, i);
    best, rsize := 0, Neg(nb);
    var t := ts.root[i];
    ghost var p := Root;
    if t != 0 {
      best, rsize, t, p := TrieSearch.SeekSizeInBin(ts.nodes, size, i, ts.root[i], nb, vs[i]);
    } else {
      EmptyBin(ts, size, vs, i);
    }
    if t == 0 && best == 0 {
      best, rsize := FindAbove(ts, size, i, nb, vs);
    } else {
      if t != 0 {
        best, rsize := TrieSearch.SmallestBelow(ts.nodes, size, i, ts.root[i], nb, t, best, rsize, vs[i], p);
      }
      OwnBinWins(ts, size, vs, i, nb, best, rsize);
      NodeOldest(ts, size, vs, i, best);
    }
  }

  /** The part of the search that moves on to the next nonempty bin. */
  method FindAbove(ts: TreeState, size: Sizes, i: nat, nb: nat, ghost vs: Views)
    returns (best: Addr, rsize: nat)
    requires Valid(ts, size, vs) && InBin(i, nb) && nb > 0 && (forall a | a in Held(vs) :: a in size)
    requires forall a | a in vs[i].at :: a in size && size[a] < nb
    ensures BestFit(size, vs, nb, best, rsize) && (best != 0 ==> Oldest(size, vs, best))
  {
    best, rsize := 0, Neg(nb);
    var left := MarksAbove(ts.marks, i);
    LeastIndexAbove(ts.marks, i);
    if left != 0 {
      var k := LeastIndex(left);
      best, rsize := SmallestOfBin(ts, size, k, nb, 0, Neg(nb), i, vs);
      NextBinWins(ts, size, vs, i, nb, k, best, rsize);
      NodeOldest(ts, size, vs, k, best);
    } else {
      NoBinServes(ts, size, vs, i, nb);
    }
  }

  /** The leftmost walk from the root of bin `k`. */
  method SmallestOfBin(ts: TreeState, size: Sizes, k: nat, nb: nat, best0: Addr, rsize0: nat, ghost i: nat, ghost vs: Views)
    returns (best: Addr, rsize: nat)
    requires Valid(ts, size, vs) && InBin(i, nb) && i < k < NTREEBINS && Marked(ts.marks, k) && rsize0 == Neg(nb) && nb > 0
    ensures best in vs[k].at && best != 0 && best in size && size[best] == nb + rsize && Trie.IsNode(vs[k], best)
    ensures forall a | a in vs[k].at :: a in size && nb + rsize <= size[a]
  {
    assert BinOk(ts, size, vs, k);
    ghost var v := vs[k];
    forall a | a in v.at
      ensures a in size && nb <= size[a] < WORD && Under(v.at[a], Root) && 0 < a
    {
      HeldBySize(ts, size, vs, k, a);
      OtherBins(ts, size, vs, i, nb, k, a);
      UnderRoot(v.at[a]);
    }
    Trie.HeadFacts(size, k, v, Root);
    best, rsize := TrieSearch.SmallestBelow(ts.nodes, size, k, ts.root[k], nb, ts.root[k], best0, rsize0, v, Root);
  }

  /** The search of `tmalloc_small`: the smallest held chunk. */
  method FindSmall(ts: TreeState, size: Sizes, nb: nat, ghost vs: Views)
    returns (best: Addr, rsize: nat)
    requires Valid(ts, size, vs) && 0 < nb < 256 && ts.marks != 0
    ensures forall a | a in Held(vs) :: a in size
    ensures best != 0 && best in Held(vs) && size[best] == nb + rsize && Oldest(size, vs, best)
    ensures forall a | a in Held(vs) :: size[best] <= size[a]
  {
    AllSized(ts, size, vs);
    LeastIndexIsLeast(ts.marks);
    var k := LeastIndex(ts.marks);
    assert BinOk(ts, size, vs, k);
    ghost var v := vs[k];
    Trie.HeadFacts(size, k, v, Root);
    LargeSizes(k);
    forall a | a in v.at
      ensures a in size && nb <= size[a] && Under(v.at[a], Root)
    {
      HeldBySize(ts, size, vs, k, a);
      UnderRoot(v.at[a]);
    }
    var t := ts.root[k];
    best, rsize := TrieSearch.SmallestBelow(ts.nodes, size, k, t, nb, t, t, Sub(size[t], nb), v, Root);
    HeldBySize(ts, size, vs, k, best);
    NodeOldest(ts, size, vs, k, best);
    forall a | a in Held(vs)
      ensures size[best] <= size[a]
    {
      LeastBinWins(ts, size, vs, k, best, a);
    }
  }

  /** A smallest chunk of the least nonempty bin is a smallest chunk of all. */
  lemma {:induction false} LeastBinWins(ts: TreeState, size: Sizes, vs: Views, k: nat, best: Addr, a: Addr)
    requires Valid(ts, size, vs) && k < NTREEBINS && (forall j: nat | j < k :: !Marked(ts.marks, j))
    requires best in vs[k].at && best in size && InBin(k, size[best]) && a in Held(vs)
    requires forall b | b in vs[k].at :: b in size && size[best] <= size[b]
    ensures a in size && size[best] <= size[a]
  {
    var j :| 0 <= j < |vs| && a in vs[j].at;
    HeldBySize(ts, size, vs, j, a);
    if j < k {
      assert BinOk(ts, size, vs, j);
      EmptyBin(ts, size, vs, j);
    } else if k < j {
      BinOrder(k, j, size[best], size[a]);
    }
  }
}
