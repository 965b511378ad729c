/** Circular doubly linked lists of free chunks: small bins, and rings of equal-sized tree chunks. */
module Rings {
  import opened Lists

  /** Chunk addresses are positive; 0 is null and a bin header has a negative address. */
  type Addr = int

  /** The link words of a free chunk. Chunks in small bins use only `fd` and `bk`; the size word belongs
      to the heap. */
  datatype Node = Node(fd: Addr, bk: Addr, left: Addr, right: Addr, parent: Addr, index: nat)

  type Nodes = map<Addr, Node>

  /** The word at `a`, if there is one, is the same in both. */
  ghost predicate SameWord<T>(x: map<Addr, T>, y: map<Addr, T>, a: Addr) {
    (a in x <==> a in y) && (a in x && a in y ==> x[a] == y[a])
  }

  function Next(k: nat, n: nat): nat {
    if k + 1 == n then 0 else k + 1
  }

  function Prev(k: nat, n: nat): int {
    if k == 0 then n - 1 else k - 1
  }

  ghost predicate CycleAt(nodes: Nodes, r: seq<Addr>, k: int) {
    0 <= k < |r| ==>
      && r[k] in nodes
      && nodes[r[k]].fd == r[Next(k, |r|)]
      && nodes[r[k]].bk == r[Prev(k, |r|)]
  }

  /** The chunks `r` are linked in a circle, in this order along `fd` and in reverse along `bk`. */
  ghost predicate Cycle(nodes: Nodes, r: seq<Addr>) {
    forall k {:trigger CycleAt(nodes, r, k)} :: CycleAt(nodes, r, k)
  }

  lemma {:induction false} CycleFrame(nodes: Nodes, r: seq<Addr>, nodes': Nodes)
    requires Cycle(nodes, r)
    requires forall k | 0 <= k < |r| ::
               r[k] in nodes && r[k] in nodes' && nodes'[r[k]].fd == nodes[r[k]].fd && nodes'[r[k]].bk == nodes[r[k]].bk
    ensures Cycle(nodes', r)
  {
    forall k
      ensures CycleAt(nodes', r, k)
    {
      assert CycleAt(nodes, r, k);
    }
  }

  // ---- Linking a chunk in, right after the first one ----

  ghost function Inserted(r: seq<Addr>, x: Addr): seq<Addr>
    requires r != []
  {
    [r[0], x] + r[1..]
  }

  lemma {:induction false} CycleInsert(nodes: Nodes, r: seq<Addr>, x: Addr, f: Addr, n: Node, nodes1: Nodes, nodes': Nodes)
    requires r != [] && Cycle(nodes, r) && NoRepeats(r) && x !in r
    requires r[0] in nodes && f == nodes[r[0]].fd && f in nodes && n.fd == f && n.bk == r[0]
    requires nodes1 == nodes[r[0] := nodes[r[0]].(fd := x)]
    requires nodes' == nodes1[f := nodes1[f].(bk := x)][x := n]
    ensures Cycle(nodes', Inserted(r, x))
    ensures NoRepeats(Inserted(r, x))
  {
    var r' := Inserted(r, x);
    assert CycleAt(nodes, r, 0);
    assert f == r[Next(0, |r|)];
    forall k
      ensures CycleAt(nodes', r', k)
    {
      if k == 0 {
        assert |r| > 1 ==> CycleAt(nodes, r, |r| - 1);
      } else if 1 < k < |r'| {
        assert r'[k] == r[k - 1];
        assert CycleAt(nodes, r, k - 1);
      }
    }
  }

  // ---- Unlinking a chunk ----

  /** The ring without its chunk `k`; the last chunk takes over when the first one leaves. */
  ghost function Removed(r: seq<Addr>, k: nat): seq<Addr>
    requires k < |r| && |r| > 1
  {
    if k == 0 then [r[|r| - 1]] + r[1..|r| - 1] else r[..k] + r[k + 1..]
  }

  /** The chunks of a ring, oldest first: those after the first one came in behind it. */
  ghost function Ages(r: seq<Addr>): seq<Addr> {
    seq(|r|, k requires 0 <= k < |r| => r[if k == 0 then 0 else |r| - k])
  }

  lemma {:induction false} AgesElements(r: seq<Addr>, a: Addr)
    ensures a in Ages(r) <==> a in r
    ensures NoRepeats(r) ==> NoRepeats(Ages(r))
  {
    if a in r {
      var k :| 0 <= k < |r| && r[k] == a;
      assert Ages(r)[if k == 0 then 0 else |r| - k] == a;
    }
  }

  /** A chunk that is linked in is the youngest. */
  lemma {:induction false} AgesInserted(r: seq<Addr>, x: Addr)
    requires r != []
    ensures Ages(Inserted(r, x)) == Ages(r) + [x]
  {
    var r', n := Inserted(r, x), |r|;
    assert |Ages(r')| == n + 1;
    forall k | 0 <= k < n + 1
      ensures Ages(r')[k] == (Ages(r) + [x])[k]
    {
    }
  }

  /** Whichever chunk leaves, the others keep their order; in particular the oldest that stays is first. */
  lemma {:induction false} AgesRemoved(r: seq<Addr>, k: nat)
    requires k < |r| && |r| > 1 && NoRepeats(r)
    ensures Ages(Removed(r, k)) == Minus(Ages(r), r[k])
  {
    var r', n, a := Removed(r, k), |r|, if k == 0 then 0 else |r| - k;
    assert |r'| == n - 1 && Ages(r)[a] == r[k];
    forall j | 0 <= j < n - 1
      ensures Ages(r')[j] == Without(Ages(r), a)[j]
    {
      RemovedAt(r, k, if j == 0 then 0 else n - 1 - j);
    }
    assert Ages(r') == Without(Ages(r), a);
    AgesElements(r, r[k]);
    MinusIs(Ages(r), a);
  }

  /** Where chunk `j` of the shortened ring stood before. */
  ghost function Origin(n: nat, k: nat, j: nat): nat
    requires n > 1
  {
    if k == 0 then (if j == 0 then n - 1 else j) else (if j < k then j else j + 1)
  }

  lemma {:induction false} RemovedElements(r: seq<Addr>, k: nat, a: Addr)
    requires k < |r| && |r| > 1 && NoRepeats(r)
    ensures NoRepeats(Removed(r, k))
    ensures a in Removed(r, k) <==> a in r && a != r[k]
  {
    var r' := Removed(r, k);
    if k == 0 {
      assert forall j | 0 < j < |r'| :: r'[j] == r[j];
    } else {
      assert forall j | 0 <= j < k :: r'[j] == r[j];
      assert forall j | k <= j < |r'| :: r'[j] == r[j + 1];
    }
    if a in r && a != r[k] {
      var j :| 0 <= j < |r| && r[j] == a;
      if k == 0 {
        assert a == r'[if j == |r| - 1 then 0 else j];
      } else {
        assert a == r'[if j < k then j else j - 1];
      }
    }
  }

  lemma {:induction false} RemovedAt(r: seq<Addr>, k: nat, j: nat)
    requires k < |r| && |r| > 1 && j < |r| - 1
    ensures |Removed(r, k)| == |r| - 1 && Origin(|r|, k, j) < |r|
    ensures Removed(r, k)[j] == r[Origin(|r|, k, j)]
  {
  }

  lemma {:induction false} OriginOfNeighbours(n: nat, k: nat, j: nat)
    requires k < n && n > 1 && j < n - 1
    ensures var l := Origin(n, k, j);
            && Origin(n, k, Next(j, n - 1)) == (if Next(l, n) == k then Next(k, n) else Next(l, n))
            && Origin(n, k, Prev(j, n - 1)) == (if Prev(l, n) == k then Prev(k, n) else Prev(l, n))
            && l != k
  {
  }

  lemma {:induction false} NeighbourRemoved(r: seq<Addr>, k: nat, j: nat)
    requires k < |r| && |r| > 1 && j < |r| - 1
    ensures |Removed(r, k)| == |r| - 1 && Origin(|r|, k, j) < |r| && Origin(|r|, k, j) != k
    ensures var r', n, l := Removed(r, k), |r|, Origin(|r|, k, j);
            && r'[j] == r[l]
            && r'[Next(j, n - 1)] == (if Next(l, n) == k then r[Next(k, n)] else r[Next(l, n)])
            && r'[Prev(j, n - 1)] == (if Prev(l, n) == k then r[Prev(k, n)] else r[Prev(l, n)])
  {
    OriginOfNeighbours(|r|, k, j);
    RemovedAt(r, k, j);
    RemovedAt(r, k, Next(j, |r| - 1));
    RemovedAt(r, k, Prev(j, |r| - 1));
  }

  /** Linking the neighbours of chunk `k` to each other. */
  lemma {:induction false} CycleRemove(nodes: Nodes, r: seq<Addr>, k: nat, f: Addr, b: Addr, nodes1: Nodes, nodes': Nodes)
    requires k < |r| && |r| > 1 && Cycle(nodes, r) && NoRepeats(r)
    requires f == r[Next(k, |r|)] && b == r[Prev(k, |r|)] && f in nodes && b in nodes
    requires nodes1 == nodes[f := nodes[f].(bk := b)]
    requires nodes' == nodes1[b := nodes1[b].(fd := f)]
    ensures Cycle(nodes', Removed(r, k))
  {
    var r' := Removed(r, k);
    forall j
      ensures CycleAt(nodes', r', j)
    {
      if 0 <= j < |r'| {
        NeighbourRemoved(r, k, j);
        assert CycleAt(nodes, r, Origin(|r|, k, j));
      }
    }
  }

  // ---- Rings of tree chunks ----

  ghost predicate RingAt(nodes: Nodes, i: nat, r: seq<Addr>, k: int) {
    0 <= k < |r| ==>
      && CycleAt(nodes, r, k)
      && nodes[r[k]].index == i
      && (k > 0 ==> nodes[r[k]].parent == 0 && nodes[r[k]].left == 0 && nodes[r[k]].right == 0)
  }

  /** The chunks `r` form one ring in tree bin `i`; only the first is a tree node. */
  ghost predicate Ring(nodes: Nodes, i: nat, r: seq<Addr>) {
    forall k {:trigger RingAt(nodes, i, r, k)} :: RingAt(nodes, i, r, k)
  }

  lemma {:induction false} RingIsCycle(nodes: Nodes, i: nat, r: seq<Addr>)
    requires Ring(nodes, i, r)
    ensures Cycle(nodes, r)
  {
    forall k
      ensures CycleAt(nodes, r, k)
    {
      assert RingAt(nodes, i, r, k);
    }
  }

  /** What may happen elsewhere without disturbing a ring. */
  lemma {:induction false} RingFrame(nodes: Nodes, i: nat, r: seq<Addr>, nodes': Nodes)
    requires Ring(nodes, i, r)
    requires forall k | 0 <= k < |r| ::
               && r[k] in nodes && r[k] in nodes'
               && (nodes'[r[k]] == nodes[r[k]]
                   || (k == 0 && nodes'[r[k]].fd == nodes[r[k]].fd && nodes'[r[k]].bk == nodes[r[k]].bk
                       && nodes'[r[k]].index == nodes[r[k]].index))
    ensures Ring(nodes', i, r)
  {
    forall k
      ensures RingAt(nodes', i, r, k)
    {
      assert RingAt(nodes, i, r, k);
    }
  }

  lemma {:induction false} RingInsert(nodes: Nodes, i: nat, r: seq<Addr>, x: Addr, f: Addr, nodes1: Nodes, nodes': Nodes)
    requires r != [] && Ring(nodes, i, r) && NoRepeats(r) && x !in r
    requires r[0] in nodes && f == nodes[r[0]].fd && f in nodes
    requires nodes1 == nodes[r[0] := nodes[r[0]].(fd := x)]
    requires nodes' == nodes1[f := nodes1[f].(bk := x)][x := Node(f, r[0], 0, 0, 0, i)]
    ensures Ring(nodes', i, Inserted(r, x))
    ensures NoRepeats(Inserted(r, x))
  {
    var r' := Inserted(r, x);
    RingIsCycle(nodes, i, r);
    CycleInsert(nodes, r, x, f, Node(f, r[0], 0, 0, 0, i), nodes1, nodes');
    forall k
      ensures RingAt(nodes', i, r', k)
    {
      assert CycleAt(nodes', r', k);
      if k == 0 {
        assert RingAt(nodes, i, r, 0);
      } else if 1 < k < |r'| {
        assert r'[k] == r[k - 1];
        assert RingAt(nodes, i, r, k - 1);
      }
    }
  }

  lemma {:induction false} RingRemove(nodes: Nodes, i: nat, r: seq<Addr>, k: nat, f: Addr, b: Addr, nodes1: Nodes, nodes': Nodes)
    requires k < |r| && |r| > 1 && Ring(nodes, i, r) && NoRepeats(r)
    requires f == r[Next(k, |r|)] && b == r[Prev(k, |r|)] && f in nodes && b in nodes
    requires nodes1 == nodes[f := nodes[f].(bk := b)]
    requires nodes' == nodes1[b := nodes1[b].(fd := f)]
    ensures Ring(nodes', i, Removed(r, k))
  {
    var r' := Removed(r, k);
    RingIsCycle(nodes, i, r);
    CycleRemove(nodes, r, k, f, b, nodes1, nodes');
    forall j
      ensures RingAt(nodes', i, r', j)
    {
      assert CycleAt(nodes', r', j);
      if 0 <= j < |r'| {
        NeighbourRemoved(r, k, j);
        assert RingAt(nodes, i, r, Origin(|r|, k, j));
      }
    }
  }
}
