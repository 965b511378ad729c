/** One tree bin: a digital trie of chunk sizes whose nodes head rings of equal-sized chunks. */
module Trie {
  import opened Words
  import opened Digits
  import opened BinIndex
  import opened Lists
  import opened Rings

  type Sizes = map<Addr, nat>

  function Child(n: Node, b: bool): Addr {
    if b then n.right else n.left
  }

  function WithChild(n: Node, b: bool, c: Addr): Node {
    if b then n.(right := c) else n.(left := c)
  }

  /** `(tchunkptr)treebin_at(M, i)`, the parent recorded in a root node. */
  function Slot(i: nat): Addr {
    -1 - i
  }

  // ---- The abstract trie: which ring of chunks sits at which path, and where each chunk is ----

  datatype View = View(ring: map<Path, seq<Addr>>, at: map<Addr, Path>)

  const Empty := View(map[], map[])

  ghost function Head(v: View, p: Path): Addr {
    if p in v.ring && v.ring[p] != [] then v.ring[p][0] else 0
  }

  ghost predicate Shape(v: View) {
    && (forall p {:trigger v.ring[p]} | p in v.ring :: v.ring[p] != [] && NoRepeats(v.ring[p]))
    && (forall p {:trigger p.up} | p in v.ring && p.Down? :: p.up in v.ring)
    && (forall p, k {:trigger v.ring[p][k]} | p in v.ring && 0 <= k < |v.ring[p]| ::
          v.ring[p][k] in v.at && v.at[v.ring[p][k]] == p)
    && (forall a {:trigger v.at[a]} | a in v.at :: 0 < a && v.at[a] in v.ring && a in v.ring[v.at[a]])
  }

  /** The chunks of the size of `a`, oldest first. */
  ghost function Line(v: View, a: Addr): seq<Addr> {
    if a in v.at && v.at[a] in v.ring then Ages(v.ring[v.at[a]]) else []
  }

  /** The newcomer `x` is last in the line of its size; the other lines are as before. */
  ghost predicate JoinedAt(size: Sizes, v: View, v': View, x: Addr, a: Addr) {
    a in v.at && a in size && x in size ==> Line(v', a) == if size[a] == size[x] then Line(v, a) + [x] else Line(v, a)
  }

  ghost predicate Joined(size: Sizes, v: View, v': View, x: Addr) {
    && (forall a {:trigger JoinedAt(size, v, v', x, a)} :: JoinedAt(size, v, v', x, a))
    && x in size && ((forall a | a in v.at :: a in size && size[a] != size[x]) ==> Line(v', x) == [x])
  }

  /** `x` has left its line, where the others keep their order; the other lines are as before. */
  ghost predicate LeftAt(v: View, v': View, x: Addr, a: Addr) {
    a in v.at && a != x ==> Line(v', a) == if a in Line(v, x) then Minus(Line(v, x), x) else Line(v, a)
  }

  ghost predicate Left(v: View, v': View, x: Addr) {
    forall a {:trigger LeftAt(v, v', x, a)} :: LeftAt(v, v', x, a)
  }

  /** `a` is in the tree itself and not only in a ring. */
  ghost predicate IsNode(v: View, a: Addr) {
    a in v.at && a == Head(v, v.at[a])
  }

  /** The chunk in the tree is the oldest of its size. */
  lemma {:induction false} NodeIsOldest(v: View, a: Addr)
    requires Shape(v) && IsNode(v, a)
    ensures Line(v, a) != [] && Line(v, a)[0] == a
  {
    assert v.at[a] in v.ring;
  }

  lemma {:induction false} LineMembers(v: View, x: Addr, a: Addr)
    requires Shape(v) && x in v.at && a in v.at
    ensures a in Line(v, x) <==> v.at[a] == v.at[x]
  {
    var p := v.at[x];
    assert p in v.ring && v.at[a] in v.ring;
    AgesElements(v.ring[p], a);
    if a in v.ring[p] {
      var k :| 0 <= k < |v.ring[p]| && v.ring[p][k] == a;
    }
  }

  ghost predicate Stored(nodes: Nodes, v: View) {
    forall a {:trigger a in nodes} | a in v.at :: a in nodes
  }

  /** Every chunk is filed along its own size, in the bin of its size, together with its equals. */
  ghost predicate Filed(size: Sizes, i: nat, v: View) {
    && (forall a {:trigger v.at[a]} | a in v.at ::
          && a in size && InBin(i, size[a]) && size[a] % 8 == 0
          && Under(Key(i, size[a]), v.at[a]))
    && (forall a, b {:trigger v.at[a], v.at[b]} | a in v.at && b in v.at :: size[a] == size[b] <==> v.at[a] == v.at[b])
  }

  ghost function ParentOf(i: nat, v: View, p: Path): Addr {
    if p == Root then Slot(i) else Head(v, p.up)
  }

  /** The parent and child words of the node at `p` are exactly its abstract neighbours. */
  ghost predicate LinkedAt(nodes: Nodes, i: nat, v: View, p: Path) {
    var h := Head(v, p);
    && h in nodes
    && nodes[h].left == Head(v, Down(p, false))
    && nodes[h].right == Head(v, Down(p, true))
    && nodes[h].parent == ParentOf(i, v, p)
  }

  ghost predicate PathOk(nodes: Nodes, i: nat, v: View, p: Path) {
    p in v.ring ==> Ring(nodes, i, v.ring[p]) && LinkedAt(nodes, i, v, p)
  }

  ghost predicate Linked(nodes: Nodes, i: nat, v: View) {
    forall p {:trigger PathOk(nodes, i, v, p)} :: PathOk(nodes, i, v, p)
  }

  /** The whole invariant of tree bin `i`, whose slot holds `root`. */
  ghost predicate Valid(nodes: Nodes, size: Sizes, i: nat, root: Addr, v: View) {
    && i < NTREEBINS
    && Shape(v)
    && Stored(nodes, v)
    && Filed(size, i, v)
    && Linked(nodes, i, v)
    && root == Head(v, Root)
  }

  /** The bin depends only on the links and sizes of its own chunks. */
  lemma {:induction false} Frame(nodes: Nodes, nodes': Nodes, size: Sizes, size': Sizes, i: nat, root: Addr, v: View)
    requires Valid(nodes, size, i, root, v)
    requires forall a | a in v.at :: a in nodes && a in nodes' && nodes'[a] == nodes[a]
    requires forall a | a in v.at :: a in size && a in size' && size'[a] == size[a]
    ensures Valid(nodes', size', i, root, v)
  {
    forall p
      ensures PathOk(nodes', i, v, p)
    {
      if p in v.ring {
        assert PathOk(nodes, i, v, p);
        assert forall k | 0 <= k < |v.ring[p]| :: v.ring[p][k] in v.at;
        RingFrame(nodes, i, v.ring[p], nodes');
      }
    }
  }

  lemma {:induction false} HeadFacts(size: Sizes, i: nat, v: View, p: Path)
    requires Shape(v) && Filed(size, i, v) && p in v.ring
    ensures Head(v, p) == v.ring[p][0] && Head(v, p) in v.at && v.at[Head(v, p)] == p && Head(v, p) in size
    ensures InBin(i, size[Head(v, p)]) && size[Head(v, p)] % 8 == 0 && Under(Key(i, size[Head(v, p)]), p)
    ensures Depth(p) <= KeyLen(i)
  {
    var h := v.ring[p][0];
    assert h in v.at && v.at[h] == p;
    UnderDepth(Key(i, size[h]), p);
    BitsDepth(Shr(size[h], 3), KeyLen(i));
  }

  lemma {:induction false} AncestorsPresent(v: View, q: Path, p: Path)
    requires Shape(v) && q in v.ring && Under(q, p)
    ensures p in v.ring
  {
    if q != p {
      assert q.up in v.ring;
      AncestorsPresent(v, q.up, p);
    }
  }

  // ---- Hanging a chunk of a new size below a node ----

  ghost function PlantView(v: View, q: Path, x: Addr): View {
    View(v.ring[q := [x]], v.at[x := q])
  }

  lemma {:induction false} PlantShape(v: View, q: Path, x: Addr)
    requires Shape(v) && 0 < x && x !in v.at && q !in v.ring && (q.Down? ==> q.up in v.ring)
    ensures Shape(PlantView(v, q, x))
  {
  }

  lemma {:induction false} PlantFiled(size: Sizes, i: nat, v: View, q: Path, x: Addr)
    requires Shape(v) && Filed(size, i, v) && 0 < x && x !in v.at && q !in v.ring
    requires x in size && InBin(i, size[x]) && size[x] % 8 == 0 && Under(Key(i, size[x]), q)
    requires forall a | a in v.at :: size[a] != size[x]
    ensures Filed(size, i, PlantView(v, q, x))
  {
  }

  ghost predicate Hung(nodes: Nodes, i: nat, v: View, p: Path, b: bool, x: Addr, nodes': Nodes) {
    && Shape(v) && Stored(nodes, v) && 0 < x && x !in v.at && p in v.ring && Down(p, b) !in v.ring
    && var h := v.ring[p][0];
    && h in v.at
    && nodes' == nodes[h := WithChild(nodes[h], b, x)][x := Node(x, x, 0, 0, h, i)]
  }

  lemma {:induction false} HungAt(nodes: Nodes, i: nat, v: View, p: Path, b: bool, x: Addr, nodes': Nodes, r: Path)
    requires Hung(nodes, i, v, p, b, x, nodes')
    requires PathOk(nodes, i, v, r)
    ensures PathOk(nodes', i, PlantView(v, Down(p, b), x), r)
  {
    var q, h := Down(p, b), v.ring[p][0];
    if r == q {
      assert Down(q, false).up !in v.ring && Down(q, true).up !in v.ring;
      assert forall k :: RingAt(nodes', i, [x], k);
    } else if r in v.ring {
      var t := v.ring[r];
      forall k | 0 <= k < |t|
        ensures t[k] in nodes && t[k] != x && (t[k] == h ==> k == 0)
      {
        assert t[k] in v.at && v.at[t[k]] == r;
        assert v.at[h] == p;
      }
      RingFrame(nodes, i, t, nodes');
      assert t[0] in v.at && v.at[t[0]] == r && v.at[h] == p;
      assert r.Down? ==> r.up in v.ring;
    }
  }

  // ---- Linking a chunk into the ring of its size ----

  ghost function ChainView(v: View, p: Path, x: Addr): View
    requires p in v.ring && v.ring[p] != []
  {
    View(v.ring[p := Inserted(v.ring[p], x)], v.at[x := p])
  }

  lemma {:induction false} ChainShape(v: View, p: Path, x: Addr)
    requires Shape(v) && 0 < x && x !in v.at && p in v.ring && NoRepeats(Inserted(v.ring[p], x))
    ensures Shape(ChainView(v, p, x))
  {
    var r := v.ring[p];
    var r' := Inserted(r, x);
    assert r'[1] == x;
    assert forall k | 0 <= k < |r'| && k != 1 :: r'[k] == r[if k == 0 then 0 else k - 1];
    forall a | a in r
      ensures a in r'
    {
      var k :| 0 <= k < |r| && r[k] == a;
      assert r'[if k == 0 then 0 else k + 1] == a;
    }
  }

  ghost predicate Chained(nodes: Nodes, i: nat, v: View, p: Path, x: Addr, nodes': Nodes) {
    && Shape(v) && Stored(nodes, v) && 0 < x && x !in v.at && p in v.ring
    && var t := v.ring[p][0];
    && t in nodes
    && var f := nodes[t].fd;
    && f in v.at && v.at[f] == p && f in nodes
    && var nodes1 := nodes[t := nodes[t].(fd := x)];
    && nodes' == nodes1[f := nodes1[f].(bk := x)][x := Node(f, t, 0, 0, 0, i)]
  }

  lemma {:induction false} ChainedAt(nodes: Nodes, i: nat, v: View, p: Path, x: Addr, nodes': Nodes, r: Path)
    requires Chained(nodes, i, v, p, x, nodes')
    requires PathOk(nodes, i, v, r)
    ensures PathOk(nodes', i, ChainView(v, p, x), r)
    ensures r == p ==> NoRepeats(Inserted(v.ring[p], x))
  {
    if r in v.ring {
      var t, s := v.ring[p], v.ring[r];
      assert forall k | 0 <= k < |s| :: s[k] in v.at && v.at[s[k]] == r;
      assert t[0] in v.at && v.at[t[0]] == p;
      if r == p {
        var nodes1 := nodes[t[0] := nodes[t[0]].(fd := x)];
        RingInsert(nodes, i, t, x, nodes[t[0]].fd, nodes1, nodes');
      } else {
        forall k | 0 <= k < |s|
          ensures s[k] in nodes && s[k] in nodes' && nodes'[s[k]] == nodes[s[k]]
        {
        }
        RingFrame(nodes, i, s, nodes');
      }
      ChainedHeads(v, p, x, r);
    }
  }

  lemma {:induction false} ChainedHeads(v: View, p: Path, x: Addr, r: Path)
    requires Shape(v) && p in v.ring
    ensures Head(ChainView(v, p, x), r) == Head(v, r)
    ensures Head(ChainView(v, p, x), Down(r, false)) == Head(v, Down(r, false))
    ensures Head(ChainView(v, p, x), Down(r, true)) == Head(v, Down(r, true))
    ensures r.Down? ==> Head(ChainView(v, p, x), r.up) == Head(v, r.up)
  {
  }

  // ---- insert_large_chunk, on a nonempty bin ----

  /** `(K >> (SIZE_T_BITSIZE - 1)) & 1`. */
  predicate TopDigit(k: nat) {
    k / 0x8000_0000 == 1
  }

  /** A node whose size differs from `s` still has a step to take towards `s`. */
  lemma {:induction false} NewSizeHasRoom(size: Sizes, i: nat, v: View, p: Path, s: nat)
    requires Shape(v) && Filed(size, i, v) && p in v.ring
    requires Head(v, p) in size && size[Head(v, p)] != s
    requires InBin(i, s) && s % 8 == 0 && Under(Key(i, s), p)
    ensures Key(i, s) != p
  {
    HeadFacts(size, i, v, p);
    var t := size[Head(v, p)];
    if Key(i, s) == p {
      BitsDepth(Shr(t, 3), KeyLen(i));
      BitsDepth(Shr(s, 3), KeyLen(i));
      UnderDepth(Key(i, t), p);
      KeyInjective(i, t, s);
    }
  }

  /** A size met nowhere on its own path is held nowhere in the bin. */
  lemma {:induction false} SizeAbsent(size: Sizes, i: nat, v: View, p: Path, b: bool, s: nat, a: Addr)
    requires Shape(v) && Filed(size, i, v) && a in v.at && InBin(i, s)
    requires Under(Key(i, s), Down(p, b)) && Down(p, b) !in v.ring
    requires forall q | q in v.ring && Under(p, q) :: Head(v, q) in size && size[Head(v, q)] != s
    ensures a in size && size[a] != s
  {
    var q, key := v.at[a], Key(i, s);
    HeadFacts(size, i, v, q);
    assert size[Head(v, q)] == size[a];
    UnderTransitive(key, Down(p, b), p);
    if size[a] == s {
      if Depth(q) <= Depth(p) {
        SameWay(key, q, p);
      } else {
        SameWay(key, Down(p, b), q);
        AncestorsPresent(v, q, Down(p, b));
      }
    }
  }

  lemma {:induction false} PlantValid(nodes: Nodes, size: Sizes, i: nat, root: Addr, v: View, p: Path, b: bool, x: Addr, nodes': Nodes)
    requires Valid(nodes, size, i, root, v) && Hung(nodes, i, v, p, b, x, nodes')
    requires x in size && InBin(i, size[x]) && size[x] % 8 == 0 && Under(Key(i, size[x]), Down(p, b))
    requires forall a | a in v.at :: a in size && size[a] != size[x]
    ensures Valid(nodes', size, i, root, PlantView(v, Down(p, b), x))
  {
    var q := Down(p, b);
    PlantShape(v, q, x);
    PlantFiled(size, i, v, q, x);
    forall r
      ensures PathOk(nodes', i, PlantView(v, q, x), r)
    {
      assert PathOk(nodes, i, v, r);
      HungAt(nodes, i, v, p, b, x, nodes', r);
    }
  }

  lemma {:induction false} ChainFiled(size: Sizes, i: nat, v: View, p: Path, x: Addr)
    requires Shape(v) && Filed(size, i, v) && 0 < x && x !in v.at && p in v.ring
    requires x in size && Head(v, p) in size && size[x] == size[Head(v, p)]
    ensures Filed(size, i, ChainView(v, p, x))
  {
    HeadFacts(size, i, v, p);
  }

  lemma {:induction false} ChainValid(nodes: Nodes, size: Sizes, i: nat, root: Addr, v: View, p: Path, x: Addr, nodes': Nodes)
    requires Valid(nodes, size, i, root, v) && Chained(nodes, i, v, p, x, nodes')
    requires x in size && Head(v, p) in size && size[x] == size[Head(v, p)]
    ensures Valid(nodes', size, i, root, ChainView(v, p, x))
  {
    assert PathOk(nodes, i, v, p);
    ChainedAt(nodes, i, v, p, x, nodes', p);
    ChainShape(v, p, x);
    ChainFiled(size, i, v, p, x);
    forall r
      ensures PathOk(nodes', i, ChainView(v, p, x), r)
    {
      assert PathOk(nodes, i, v, r);
      ChainedAt(nodes, i, v, p, x, nodes', r);
    }
    ChainedHeads(v, p, x, Root);
  }

  /** The successor of a tree node in its ring belongs to that ring. */
  lemma {:induction false} RingNeighbour(nodes: Nodes, size: Sizes, i: nat, root: Addr, v: View, p: Path)
    requires Valid(nodes, size, i, root, v) && p in v.ring
    ensures Head(v, p) in nodes
    ensures nodes[Head(v, p)].fd in v.at && v.at[nodes[Head(v, p)].fd] == p
  {
    assert PathOk(nodes, i, v, p);
    assert RingAt(nodes, i, v.ring[p], 0);
    assert v.ring[p][Next(0, |v.ring[p]|)] in v.at;
  }

  /** The walk towards `s` stands at `p`, with `k` the size shifted by one digit per level. */
  ghost predicate Walking(size: Sizes, i: nat, v: View, s: nat, p: Path, k: nat)
    requires i < NTREEBINS && s < WORD
  {
    && p in v.ring && Under(Key(i, s), p)
    && k == Shl(s, LeftShift(i) + Depth(p))
    && forall q {:trigger Head(v, q)} | q in v.ring && Under(p, q) && q != p :: Head(v, q) in size && size[Head(v, q)] != s
  }

  lemma {:induction false} StartWalk(nodes: Nodes, size: Sizes, i: nat, root: Addr, v: View, s: nat)
    requires Valid(nodes, size, i, root, v) && root != 0 && s < WORD
    ensures Walking(size, i, v, s, Root, Shl(s, LeftShift(i)))
  {
    UnderRoot(Key(i, s));
  }

  lemma {:induction false} WalkNode(nodes: Nodes, size: Sizes, i: nat, root: Addr, v: View, s: nat, p: Path, k: nat)
    requires Valid(nodes, size, i, root, v) && s < WORD && Walking(size, i, v, s, p, k)
    ensures p in v.ring && Head(v, p) in nodes && Head(v, p) in size && Depth(p) <= KeyLen(i) && k < WORD
  {
    HeadFacts(size, i, v, p);
    assert PathOk(nodes, i, v, p);
  }

  lemma {:induction false} WalkDigit(size: Sizes, i: nat, v: View, s: nat, p: Path, k: nat)
    requires Shape(v) && Filed(size, i, v) && InBin(i, s) && s % 8 == 0 && Walking(size, i, v, s, p, k)
    requires Head(v, p) in size && size[Head(v, p)] != s
    ensures Under(Key(i, s), Down(p, TopDigit(k))) && Depth(p) < KeyLen(i)
    ensures k < WORD && Double(k) == Shl(s, LeftShift(i) + (Depth(p) + 1))
  {
    NewSizeHasRoom(size, i, v, p, s);
    KeyStep(i, s, p);
    ShlOnce(s, LeftShift(i) + Depth(p));
  }

  /** One level: the sign bit selects the child on the path of `s`; if there is none, `s` is not held. */
  lemma {:induction false} WalkStep(nodes: Nodes, size: Sizes, i: nat, root: Addr, v: View, s: nat, p: Path, k: nat)
    requires Valid(nodes, size, i, root, v) && InBin(i, s) && s % 8 == 0 && Walking(size, i, v, s, p, k)
    requires Head(v, p) in nodes && Head(v, p) in size && size[Head(v, p)] != s
    ensures Depth(Down(p, TopDigit(k))) <= KeyLen(i) && k < WORD
    ensures var q := Down(p, TopDigit(k));
            && Child(nodes[Head(v, p)], TopDigit(k)) == Head(v, q)
            && Under(Key(i, s), q)
            && (Head(v, q) != 0 ==> Walking(size, i, v, s, q, Double(k)))
            && (Head(v, q) == 0 ==> q !in v.ring && forall a | a in v.at :: a in size && size[a] != s)
  {
    WalkDigit(size, i, v, s, p, k);
    NodeWords(nodes, size, i, root, v, p);
    var b := TopDigit(k);
    if Down(p, b) in v.ring {
      WalkOn(size, i, v, s, p, k, b);
    } else {
      forall a | a in v.at
        ensures a in size && size[a] != s
      {
        SizeAbsent(size, i, v, p, b, s, a);
      }
    }
  }

  lemma {:induction false} WalkOn(size: Sizes, i: nat, v: View, s: nat, p: Path, k: nat, b: bool)
    requires Shape(v) && Filed(size, i, v) && i < NTREEBINS && s < WORD && k < WORD && Walking(size, i, v, s, p, k)
    requires Head(v, p) in size && size[Head(v, p)] != s
    requires Double(k) == Shl(s, LeftShift(i) + (Depth(p) + 1))
    requires Down(p, b) in v.ring && Under(Key(i, s), Down(p, b))
    ensures Walking(size, i, v, s, Down(p, b), Double(k))
  {
  }

  /** The walk of `insert_large_chunk` and `bin_find`: the node of size `s`, or the free place for one. */
  method FindSize(nodes: Nodes, size: Sizes, i: nat, root: Addr, s: nat, ghost v: View)
    returns (t: Addr, found: bool, b: bool, ghost p: Path)
    requires Valid(nodes, size, i, root, v) && root != 0
    requires InBin(i, s) && s % 8 == 0
    ensures p in v.ring && t == Head(v, p) && t in nodes && t in size
    ensures found ==> size[t] == s
    ensures !found ==> Down(p, b) !in v.ring && Under(Key(i, s), Down(p, b))
    ensures !found ==> forall a | a in v.at :: a in size && size[a] != s
  {
    t, found, b := root, false, false;
    var k: nat := Shl(s, LeftShift(i));
    p := Root;
    StartWalk(nodes, size, i, root, v, s);
    WalkNode(nodes, size, i, root, v, s, p, k);
    while size[t] != s
      invariant Walking(size, i, v, s, p, k)
      invariant t == Head(v, p) && t in nodes && t in size && k < WORD && Depth(p) <= KeyLen(i)
      decreases KeyLen(i) - Depth(p)
    {
      WalkStep(nodes, size, i, root, v, s, p, k);
      b := TopDigit(k);
      var c := Child(nodes[t], b);
      if c == 0 {
        return;
      }
      t, p, k := c, Down(p, b), Double(k);
      WalkNode(nodes, size, i, root, v, s, p, k);
    }
    found := true;
  }

  lemma {:induction false} PlantJoined(size: Sizes, v: View, q: Path, x: Addr)
    requires Shape(v) && q !in v.ring && x !in v.at && x in size && forall a | a in v.at :: a in size && size[a] != size[x]
    ensures Joined(size, v, PlantView(v, q, x), x)
  {
    var v' := PlantView(v, q, x);
    assert Ages([x]) == [x];
    forall a
      ensures JoinedAt(size, v, v', x, a)
    {
    }
  }

  lemma {:induction false} ChainJoined(size: Sizes, i: nat, v: View, p: Path, x: Addr)
    requires Shape(v) && Filed(size, i, v) && p in v.ring && x !in v.at && x in size
    requires Head(v, p) in size && size[Head(v, p)] == size[x]
    ensures Joined(size, v, ChainView(v, p, x), x)
  {
    var v' := ChainView(v, p, x);
    HeadFacts(size, i, v, p);
    AgesInserted(v.ring[p], x);
    forall a
      ensures JoinedAt(size, v, v', x, a)
    {
      if a in v.at { assert size[a] == size[Head(v, p)] <==> v.at[a] == v.at[Head(v, p)]; }
    }
  }

  /** `insert_large_chunk` on a nonempty bin. */
  method InsertBelow(nodes: Nodes, size: Sizes, i: nat, root: Addr, x: Addr, s: nat, ghost v: View)
    returns (nodes': Nodes, ghost v': View)
    requires Valid(nodes, size, i, root, v) && root != 0
    requires 0 < x && x !in v.at && x in size && size[x] == s && InBin(i, s) && s % 8 == 0
    ensures Valid(nodes', size, i, root, v')
    ensures v'.at.Keys == v.at.Keys + {x} && Joined(size, v, v', x)
    ensures nodes'.Keys == nodes.Keys + {x} && forall a | a in nodes && a !in v.at && a != x :: nodes'[a] == nodes[a]
  {
    var t, found, b;
    ghost var p;
    t, found, b, p := FindSize(nodes, size, i, root, s, v);
    HeadFacts(size, i, v, p);
    if !found {
      nodes' := nodes[t := WithChild(nodes[t], b, x)];
      nodes' := nodes'[x := Node(x, x, 0, 0, t, i)];
      v' := PlantView(v, Down(p, b), x);
      PlantValid(nodes, size, i, root, v, p, b, x, nodes');
      PlantJoined(size, v, Down(p, b), x);
    } else {
      RingNeighbour(nodes, size, i, root, v, p);
      var f := nodes[t].fd;
      nodes' := nodes[t := nodes[t].(fd := x)];
      nodes' := nodes'[f := nodes'[f].(bk := x)];
      nodes' := nodes'[x := Node(f, t, 0, 0, 0, i)];
      v' := ChainView(v, p, x);
      ChainValid(nodes, size, i, root, v, p, x, nodes');
      ChainJoined(size, i, v, p, x);
    }
  }

  // ---- Removing a leaf with its ring ----

  ghost function PruneView(v: View, q: Path): View {
    View(v.ring - {q}, map a | a in v.at && v.at[a] != q :: v.at[a])
  }

  ghost predicate Leaf(v: View, q: Path) {
    q in v.ring && Down(q, false) !in v.ring && Down(q, true) !in v.ring
  }

  lemma {:induction false} PruneShape(size: Sizes, i: nat, v: View, q: Path)
    requires Shape(v) && Filed(size, i, v) && Leaf(v, q)
    ensures Shape(PruneView(v, q)) && Filed(size, i, PruneView(v, q))
  {
    var v' := PruneView(v, q);
    forall p | p in v'.ring && p.Down?
      ensures p.up in v'.ring
    {
      assert p.up in v.ring && p == Down(p.up, p.digit);
    }
    assert forall a | a in v'.at :: a in v.at && v'.at[a] == v.at[a] && v.at[a] != q;
  }

  /** The parent's child word is cleared; the chunks of the leaf keep their words. */
  ghost predicate Pruned(nodes: Nodes, v: View, q: Path, nodes': Nodes) {
    && Shape(v) && Stored(nodes, v) && Leaf(v, q) && q.Down? && q.up in v.ring
    && var u := v.ring[q.up][0];
    && u in nodes
    && nodes' == nodes[u := WithChild(nodes[u], q.digit, 0)]
  }

  lemma {:induction false} PrunedAt(nodes: Nodes, i: nat, v: View, q: Path, nodes': Nodes, r: Path)
    requires Pruned(nodes, v, q, nodes')
    requires PathOk(nodes, i, v, r)
    ensures PathOk(nodes', i, PruneView(v, q), r)
    ensures r == q ==> Ring(nodes', i, v.ring[q])
  {
    if r in v.ring {
      var t, u := v.ring[r], v.ring[q.up][0];
      forall k | 0 <= k < |t|
        ensures t[k] in nodes && (t[k] == u ==> k == 0)
      {
        assert t[k] in v.at && v.at[t[k]] == r;
        assert v.at[u] == q.up;
      }
      RingFrame(nodes, i, t, nodes');
      assert t[0] in v.at && v.at[t[0]] == r && v.at[u] == q.up;
      assert r.Down? && r != q ==> r.up in v.ring && r.up != q;
    }
  }

  // ---- Putting a detached ring in the place of a node ----

  /** `x`'s place at `p` goes to the ring `g`. */
  ghost function SwapView(v: View, p: Path, g: seq<Addr>): View
    requires p in v.ring
  {
    View(v.ring[p := g], (map a | a in v.at && v.at[a] != p :: v.at[a]) + (map a | a in g :: p))
  }

  /** The words after the parent, the children and the replacement `g[0]` are relinked. */
  ghost function SwappedNode(nodes: Nodes, v: View, p: Path, r: Addr, xp: Addr, a: Addr): Node
    requires a in nodes
  {
    if a == r then
      nodes[a].(left := Head(v, Down(p, false)), right := Head(v, Down(p, true)), parent := xp)
    else if p.Down? && a == Head(v, p.up) then WithChild(nodes[a], p.digit, r)
    else if a != 0 && (a == Head(v, Down(p, false)) || a == Head(v, Down(p, true))) then nodes[a].(parent := r)
    else nodes[a]
  }

  ghost predicate Swapped(nodes: Nodes, i: nat, v: View, p: Path, g: seq<Addr>, nodes': Nodes) {
    && Shape(v) && Stored(nodes, v) && p in v.ring
    && g != [] && NoRepeats(g)
    && (forall a | a in g :: 0 < a && a in nodes && (a in v.at ==> v.at[a] == p && a != v.ring[p][0]))
    && nodes'.Keys == nodes.Keys
    && (forall a | a in nodes :: nodes'[a] == SwappedNode(nodes, v, p, g[0], ParentOf(i, v, p), a))
  }

  lemma {:induction false} SwapShape(nodes: Nodes, i: nat, v: View, p: Path, g: seq<Addr>, nodes': Nodes)
    requires Swapped(nodes, i, v, p, g, nodes')
    ensures Shape(SwapView(v, p, g)) && Stored(nodes', SwapView(v, p, g))
  {
    var v' := SwapView(v, p, g);
    forall q, k | q in v'.ring && 0 <= k < |v'.ring[q]|
      ensures v'.ring[q][k] in v'.at && v'.at[v'.ring[q][k]] == q
    {
      if q != p {
        assert v.ring[q][k] in v.at && v.at[v.ring[q][k]] == q;
      }
    }
    forall a | a in v'.at
      ensures 0 < a && v'.at[a] in v'.ring && a in v'.ring[v'.at[a]]
    {
      if a !in g {
        assert v.at[a] in v.ring;
      }
    }
  }

  lemma {:induction false} SwappedHeads(v: View, p: Path, g: seq<Addr>, q: Path)
    requires p in v.ring && g != []
    ensures Head(SwapView(v, p, g), q) == if q == p then g[0] else Head(v, q)
  {
  }

  lemma {:induction false} SwappedKeeps(nodes: Nodes, i: nat, v: View, p: Path, g: seq<Addr>, nodes': Nodes, a: Addr)
    requires Swapped(nodes, i, v, p, g, nodes') && a in nodes
    ensures a in nodes' && nodes'[a].fd == nodes[a].fd && nodes'[a].bk == nodes[a].bk && nodes'[a].index == nodes[a].index
    ensures a != g[0] && (forall q :: Head(v, q) != a) ==> nodes'[a] == nodes[a]
  {
    assert nodes'[a] == SwappedNode(nodes, v, p, g[0], ParentOf(i, v, p), a);
  }

  lemma {:induction false} SwappedRing(nodes: Nodes, i: nat, v: View, p: Path, g: seq<Addr>, nodes': Nodes, q: Path)
    requires Swapped(nodes, i, v, p, g, nodes') && q in v.ring
    requires if q == p then Ring(nodes, i, g) else Ring(nodes, i, v.ring[q])
    ensures Ring(nodes', i, SwapView(v, p, g).ring[q])
  {
    assert g[0] in g;
    if q == p {
      forall k | 0 <= k < |g|
        ensures g[k] in nodes && g[k] in nodes'
        ensures nodes'[g[k]].fd == nodes[g[k]].fd && nodes'[g[k]].bk == nodes[g[k]].bk && nodes'[g[k]].index == nodes[g[k]].index
        ensures k > 0 ==> nodes'[g[k]] == nodes[g[k]]
      {
        assert g[k] in g;
        SwappedKeeps(nodes, i, v, p, g, nodes', g[k]);
        NotAHead(v, p, g, g[k]);
      }
      RingFrame(nodes, i, g, nodes');
    } else {
      var t := v.ring[q];
      forall k | 0 <= k < |t|
        ensures t[k] in nodes && t[k] in nodes'
        ensures nodes'[t[k]].fd == nodes[t[k]].fd && nodes'[t[k]].bk == nodes[t[k]].bk && nodes'[t[k]].index == nodes[t[k]].index
        ensures k > 0 ==> nodes'[t[k]] == nodes[t[k]]
      {
        assert t[k] in v.at && v.at[t[k]] == q;
        SwappedKeeps(nodes, i, v, p, g, nodes', t[k]);
        if k > 0 {
          forall r ensures Head(v, r) != t[k] { HeadIsFirst(v, q, k, r); }
        }
      }
      RingFrame(nodes, i, t, nodes');
    }
  }

  lemma {:induction false} NotAHead(v: View, p: Path, g: seq<Addr>, a: Addr)
    requires Shape(v) && p in v.ring && a in g && 0 < a && (a in v.at ==> v.at[a] == p && a != v.ring[p][0])
    ensures forall q :: Head(v, q) != a
  {
    forall q
      ensures Head(v, q) != a
    {
      if q in v.ring { assert v.ring[q][0] in v.at && v.at[v.ring[q][0]] == q; }
    }
  }

  lemma {:induction false} HeadIsFirst(v: View, q: Path, k: nat, r: Path)
    requires Shape(v) && q in v.ring && 0 < k < |v.ring[q]|
    ensures Head(v, r) != v.ring[q][k]
  {
    assert v.ring[q][k] in v.at && v.at[v.ring[q][k]] == q;
    if r in v.ring {
      assert v.ring[r][0] in v.at && v.at[v.ring[r][0]] == r;
      assert NoRepeats(v.ring[q]);
    }
  }

  lemma {:induction false} DistinctHeads(v: View, q: Path, r: Path)
    requires Shape(v) && q != r && Head(v, q) != 0
    ensures Head(v, q) != Head(v, r) && q in v.ring && Head(v, q) in v.at && v.at[Head(v, q)] == q
  {
    assert v.ring[q][0] in v.at && v.at[v.ring[q][0]] == q;
    if r in v.ring {
      assert v.ring[r][0] in v.at && v.at[v.ring[r][0]] == r;
    }
  }

  lemma {:induction false} SwappedLink(nodes: Nodes, i: nat, v: View, p: Path, g: seq<Addr>, nodes': Nodes, q: Path)
    requires Swapped(nodes, i, v, p, g, nodes') && q in v.ring
    requires LinkedAt(nodes, i, v, q)
    ensures LinkedAt(nodes', i, SwapView(v, p, g), q)
  {
    var v' := SwapView(v, p, g);
    SwappedHeads(v, p, g, q);
    SwappedHeads(v, p, g, Down(q, false));
    SwappedHeads(v, p, g, Down(q, true));
    if q.Down? { SwappedHeads(v, p, g, q.up); }
    assert g[0] in g;
    NotAHead(v, p, g, g[0]);
    assert v.ring[q][0] in v.at;
    if q != p {
      if q != Down(p, false) { DistinctHeads(v, q, Down(p, false)); }
      if q != Down(p, true) { DistinctHeads(v, q, Down(p, true)); }
      if p.Down? && q != p.up { DistinctHeads(v, q, p.up); }
    }
  }

  // ---- unlink_large_chunk ----

  /** A ring that may take the place of the node at `p`: detached, and without children. */
  ghost predicate Detached(nodes: Nodes, v: View, p: Path, g: seq<Addr>) {
    && Shape(v) && Stored(nodes, v) && p in v.ring
    && g != [] && NoRepeats(g)
    && (forall a | a in g :: 0 < a && a in nodes && (a in v.at ==> v.at[a] == p && a != v.ring[p][0]))
    && g[0] in nodes && nodes[g[0]].left == 0 && nodes[g[0]].right == 0
  }

  lemma {:induction false} RelinkNeighbours(nodes: Nodes, i: nat, v: View, p: Path, g: seq<Addr>)
    requires Detached(nodes, v, p, g) && i < NTREEBINS && LinkedAt(nodes, i, v, p)
    requires p.Down? ==> LinkedAt(nodes, i, v, p.up)
    ensures var x, r := Head(v, p), g[0]; var xp, c0, c1 := nodes[x].parent, nodes[x].left, nodes[x].right;
            && x != r && x != xp && r != xp && r != c0 && r != c1 && x != c0 && x != c1
            && (c0 != 0 ==> c0 in nodes && c0 != c1 && c0 != xp)
            && (c1 != 0 ==> c1 in nodes && c1 != xp)
            && (p.Down? ==> xp in nodes && Head(v, Root) != x && (nodes[xp].left == x <==> !p.digit))
  {
    var x, r := Head(v, p), g[0];
    assert r in g;
    NotAHead(v, p, g, r);
    assert v.ring[p][0] in v.at;
    DistinctHeads(v, p, Down(p, false));
    DistinctHeads(v, p, Down(p, true));
    if Head(v, Down(p, false)) != 0 {
      DistinctHeads(v, Down(p, false), Down(p, true));
      if p.Down? { DistinctHeads(v, Down(p, false), p.up); }
    }
    if Head(v, Down(p, true)) != 0 {
      if p.Down? { DistinctHeads(v, Down(p, true), p.up); }
    }
    if p.Down? {
      assert p.up in v.ring;
      DistinctHeads(v, p, p.up);
      DistinctHeads(v, p, Root);
      DistinctHeads(v, p, Down(p.up, !p.digit));
    }
  }

  /** Relinking `x`'s parent and children to its replacement `r`. */
  method Relink(nodes: Nodes, i: nat, root: Addr, x: Addr, r: Addr, ghost v: View, ghost p: Path, ghost g: seq<Addr>)
    returns (nodes': Nodes, root': Addr)
    requires Detached(nodes, v, p, g) && i < NTREEBINS && LinkedAt(nodes, i, v, p)
    requires p.Down? ==> LinkedAt(nodes, i, v, p.up)
    requires x == Head(v, p) && root == Head(v, Root) && r == g[0]
    ensures Swapped(nodes, i, v, p, g, nodes')
    ensures root' == if p == Root then r else root
  {
    RelinkNeighbours(nodes, i, v, p, g);
    var xp := nodes[x].parent;
    nodes', root' := nodes, root;
    if x == root {
      root' := r;
    } else if nodes[xp].left == x {
      nodes' := nodes'[xp := nodes'[xp].(left := r)];
    } else {
      nodes' := nodes'[xp := nodes'[xp].(right := r)];
    }
    nodes' := nodes'[r := nodes'[r].(parent := xp)];
    var c0 := nodes'[x].left;
    if c0 != 0 {
      nodes' := nodes'[r := nodes'[r].(left := c0)];
      nodes' := nodes'[c0 := nodes'[c0].(parent := r)];
    }
    var c1 := nodes'[x].right;
    if c1 != 0 {
      nodes' := nodes'[r := nodes'[r].(right := c1)];
      nodes' := nodes'[c1 := nodes'[c1].(parent := r)];
    }
    assert nodes'.Keys == nodes.Keys;
    forall a | a in nodes
      ensures nodes'[a] == SwappedNode(nodes, v, p, g[0], ParentOf(i, v, p), a)
    {
    }
  }

  lemma {:induction false} NodeWords(nodes: Nodes, size: Sizes, i: nat, root: Addr, v: View, p: Path)
    requires Valid(nodes, size, i, root, v) && p in v.ring
    ensures Head(v, p) in nodes && Head(v, p) in v.at && v.at[Head(v, p)] == p && Depth(p) <= KeyLen(i)
    ensures nodes[Head(v, p)].left == Head(v, Down(p, false)) && nodes[Head(v, p)].right == Head(v, Down(p, true))
    ensures nodes[Head(v, p)].parent == ParentOf(i, v, p) && nodes[Head(v, p)].parent != 0
    ensures Down(p, false) in v.ring <==> Head(v, Down(p, false)) != 0
    ensures Down(p, true) in v.ring <==> Head(v, Down(p, true)) != 0
  {
    HeadFacts(size, i, v, p);
    assert PathOk(nodes, i, v, p);
    if Down(p, false) in v.ring { HeadFacts(size, i, v, Down(p, false)); }
    if Down(p, true) in v.ring { HeadFacts(size, i, v, Down(p, true)); }
    if p.Down? {
      assert p.up in v.ring;
      HeadFacts(size, i, v, p.up);
    }
  }

  /** `r` is the node at `q`, strictly below `p`, and child `b` of node `u`. */
  ghost predicate Below(v: View, p: Path, q: Path, r: Addr, u: Addr, b: bool) {
    && q in v.ring && r == Head(v, q) && Under(q, p) && q != p
    && q.Down? && q.up in v.ring && u == Head(v, q.up) && b == q.digit
  }

  lemma {:induction false} StepBelow(nodes: Nodes, size: Sizes, i: nat, root: Addr, v: View, p: Path, q: Path, b: bool)
    requires Valid(nodes, size, i, root, v) && q in v.ring && Under(q, p) && Head(v, Down(q, b)) != 0
    ensures Below(v, p, Down(q, b), Head(v, Down(q, b)), Head(v, q), b)
    ensures Depth(Down(q, b)) <= KeyLen(i)
  {
    UnderDepth(q, p);
    HeadFacts(size, i, v, Down(q, b));
  }

  /** The rightmost leaf strictly below `x`, with the child word that points to it; 0 if `x` is a leaf. */
  method RightmostLeaf(nodes: Nodes, size: Sizes, i: nat, root: Addr, x: Addr, ghost v: View, ghost p: Path)
    returns (r: Addr, u: Addr, b: bool, ghost q: Path)
    requires Valid(nodes, size, i, root, v) && p in v.ring && x == Head(v, p)
    ensures r == 0 <==> Leaf(v, p)
    ensures r != 0 ==> Leaf(v, q) && Below(v, p, q, r, u, b)
  {
    NodeWords(nodes, size, i, root, v, p);
    u, b, q := x, true, p;
    r := nodes[x].right;
    if r == 0 {
      b := false;
      r := nodes[x].left;
      if r == 0 {
        return;
      }
    }
    StepBelow(nodes, size, i, root, v, p, q, b);
    q := Down(p, b);
    while true
      invariant Below(v, p, q, r, u, b) && Depth(q) <= KeyLen(i)
      decreases KeyLen(i) - Depth(q)
    {
      NodeWords(nodes, size, i, root, v, q);
      var c, cb := nodes[r].right, true;
      if c == 0 {
        c, cb := nodes[r].left, false;
      }
      if c == 0 {
        return;
      }
      StepBelow(nodes, size, i, root, v, p, q, cb);
      u, b, r, q := r, cb, c, Down(q, cb);
    }
  }

  // -- The last chunk of a size, at a leaf --

  lemma {:induction false} PruneValid(nodes: Nodes, size: Sizes, i: nat, root: Addr, v: View, q: Path, nodes': Nodes)
    requires Valid(nodes, size, i, root, v) && Pruned(nodes, v, q, nodes')
    ensures Valid(nodes', size, i, root, PruneView(v, q))
  {
    PruneShape(size, i, v, q);
    forall r
      ensures PathOk(nodes', i, PruneView(v, q), r)
    {
      assert PathOk(nodes, i, v, r);
      PrunedAt(nodes, i, v, q, nodes', r);
    }
  }

  lemma {:induction false} LoneRoot(v: View, p: Path)
    requires Shape(v) && Leaf(v, Root) && p in v.ring
    ensures p == Root
    decreases p
  {
    if p.Down? {
      assert p.up in v.ring && p == Down(p.up, p.digit);
      LoneRoot(v, p.up);
    }
  }

  lemma {:induction false} EmptyValid(nodes: Nodes, size: Sizes, i: nat, root: Addr, v: View)
    requires Valid(nodes, size, i, root, v) && Leaf(v, Root)
    ensures PruneView(v, Root) == Empty && Valid(nodes, size, i, 0, Empty)
  {
    forall p | p in v.ring ensures p == Root { LoneRoot(v, p); }
    assert (v.ring - {Root}).Keys == {};
    forall a | a in v.at ensures v.at[a] == Root {}
  }

  lemma {:induction false} PruneMembers(v: View, q: Path)
    requires Shape(v) && q in v.ring && |v.ring[q]| == 1
    ensures PruneView(v, q).at.Keys == v.at.Keys - {v.ring[q][0]}
  {
    var x := v.ring[q][0];
    assert x in v.at && v.at[x] == q;
    forall a | a in v.at && v.at[a] == q
      ensures a == x
    {
      assert a in v.ring[q];
    }
  }

  // -- A chunk further along its ring --

  ghost function UnchainView(v: View, p: Path, k: nat): View
    requires p in v.ring && 0 < k < |v.ring[p]|
  {
    View(v.ring[p := Removed(v.ring[p], k)], v.at - {v.ring[p][k]})
  }

  /** The neighbours of chunk `k` of the ring at `p` are linked to each other. */
  ghost predicate Bypassed(nodes: Nodes, i: nat, v: View, p: Path, k: nat, nodes': Nodes) {
    && Shape(v) && Stored(nodes, v) && p in v.ring && k < |v.ring[p]| && |v.ring[p]| > 1 && Ring(nodes, i, v.ring[p])
    && var r := v.ring[p];
    && var f, b := r[Next(k, |r|)], r[Prev(k, |r|)];
    && f in nodes && b in nodes && f in v.at && v.at[f] == p && b in v.at && v.at[b] == p
    && var nodes1 := nodes[f := nodes[f].(bk := b)];
    && nodes' == nodes1[b := nodes1[b].(fd := f)]
  }

  lemma {:induction false} BypassedAt(nodes: Nodes, i: nat, v: View, p: Path, k: nat, nodes': Nodes, q: Path)
    requires Bypassed(nodes, i, v, p, k, nodes') && PathOk(nodes, i, v, q)
    ensures q == p ==> Ring(nodes', i, Removed(v.ring[p], k))
    ensures q in v.ring && q != p ==> Ring(nodes', i, v.ring[q])
    ensures q in v.ring ==> LinkedAt(nodes', i, v, q)
  {
    if q in v.ring {
      var r, t := v.ring[p], v.ring[q];
      if q == p {
        var f, b := r[Next(k, |r|)], r[Prev(k, |r|)];
        RingRemove(nodes, i, r, k, f, b, nodes[f := nodes[f].(bk := b)], nodes');
      } else {
        forall j | 0 <= j < |t|
          ensures t[j] in nodes && t[j] in nodes' && nodes'[t[j]] == nodes[t[j]]
        {
          assert t[j] in v.at && v.at[t[j]] == q;
        }
        RingFrame(nodes, i, t, nodes');
      }
    }
  }

  lemma {:induction false} UnchainShape(size: Sizes, i: nat, v: View, p: Path, k: nat)
    requires Shape(v) && Filed(size, i, v) && p in v.ring && 0 < k < |v.ring[p]|
    ensures Shape(UnchainView(v, p, k)) && Filed(size, i, UnchainView(v, p, k))
  {
    var r, v' := v.ring[p], UnchainView(v, p, k);
    assert r[k] in v.at && v.at[r[k]] == p;
    forall a
      ensures a in v'.ring[p] <==> a in r && a != r[k]
    {
      RemovedElements(r, k, a);
    }
    RemovedElements(r, k, 0);
    forall q, j | q in v'.ring && 0 <= j < |v'.ring[q]|
      ensures v'.ring[q][j] in v'.at && v'.at[v'.ring[q][j]] == q
    {
      if q == p {
        assert v'.ring[p][j] in v'.ring[p];
      } else {
        assert v.ring[q][j] in v.at && v.at[v.ring[q][j]] == q;
      }
    }
  }

  lemma {:induction false} UnchainedHeads(v: View, p: Path, k: nat, q: Path)
    requires p in v.ring && 0 < k < |v.ring[p]|
    ensures Head(UnchainView(v, p, k), q) == Head(v, q)
  {
    assert Removed(v.ring[p], k)[0] == v.ring[p][0];
  }

  lemma {:induction false} UnchainValid(nodes: Nodes, size: Sizes, i: nat, root: Addr, v: View, p: Path, k: nat, nodes': Nodes)
    requires Valid(nodes, size, i, root, v) && Bypassed(nodes, i, v, p, k, nodes') && k > 0
    ensures Valid(nodes', size, i, root, UnchainView(v, p, k))
  {
    var v' := UnchainView(v, p, k);
    UnchainShape(size, i, v, p, k);
    UnchainedHeads(v, p, k, Root);
    forall q
      ensures PathOk(nodes', i, v', q)
    {
      assert PathOk(nodes, i, v, q);
      BypassedAt(nodes, i, v, p, k, nodes', q);
      UnchainedHeads(v, p, k, q);
      UnchainedHeads(v, p, k, Down(q, false));
      UnchainedHeads(v, p, k, Down(q, true));
      if q.Down? { UnchainedHeads(v, p, k, q.up); }
    }
  }

  // -- A tree node whose ring neighbour, or a leaf below it, takes over --

  ghost predicate SwapReadyAt(nodes: Nodes, i: nat, v: View, p: Path, g: seq<Addr>, q: Path) {
    q in v.ring ==> LinkedAt(nodes, i, v, q) && (if q == p then Ring(nodes, i, g) else Ring(nodes, i, v.ring[q]))
  }

  /** Everything is in order but for the ring at `p`, and `g` is ready to take its place. */
  ghost predicate SwapReady(nodes: Nodes, size: Sizes, i: nat, v: View, p: Path, g: seq<Addr>) {
    && i < NTREEBINS
    && Detached(nodes, v, p, g)
    && Filed(size, i, SwapView(v, p, g))
    && forall q {:trigger SwapReadyAt(nodes, i, v, p, g, q)} :: SwapReadyAt(nodes, i, v, p, g, q)
  }

  lemma {:induction false} SwapValid(nodes: Nodes, size: Sizes, i: nat, v: View, p: Path, g: seq<Addr>, nodes': Nodes)
    requires SwapReady(nodes, size, i, v, p, g) && Swapped(nodes, i, v, p, g, nodes')
    ensures Valid(nodes', size, i, if p == Root then g[0] else Head(v, Root), SwapView(v, p, g))
  {
    SwapShape(nodes, i, v, p, g, nodes');
    forall q
      ensures PathOk(nodes', i, SwapView(v, p, g), q)
    {
      assert SwapReadyAt(nodes, i, v, p, g, q);
      if q in v.ring {
        SwappedRing(nodes, i, v, p, g, nodes', q);
        SwappedLink(nodes, i, v, p, g, nodes', q);
      }
    }
    SwappedHeads(v, p, g, Root);
  }

  /** Installing the ring `g` in place of the node `x` at `p`. */
  method Replace(nodes: Nodes, size: Sizes, i: nat, root: Addr, x: Addr, r: Addr, ghost v: View, ghost p: Path, ghost g: seq<Addr>)
    returns (nodes': Nodes, root': Addr)
    requires SwapReady(nodes, size, i, v, p, g) && x == Head(v, p) && root == Head(v, Root) && r == g[0]
    ensures Valid(nodes', size, i, root', SwapView(v, p, g))
    ensures nodes'.Keys == nodes.Keys && forall a | a in nodes && a !in v.at && a !in g :: nodes'[a] == nodes[a]
  {
    assert SwapReadyAt(nodes, i, v, p, g, p);
    if p.Down? {
      assert p.up in v.ring;
      assert SwapReadyAt(nodes, i, v, p, g, p.up);
    }
    nodes', root' := Relink(nodes, i, root, x, r, v, p, g);
    SwapValid(nodes, size, i, v, p, g, nodes');
    forall a | a in nodes && a !in v.at && a !in g
      ensures a in nodes' && nodes'[a] == nodes[a]
    {
      NoHeadOutside(v, a);
      SwappedKeeps(nodes, i, v, p, g, nodes', a);
    }
  }

  lemma {:induction false} NoHeadOutside(v: View, a: Addr)
    requires Shape(v) && a !in v.at
    ensures a != 0 ==> forall q :: Head(v, q) != a
    ensures forall q | q in v.ring :: Head(v, q) != a
  {
    forall q | q in v.ring
      ensures Head(v, q) != a
    {
      assert v.ring[q][0] in v.at;
    }
  }

  lemma {:induction false} SwapFiled(size: Sizes, i: nat, v: View, p: Path, g: seq<Addr>, s: nat)
    requires Shape(v) && Filed(size, i, v) && p in v.ring
    requires InBin(i, s) && s % 8 == 0 && Under(Key(i, s), p)
    requires forall a | a in g :: a in size && size[a] == s
    requires forall a | a in v.at && v.at[a] != p :: size[a] != s
    ensures Filed(size, i, SwapView(v, p, g))
  {
  }

  lemma {:induction false} RingMembers(v: View, p: Path, a: Addr)
    requires Shape(v) && p in v.ring
    ensures a in v.ring[p] <==> a in v.at && v.at[a] == p
  {
    if a in v.ring[p] {
      var k :| 0 <= k < |v.ring[p]| && v.ring[p][k] == a;
      assert v.ring[p][k] in v.at;
    }
  }

  lemma {:induction false} TakeoverFiled(size: Sizes, i: nat, v: View, p: Path)
    requires Shape(v) && Filed(size, i, v) && p in v.ring && |v.ring[p]| > 1
    ensures var v' := SwapView(v, p, Removed(v.ring[p], 0));
            Filed(size, i, v') && v'.at.Keys == v.at.Keys - {v.ring[p][0]}
  {
    var r := v.ring[p];
    var g := Removed(r, 0);
    assert r[0] in v.at && v.at[r[0]] == p;
    forall a
      ensures a in g <==> a in v.at && v.at[a] == p && a != r[0]
    {
      RemovedElements(r, 0, a);
      RingMembers(v, p, a);
    }
    SwapFiled(size, i, v, p, g, size[r[0]]);
  }

  lemma {:induction false} TakeoverDetached(nodes: Nodes, i: nat, v: View, p: Path, nodes1: Nodes)
    requires Bypassed(nodes, i, v, p, 0, nodes1)
    ensures Detached(nodes1, v, p, Removed(v.ring[p], 0))
  {
    var r := v.ring[p];
    var g := Removed(r, 0);
    RemovedElements(r, 0, 0);
    assert RingAt(nodes, i, r, |r| - 1);
    forall a | a in g
      ensures 0 < a && a in nodes1 && a in v.at && v.at[a] == p && a != r[0]
    {
      RemovedElements(r, 0, a);
      RingMembers(v, p, a);
    }
    assert g[0] in g;
  }

  /** After the first chunk of a ring is bypassed, its `bk` neighbour can take its place in the tree. */
  lemma {:induction false} TakeoverReady(nodes: Nodes, size: Sizes, i: nat, root: Addr, v: View, p: Path, nodes1: Nodes)
    requires Valid(nodes, size, i, root, v) && Bypassed(nodes, i, v, p, 0, nodes1)
    ensures SwapReady(nodes1, size, i, v, p, Removed(v.ring[p], 0))
    ensures SwapView(v, p, Removed(v.ring[p], 0)).at.Keys == v.at.Keys - {v.ring[p][0]}
  {
    TakeoverDetached(nodes, i, v, p, nodes1);
    TakeoverFiled(size, i, v, p);
    forall q
      ensures SwapReadyAt(nodes1, i, v, p, Removed(v.ring[p], 0), q)
    {
      assert PathOk(nodes, i, v, q);
      BypassedAt(nodes, i, v, p, 0, nodes1, q);
    }
  }

  lemma {:induction false} GraftDetached(nodes: Nodes, size: Sizes, i: nat, root: Addr, v: View, p: Path, q: Path, nodes1: Nodes)
    requires Valid(nodes, size, i, root, v) && Pruned(nodes, v, q, nodes1)
    requires p in v.ring && q != p && Valid(nodes1, size, i, root, PruneView(v, q))
    ensures Detached(nodes1, PruneView(v, q), p, v.ring[q])
  {
    var v1, g := PruneView(v, q), v.ring[q];
    assert PathOk(nodes, i, v, q);
    forall a | a in g
      ensures 0 < a && a in nodes1 && a !in v1.at
    {
      RingMembers(v, q, a);
    }
    assert g[0] in g;
    var u := v.ring[q.up][0];
    assert u in v.at && v.at[u] == q.up;
    assert v.at[g[0]] == q;
  }

  lemma {:induction false} GraftFiled(size: Sizes, i: nat, v: View, p: Path, q: Path)
    requires Shape(v) && Filed(size, i, v) && Leaf(v, q) && p in v.ring && Under(q, p) && q != p
    ensures Filed(size, i, SwapView(PruneView(v, q), p, v.ring[q]))
  {
    var v1, g := PruneView(v, q), v.ring[q];
    PruneShape(size, i, v, q);
    HeadFacts(size, i, v, q);
    var s := size[g[0]];
    UnderTransitive(Key(i, s), q, p);
    forall a | a in g
      ensures a in v.at && v.at[a] == q && a in size && size[a] == s
    {
      RingMembers(v, q, a);
    }
    SwapFiled(size, i, v1, p, g, s);
  }

  lemma {:induction false} GraftMembers(v: View, p: Path, q: Path, x: Addr)
    requires Shape(v) && p in v.ring && q in v.ring && v.ring[p] == [x] && q != p
    ensures SwapView(PruneView(v, q), p, v.ring[q]).at.Keys == v.at.Keys - {x}
  {
    forall a
      ensures a in SwapView(PruneView(v, q), p, v.ring[q]).at.Keys <==> a in v.at.Keys - {x}
    {
      RingMembers(v, p, a);
      RingMembers(v, q, a);
    }
  }

  /** After a leaf below `p` is cut off, its ring can take the place of the lone chunk at `p`. */
  lemma {:induction false} GraftReady(nodes: Nodes, size: Sizes, i: nat, root: Addr, v: View, p: Path, q: Path, nodes1: Nodes)
    requires Valid(nodes, size, i, root, v) && Pruned(nodes, v, q, nodes1)
    requires p in v.ring && Under(q, p) && q != p
    ensures SwapReady(nodes1, size, i, PruneView(v, q), p, v.ring[q])
    ensures Head(PruneView(v, q), p) == Head(v, p) && Head(PruneView(v, q), Root) == root
  {
    var v1, g := PruneView(v, q), v.ring[q];
    PruneValid(nodes, size, i, root, v, q, nodes1);
    GraftDetached(nodes, size, i, root, v, p, q, nodes1);
    GraftFiled(size, i, v, p, q);
    forall r
      ensures SwapReadyAt(nodes1, i, v1, p, g, r)
    {
      assert PathOk(nodes1, i, v1, r);
      assert PathOk(nodes, i, v, q);
      PrunedAt(nodes, i, v, q, nodes1, q);
    }
  }

  lemma {:induction false} LeafParent(nodes: Nodes, size: Sizes, i: nat, root: Addr, v: View, p: Path)
    requires Valid(nodes, size, i, root, v) && p in v.ring
    ensures Head(v, p) == root <==> p == Root
    ensures p.Down? ==>
              && p.up in v.ring && Head(v, p) in nodes && nodes[Head(v, p)].parent == Head(v, p.up)
              && Head(v, p.up) in nodes && Head(v, p.up) in v.at
              && (nodes[Head(v, p.up)].left != Head(v, p) <==> p.digit)
  {
    NodeWords(nodes, size, i, root, v, p);
    if p.Down? {
      assert p.up in v.ring;
      NodeWords(nodes, size, i, root, v, p.up);
      DistinctHeads(v, p, Root);
      DistinctHeads(v, p, Down(p.up, !p.digit));
    }
  }

  /** A lone chunk with nothing below it leaves its slot or its parent's child word null. */
  method UnlinkLeaf(nodes: Nodes, size: Sizes, i: nat, root: Addr, x: Addr, ghost v: View, ghost p: Path)
    returns (nodes': Nodes, root': Addr)
    requires Valid(nodes, size, i, root, v) && Leaf(v, p) && v.ring[p] == [x]
    ensures Valid(nodes', size, i, root', PruneView(v, p))
    ensures nodes'.Keys == nodes.Keys && forall a | a in nodes && a !in v.at :: nodes'[a] == nodes[a]
  {
    LeafParent(nodes, size, i, root, v, p);
    if x == root {
      nodes', root' := nodes, 0;
      EmptyValid(nodes, size, i, root, v);
    } else {
      var xp := nodes[x].parent;
      if nodes[xp].left == x {
        nodes' := nodes[xp := nodes[xp].(left := 0)];
      } else {
        nodes' := nodes[xp := nodes[xp].(right := 0)];
      }
      root' := root;
      PruneValid(nodes, size, i, root, v, p, nodes');
    }
  }

  lemma {:induction false} PruneLeft(v: View, p: Path, x: Addr)
    requires Shape(v) && p in v.ring && v.ring[p] == [x]
    ensures Left(v, PruneView(v, p), x)
  {
    var v' := PruneView(v, p);
    assert v.ring[p][0] == x;
    forall a
      ensures LeftAt(v, v', x, a)
    {
      if a in v.at {
        LineMembers(v, x, a);
        if v.at[a] == p { assert a in v.ring[p]; }
      }
    }
  }

  lemma {:induction false} GraftLeft(v: View, p: Path, q: Path, x: Addr)
    requires Shape(v) && p in v.ring && q in v.ring && p != q && v.ring[p] == [x]
    ensures Left(v, SwapView(PruneView(v, q), p, v.ring[q]), x)
  {
    var v' := SwapView(PruneView(v, q), p, v.ring[q]);
    assert v.ring[p][0] == x;
    forall a
      ensures LeftAt(v, v', x, a)
    {
      if a in v.at && a != x {
        LineMembers(v, x, a);
        assert a in v.ring[v.at[a]];
        if v.at[a] != q && a in v.ring[q] { RingMembers(v, q, a); }
      }
    }
  }

  lemma {:induction false} UnchainLeft(v: View, p: Path, n: nat)
    requires Shape(v) && p in v.ring && 0 < n < |v.ring[p]|
    ensures Left(v, UnchainView(v, p, n), v.ring[p][n])
  {
    var v', x := UnchainView(v, p, n), v.ring[p][n];
    AgesRemoved(v.ring[p], n);
    forall a
      ensures LeftAt(v, v', x, a)
    {
      if a in v.at { LineMembers(v, x, a); }
    }
  }

  lemma {:induction false} TakeoverLeft(v: View, p: Path)
    requires Shape(v) && p in v.ring && |v.ring[p]| > 1
    ensures Left(v, SwapView(v, p, Removed(v.ring[p], 0)), v.ring[p][0])
  {
    var r := v.ring[p];
    var v', x, g := SwapView(v, p, Removed(r, 0)), r[0], Removed(r, 0);
    AgesRemoved(r, 0);
    forall a
      ensures LeftAt(v, v', x, a)
    {
      if a in v.at && a != x {
        LineMembers(v, x, a);
        RemovedElements(r, 0, a);
        assert a in v.ring[v.at[a]];
        if v.at[a] != p && a in r { RingMembers(v, p, a); }
      }
    }
  }

  /** The case of a chunk that is the only one of its size. */
  method UnlinkLone(nodes: Nodes, size: Sizes, i: nat, root: Addr, x: Addr, ghost v: View, ghost p: Path)
    returns (nodes': Nodes, root': Addr, ghost v': View)
    requires Valid(nodes, size, i, root, v) && p in v.ring && v.ring[p] == [x]
    ensures Valid(nodes', size, i, root', v')
    ensures v'.at.Keys == v.at.Keys - {x} && Left(v, v', x)
    ensures nodes'.Keys == nodes.Keys && forall a | a in nodes && a !in v.at :: nodes'[a] == nodes[a]
  {
    var r, u, b;
    ghost var q;
    r, u, b, q := RightmostLeaf(nodes, size, i, root, x, v, p);
    if r == 0 {
      nodes', root' := UnlinkLeaf(nodes, size, i, root, x, v, p);
      v' := PruneView(v, p);
      PruneMembers(v, p);
      PruneLeft(v, p, x);
    } else {
      NodeWords(nodes, size, i, root, v, q.up);
      NodeWords(nodes, size, i, root, v, q);
      var nodes1 := nodes[u := WithChild(nodes[u], b, 0)];
      GraftReady(nodes, size, i, root, v, p, q, nodes1);
      v' := SwapView(PruneView(v, q), p, v.ring[q]);
      nodes', root' := Replace(nodes1, size, i, root, x, r, PruneView(v, q), p, v.ring[q]);
      GraftMembers(v, p, q, x);
      GraftLeft(v, p, q, x);
      forall a | a in v.ring[q] ensures a in v.at { RingMembers(v, q, a); }
    }
  }

  /** The case of a chunk with equals: its ring closes, and its `bk` neighbour inherits its place if it had one. */
  method UnlinkChained(nodes: Nodes, size: Sizes, i: nat, root: Addr, x: Addr, ghost v: View, ghost p: Path, ghost n: nat)
    returns (nodes': Nodes, root': Addr, ghost v': View)
    requires Valid(nodes, size, i, root, v) && p in v.ring && n < |v.ring[p]| && |v.ring[p]| > 1 && v.ring[p][n] == x
    requires x in nodes && Ring(nodes, i, v.ring[p]) && (nodes[x].parent != 0 <==> n == 0)
    ensures Valid(nodes', size, i, root', v')
    ensures v'.at.Keys == v.at.Keys - {x} && Left(v, v', x)
    ensures nodes'.Keys == nodes.Keys && forall a | a in nodes && a !in v.at :: nodes'[a] == nodes[a]
  {
    ghost var r := v.ring[p];
    assert RingAt(nodes, i, r, n);
    assert r[Next(n, |r|)] in v.at && r[Prev(n, |r|)] in v.at;
    var f, b := nodes[x].fd, nodes[x].bk;
    var nodes1 := nodes[f := nodes[f].(bk := b)];
    nodes1 := nodes1[b := nodes1[b].(fd := f)];
    assert Bypassed(nodes, i, v, p, n, nodes1);
    if nodes[x].parent == 0 {
      nodes', root', v' := nodes1, root, UnchainView(v, p, n);
      UnchainValid(nodes, size, i, root, v, p, n, nodes');
      UnchainLeft(v, p, n);
    } else {
      TakeoverReady(nodes, size, i, root, v, p, nodes1);
      v' := SwapView(v, p, Removed(r, 0));
      TakeoverLeft(v, p);
      nodes', root' := Replace(nodes1, size, i, root, x, b, v, p, Removed(r, 0));
    }
  }

  /** `unlink_large_chunk`, apart from the bin's map bit. */
  method Unlink(nodes: Nodes, size: Sizes, i: nat, root: Addr, x: Addr, ghost v: View)
    returns (nodes': Nodes, root': Addr, ghost v': View)
    requires Valid(nodes, size, i, root, v) && x in v.at && x in nodes
    ensures Valid(nodes', size, i, root', v')
    ensures v'.at.Keys == v.at.Keys - {x} && Left(v, v', x)
    ensures nodes'.Keys == nodes.Keys && forall a | a in nodes && a !in v.at :: nodes'[a] == nodes[a]
  {
    ghost var p := v.at[x];
    ghost var r := v.ring[p];
    ghost var n: nat :| n < |r| && r[n] == x;
    assert PathOk(nodes, i, v, p) && RingAt(nodes, i, r, n);
    NodeWords(nodes, size, i, root, v, p);
    assert NoRepeats(r);
    if nodes[x].bk != x {
      nodes', root', v' := UnlinkChained(nodes, size, i, root, x, v, p, n);
    } else {
      nodes', root', v' := UnlinkLone(nodes, size, i, root, x, v, p);
    }
  }
}
