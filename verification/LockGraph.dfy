/** Walks in a lock-order graph: reachability, cycles, and what one more edge does to them. */
module LockGraph {
  type Lock = nat

  /** For each lock, the locks acquired directly after it. */
  type Graph = map<Lock, seq<Lock>>

  ghost predicate Edge(g: Graph, a: Lock, b: Lock) {
    a in g && b in g[a]
  }

  ghost predicate StepAt(g: Graph, w: seq<Lock>, i: int) {
    0 <= i < |w| - 1 ==> Edge(g, w[i], w[i + 1])
  }

  ghost predicate Walk(g: Graph, w: seq<Lock>) {
    w != [] && forall i {:trigger StepAt(g, w, i)} :: StepAt(g, w, i)
  }

  function Last(w: seq<Lock>): Lock
    requires w != []
  {
    w[|w| - 1]
  }

  ghost predicate Connects(g: Graph, w: seq<Lock>, a: Lock, b: Lock) {
    Walk(g, w) && w[0] == a && Last(w) == b
  }

  /** `b` is `a` or is reached from it along edges. */
  ghost predicate Reach(g: Graph, a: Lock, b: Lock) {
    exists w :: Connects(g, w, a, b)
  }

  ghost predicate Acyclic(g: Graph) {
    forall w | Walk(g, w) && |w| > 1 :: w[0] != Last(w)
  }

  /** The walk has come to a marked lock, or back to one it has passed. */
  ghost predicate Caught(marks: set<Lock>, w: seq<Lock>)
    requires w != []
  {
    Last(w) in marks || exists i :: 0 <= i < |w| - 1 && w[i] == Last(w)
  }

  ghost predicate CaughtFrom(g: Graph, marks: set<Lock>, a: Lock, w: seq<Lock>) {
    Walk(g, w) && w[0] == a && Caught(marks, w)
  }

  /** Some walk from `a` is caught: it meets a marked lock or a cycle. */
  ghost predicate Trapped(g: Graph, marks: set<Lock>, a: Lock) {
    exists w :: CaughtFrom(g, marks, a, w)
  }

  lemma {:induction false} WalkCons(g: Graph, a: Lock, w: seq<Lock>)
    requires Walk(g, w) && Edge(g, a, w[0])
    ensures Walk(g, [a] + w) && Last([a] + w) == Last(w)
  {
    var v := [a] + w;
    forall i
      ensures StepAt(g, v, i)
    {
      assert StepAt(g, w, i - 1);
    }
  }

  lemma {:induction false} WalkSnoc(g: Graph, w: seq<Lock>, b: Lock)
    requires Walk(g, w) && Edge(g, Last(w), b)
    ensures Walk(g, w + [b]) && Last(w + [b]) == b
  {
    var v := w + [b];
    forall i
      ensures StepAt(g, v, i)
    {
      assert StepAt(g, w, i);
    }
  }

  lemma {:induction false} WalkDrop(g: Graph, w: seq<Lock>, k: nat)
    requires Walk(g, w) && k < |w|
    ensures Walk(g, w[k..]) && Last(w[k..]) == Last(w)
  {
    var v := w[k..];
    forall i
      ensures StepAt(g, v, i)
    {
      assert StepAt(g, w, k + i);
    }
  }

  lemma {:induction false} WalkTail(g: Graph, w: seq<Lock>)
    requires Walk(g, w) && |w| > 1
    ensures Edge(g, w[0], w[1]) && Walk(g, w[1..]) && Last(w[1..]) == Last(w) && w[1..][0] == w[1]
  {
    WalkDrop(g, w, 1);
    assert StepAt(g, w, 0);
  }

  lemma {:induction false} ReachSelf(g: Graph, a: Lock)
    ensures Reach(g, a, a)
  {
    assert Connects(g, [a], a, a);
  }

  lemma {:induction false} ReachCons(g: Graph, a: Lock, b: Lock, c: Lock)
    requires Edge(g, a, b) && Reach(g, b, c)
    ensures Reach(g, a, c)
  {
    var w :| Connects(g, w, b, c);
    WalkCons(g, a, w);
    assert Connects(g, [a] + w, a, c);
  }

  lemma {:induction false} ReachAlong(g: Graph, w: seq<Lock>, c: Lock)
    requires Walk(g, w) && Reach(g, Last(w), c)
    ensures Reach(g, w[0], c)
    decreases |w|
  {
    if |w| > 1 {
      WalkTail(g, w);
      ReachAlong(g, w[1..], c);
      ReachCons(g, w[0], w[1], c);
    }
  }

  lemma {:induction false} ReachTransitive(g: Graph, a: Lock, b: Lock, c: Lock)
    requires Reach(g, a, b) && Reach(g, b, c)
    ensures Reach(g, a, c)
  {
    var w :| Connects(g, w, a, b);
    ReachAlong(g, w, c);
  }

  // ---- What the marking search decides ----

  /** A lock is trapped if one of its successors is, given that the lock itself is marked meanwhile. */
  lemma {:induction false} TrappedByChild(g: Graph, marks: set<Lock>, a: Lock, c: Lock)
    requires Edge(g, a, c) && Trapped(g, marks + {a}, c)
    ensures Trapped(g, marks, a)
  {
    var w :| CaughtFrom(g, marks + {a}, c, w);
    WalkCons(g, a, w);
    var v := [a] + w;
    if Last(w) !in marks {
      if Last(w) == a {
        assert v[0] == Last(v);
      } else {
        var i :| 0 <= i < |w| - 1 && w[i] == Last(w);
        assert v[i + 1] == Last(v);
      }
    }
    assert CaughtFrom(g, marks, a, v);
  }

  /** An unmarked trapped lock has such a successor. */
  lemma {:induction false} ChildTrapped(g: Graph, marks: set<Lock>, a: Lock) returns (c: Lock)
    requires Trapped(g, marks, a) && a !in marks
    ensures Edge(g, a, c) && Trapped(g, marks + {a}, c)
  {
    var w :| CaughtFrom(g, marks, a, w);
    assert |w| > 1;
    WalkTail(g, w);
    c := w[1];
    var v := w[1..];
    if Last(v) !in marks + {a} {
      var i :| 0 <= i < |w| - 1 && w[i] == Last(w);
      assert i > 0 && v[i - 1] == Last(v);
    }
    assert CaughtFrom(g, marks + {a}, c, v);
  }

  /** So the search may clear an unmarked lock once it has cleared all its successors. */
  lemma {:induction false} ClearedByChildren(g: Graph, marks: set<Lock>, a: Lock)
    requires a in g && a !in marks && forall j | 0 <= j < |g[a]| :: !Trapped(g, marks + {a}, g[a][j])
    ensures !Trapped(g, marks, a)
  {
    if Trapped(g, marks, a) {
      var c := ChildTrapped(g, marks, a);
      assert false;
    }
  }

  // ---- One more edge ----

  /** `g'` has the edges of `g` and one from `p` to `o`. */
  ghost predicate WithEdge(g: Graph, p: Lock, o: Lock, g': Graph) {
    forall a, b {:trigger Edge(g', a, b)} {:trigger Edge(g, a, b)} :: Edge(g', a, b) <==> Edge(g, a, b) || (a == p && b == o)
  }

  lemma {:induction false} WalkWidens(g: Graph, p: Lock, o: Lock, g': Graph, w: seq<Lock>)
    requires WithEdge(g, p, o, g') && Walk(g, w)
    ensures Walk(g', w)
  {
    forall i
      ensures StepAt(g', w, i)
    {
      assert StepAt(g, w, i);
    }
  }

  /** A walk in the larger graph stays in the smaller one, or crosses the new edge. */
  lemma {:induction false} Detour(g: Graph, p: Lock, o: Lock, g': Graph, w: seq<Lock>)
    requires WithEdge(g, p, o, g') && Walk(g', w)
    ensures Walk(g, w) || (Reach(g, w[0], p) && Reach(g, o, Last(w)))
    decreases |w|
  {
    if |w| > 1 {
      WalkTail(g', w);
      var v := w[1..];
      Detour(g, p, o, g', v);
      ReachSelf(g, p);
      if Edge(g, w[0], w[1]) {
        if Walk(g, v) {
          WalkCons(g, w[0], v);
          assert w == [w[0]] + v;
        } else {
          ReachCons(g, w[0], w[1], p);
        }
      } else if Walk(g, v) {
        assert Connects(g, v, o, Last(w));
      }
    } else {
      forall i
        ensures StepAt(g, w, i)
      {
      }
    }
  }

  /** The new edge closes a cycle, and the search from its end is trapped, exactly if its start was reachable. */
  lemma {:induction false} TrappedByEdge(g: Graph, p: Lock, o: Lock, g': Graph)
    requires Acyclic(g) && WithEdge(g, p, o, g')
    ensures Trapped(g', {}, o) <==> Reach(g, o, p)
  {
    if Reach(g, o, p) {
      var w :| Connects(g, w, o, p);
      WalkWidens(g, p, o, g', w);
      assert Edge(g', p, o);
      WalkSnoc(g', w, o);
      var v := w + [o];
      assert v[0] == Last(v);
      assert CaughtFrom(g', {}, o, v);
    }
    if Trapped(g', {}, o) {
      var w :| CaughtFrom(g', {}, o, w);
      var i :| 0 <= i < |w| - 1 && w[i] == Last(w);
      WalkDrop(g', w, i);
      Detour(g, p, o, g', w[i..]);
      ReachTransitive(g, o, w[i], p);
    }
  }

  lemma {:induction false} EdgeKeepsAcyclic(g: Graph, p: Lock, o: Lock, g': Graph)
    requires Acyclic(g) && !Reach(g, o, p) && WithEdge(g, p, o, g')
    ensures Acyclic(g')
  {
    forall w | Walk(g', w) && |w| > 1
      ensures w[0] != Last(w)
    {
      Detour(g, p, o, g', w);
      if w[0] == Last(w) && !Walk(g, w) {
        ReachTransitive(g, o, w[0], p);
      }
    }
  }
}
