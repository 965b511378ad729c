/** The deadlock predictor: a lock-order graph kept acyclic by a tentative link, a marking search and a rollback. */
module DeadlockPredictor {
  import opened Lists
  import opened LockGraph

  type Tid = nat
  type CallStack = nat

  /** No lock: a thread that holds none has this as its most recently locked one. */
  const NULL: Lock := 0

  /** No owner. */
  const NOBODY: Tid := 0

  /** `historyListHas`: the first index of `obj`, or -1. */
  method HistoryListHas(list: seq<Lock>, obj: Lock) returns (i: int)
    ensures i == -1 <==> obj !in list
    ensures i != -1 ==> 0 <= i < |list| && list[i] == obj && obj !in list[..i]
  {
    i := 0;
    while i < |list|
      invariant 0 <= i <= |list| && obj !in list[..i]
    {
      if list[i] == obj {
        return;
      }
      i := i + 1;
    }
    i := -1;
  }

  /** The last entry takes the place of entry `i`. */
  function Swapped(list: seq<Lock>, i: nat): seq<Lock>
    requires i < |list|
  {
    list[i := list[|list| - 1]][..|list| - 1]
  }

  /** `historyListRemove`: the last entry takes the place of the last occurrence of `obj`. */
  method HistoryListRemove(list: seq<Lock>, obj: Lock) returns (found: bool, rest: seq<Lock>)
    ensures found <==> obj in list
    ensures !found ==> rest == list
    ensures found ==> exists i | 0 <= i < |list| :: list[i] == obj && obj !in list[i + 1..] && rest == Swapped(list, i)
    ensures found ==> multiset(rest) == multiset(list) - multiset{obj}
    ensures found && NoRepeats(list) ==> NoRepeats(rest) && forall x :: x in rest <==> x in list && x != obj
    ensures list != [] && list[|list| - 1] == obj ==> rest == list[..|list| - 1]
  {
    var i := |list| - 1;
    while i >= 0 && list[i] != obj
      invariant -1 <= i < |list| && forall j | i < j < |list| :: list[j] != obj
    {
      i := i - 1;
    }
    if i < 0 {
      return false, list;
    }
    found, rest := true, Swapped(list, i);
    SwappedCounts(list, i);
    SwappedElements(list, i);
  }

  lemma {:induction false} SwappedCounts(list: seq<Lock>, i: nat)
    requires i < |list|
    ensures multiset(Swapped(list, i)) == multiset(list) - multiset{list[i]}
    ensures i == |list| - 1 ==> Swapped(list, i) == list[..i]
  {
    var n := |list| - 1;
    assert list == list[..n] + [list[n]];
    if i < n {
      assert Swapped(list, i) == list[..n][i := list[n]];
    } else {
      assert Swapped(list, i) == list[..n];
    }
  }

  lemma {:induction false} SwappedElements(list: seq<Lock>, i: nat)
    requires i < |list|
    ensures NoRepeats(list) ==> NoRepeats(Swapped(list, i)) && forall x :: x in Swapped(list, i) <==> x in list && x != list[i]
  {
    if NoRepeats(list) {
      var n, rest := |list| - 1, Swapped(list, i);
      assert forall j | 0 <= j < n :: rest[j] == list[if j == i then n else j];
      forall x | x in list && x != list[i]
        ensures x in rest
      {
        var j :| 0 <= j < |list| && list[j] == x;
        assert rest[if j == n then i else j] == x;
      }
    }
  }

  ghost predicate ListsOk(children: Graph, parents: Graph, a: Lock) {
    && (a in children <==> a in parents)
    && (a in children && a in parents ==> a != NULL && NoRepeats(children[a]) && NoRepeats(parents[a]))
  }

  ghost predicate LinkOk(children: Graph, parents: Graph, a: Lock, b: Lock) {
    && (Edge(children, a, b) <==> Edge(parents, b, a))
    && (Edge(children, a, b) ==> b in children)
  }

  /** Every edge is recorded exactly once at each end. */
  ghost predicate Inverse(children: Graph, parents: Graph) {
    && (forall a {:trigger ListsOk(children, parents, a)} :: ListsOk(children, parents, a))
    && (forall a, b {:trigger LinkOk(children, parents, a, b)} :: LinkOk(children, parents, a, b))
  }

  ghost predicate Closed(g: Graph) {
    forall a, b {:trigger Edge(g, a, b)} | Edge(g, a, b) :: b in g
  }

  ghost predicate Sound(children: Graph, parents: Graph) {
    Inverse(children, parents) && Acyclic(children)
  }

  /** Every lock has its fields, and with call stacks captured there is one per parent. */
  ghost predicate RowOk(capture: bool, children: Graph, parents: Graph, stacks: map<Lock, seq<CallStack>>,
                        owner: map<Lock, Tid>, lockCount: map<Lock, nat>, l: Lock)
  {
    && (l in children <==> l in owner) && (l in children <==> l in lockCount) && (l in children <==> l in stacks)
    && (capture && l in stacks && l in parents ==> |stacks[l]| == |parents[l]|)
  }

  /** What the predictor has recorded between calls. */
  datatype Records = Records(children: Graph, parents: Graph, stacks: map<Lock, seq<CallStack>>, latest: map<Lock, CallStack>,
                             owner: map<Lock, Tid>, lockCount: map<Lock, nat>)

  const NO_RECORDS := Records(map[], map[], map[], map[], map[], map[])

  /** The row of a lock; one that was never seen has nothing. */
  function Row<V>(m: map<Lock, V>, l: Lock, none: V): V {
    if l in m then m[l] else none
  }

  /** A lock seen for the first time. */
  function Added(r: Records, l: Lock): Records {
    r.(children := r.children[l := []], parents := r.parents[l := []], stacks := r.stacks[l := []],
       owner := r.owner[l := NOBODY], lockCount := r.lockCount[l := 0])
  }

  /** The order "`mrl` before `target`" is recorded, with the call stack at the same index as the parent. */
  function Linked(capture: bool, r: Records, mrl: Lock, target: Lock, stack: CallStack): Records {
    r.(children := r.children[mrl := Row(r.children, mrl, []) + [target]],
       parents := r.parents[target := Row(r.parents, target, []) + [mrl]],
       stacks := if capture then r.stacks[target := Row(r.stacks, target, []) + [stack]] else r.stacks)
  }

  /** The order "`mrl` before `target`" is new and closes no cycle. */
  ghost predicate NewOrder(g: Graph, mrl: Lock, target: Lock) {
    mrl != NULL && !Edge(g, mrl, target) && !Reach(g, target, mrl)
  }

  /** What locking records: by the owner, one more nesting; otherwise the owner, and the order if it is to be kept. */
  function Locked(capture: bool, r: Records, tid: Tid, mrl: Lock, target: Lock, stack: CallStack, link: bool): Records {
    if Row(r.owner, target, NOBODY) == tid then
      r.(lockCount := r.lockCount[target := Row(r.lockCount, target, 0) + 1])
    else
      var mine := r.(owner := r.owner[target := tid], lockCount := r.lockCount[target := 0],
                     latest := if capture then r.latest[target := stack] else r.latest);
      if link then Linked(capture, mine, mrl, target, stack) else mine
  }

  /** What unlocking records: nothing unless it is the owner, whose last nesting gives the lock up. */
  function Unlocked(r: Records, tid: Tid, target: Lock): Records {
    if Row(r.owner, target, NOBODY) != tid then r
    else if Row(r.lockCount, target, 0) == 0 then r.(owner := r.owner[target := NOBODY])
    else r.(lockCount := r.lockCount[target := Row(r.lockCount, target, 0) - 1])
  }

  class Predictor {
    /** `sPthreadDebugLevel >= CAPTURE_CALLSTACK`. */
    const capture: bool

    var children: Graph
    var parents: Graph
    /** One call stack per parent, and the one of the latest acquisition. */
    var stacks: map<Lock, seq<CallStack>>
    var latest: map<Lock, CallStack>
    var marks: set<Lock>
    var owner: map<Lock, Tid>
    var lockCount: map<Lock, nat>

    ghost predicate Tables()
      reads this
    {
      forall l {:trigger RowOk(capture, children, parents, stacks, owner, lockCount, l)} ::
        RowOk(capture, children, parents, stacks, owner, lockCount, l)
    }

    /** Between calls: an acyclic graph recorded consistently at both ends, a call stack per parent, and no marks. */
    ghost predicate Valid()
      reads this
    {
      Sound(children, parents) && Tables() && marks == {}
    }

    ghost predicate Known(l: Lock)
      reads this
    {
      l in children && l in parents && l in owner && l in lockCount
    }

    function Now(): Records
      reads this
    {
      Records(children, parents, stacks, latest, owner, lockCount)
    }

    lemma {:induction false} AllKnown(l: Lock)
      requires Valid() && l in children
      ensures Known(l)
    {
      assert RowOk(capture, children, parents, stacks, owner, lockCount, l);
      assert ListsOk(children, parents, l);
    }

    constructor (capture: bool)
      ensures this.capture == capture && Valid() && Now() == NO_RECORDS
    {
      this.capture := capture;
      children, parents, stacks, latest := map[], map[], map[], map[];
      marks, owner, lockCount := {}, map[], map[];
      EmptySound();
    }

    /** `initMutexInfo` for a mutex seen for the first time. */
    method AddLock(l: Lock)
      requires Valid() && l != NULL && l !in children
      modifies this
      ensures Valid() && Now() == Added(old(Now()), l)
    {
      AddedSound(children, parents, l);
      ghost var c, p, st, o, n := children, parents, stacks, owner, lockCount;
      children, parents, stacks := children[l := []], parents[l := []], stacks[l := []];
      owner, lockCount := owner[l := NOBODY], lockCount[l := 0];
      ghost var c', p', st', o', n' := children, parents, stacks, owner, lockCount;
      forall a
        ensures RowOk(capture, c', p', st', o', n', a)
      {
        assert RowOk(capture, c, p, st, o, n, a);
      }
    }

    /** `linkParentToChild`. */
    method LinkParentToChild(parent: Lock, child: Lock)
      requires parent in children && child in parents
      modifies this`children, this`parents
      ensures children == old(children)[parent := old(children[parent]) + [child]]
      ensures parents == old(parents)[child := old(parents[child]) + [parent]]
    {
      children := children[parent := children[parent] + [child]];
      parents := parents[child := parents[child] + [parent]];
    }

    /** `unlinkParentFromChild`, of a link that is the latest in both lists. */
    method UnlinkParentFromChild(parent: Lock, child: Lock)
      requires parent in children && child in parents
      requires children[parent] != [] && Last(children[parent]) == child
      requires parents[child] != [] && Last(parents[child]) == parent
      modifies this`children, this`parents
      ensures children == old(children)[parent := old(children[parent])[..|old(children[parent])| - 1]]
      ensures parents == old(parents)[child := old(parents[child])[..|old(parents[child])| - 1]]
    {
      var found, rest := HistoryListRemove(children[parent], child);
      children := children[parent := rest];
      found, rest := HistoryListRemove(parents[child], parent);
      parents := parents[child := rest];
    }

    /** `traverseTree`: false exactly when some walk from `obj` meets a marked lock or a cycle; the marks are restored. */
    method TraverseTree(obj: Lock) returns (ok: bool)
      requires Closed(children) && obj in children
      modifies this`marks
      ensures marks == old(marks) && ok == !Trapped(children, marks, obj)
      decreases children.Keys - marks
    {
      if obj in marks {
        assert CaughtFrom(children, marks, obj, [obj]);
        return false;
      }
      ghost var before := marks;
      marks := marks + {obj};
      ok := true;
      var i := |children[obj]| - 1;
      while i >= 0
        invariant -1 <= i < |children[obj]| && marks == before + {obj} && ok
        invariant forall j | i < j < |children[obj]| :: !Trapped(children, marks, children[obj][j])
      {
        var child := children[obj][i];
        assert Edge(children, obj, child);
        ok := TraverseTree(child);
        if !ok {
          TrappedByChild(children, before, obj, child);
          break;
        }
        i := i - 1;
      }
      marks := marks - {obj};
      assert marks == before;
      if ok {
        ClearedByChildren(children, before, obj);
      }
    }

    /** The new lock `target` is linked below the held lock `mrl` unless that would close a cycle. */
    method TryLink(mrl: Lock, target: Lock, stack: CallStack)
      requires Valid() && mrl in children && target in parents && target !in children[mrl]
      modifies this`children, this`parents, this`stacks, this`marks
      ensures Valid()
      ensures Reach(old(children), target, mrl) ==>
                children == old(children) && parents == old(parents) && stacks == old(stacks)
      ensures !Reach(old(children), target, mrl) ==>
                && children == old(children)[mrl := old(children[mrl]) + [target]]
                && parents == old(parents)[target := old(parents[target]) + [mrl]]
                && target in old(stacks)
                && stacks == if capture then old(stacks)[target := old(stacks)[target] + [stack]] else old(stacks)
    {
      ghost var g, h := children, parents;
      assert RowOk(capture, g, h, stacks, owner, lockCount, target);
      assert ListsOk(g, h, target);
      LinkParentToChild(mrl, target);
      LinkedSound(g, h, mrl, target, children, parents);
      var ok := TraverseTree(target);
      if !ok {
        UnlinkParentFromChild(mrl, target);
        Restored(g, mrl, target);
        Restored(h, target, mrl);
      } else {
        RecordStack(g, h, mrl, target, stack);
      }
    }

    /** The new link is kept: its call stack goes to the same index as its parent. */
    method RecordStack(ghost g: Graph, ghost h: Graph, mrl: Lock, target: Lock, stack: CallStack)
      requires mrl in g && target in h && target in stacks && (target in g <==> target in h)
      requires forall l {:trigger RowOk(capture, g, h, stacks, owner, lockCount, l)} :: RowOk(capture, g, h, stacks, owner, lockCount, l)
      requires children == g[mrl := g[mrl] + [target]] && parents == h[target := h[target] + [mrl]]
      modifies this`stacks
      ensures Tables() && stacks == if capture then old(stacks)[target := old(stacks)[target] + [stack]] else old(stacks)
    {
      ghost var st := stacks;
      if capture {
        stacks := stacks[target := stacks[target] + [stack]];
      }
      ghost var c', p', st', o, n := children, parents, stacks, owner, lockCount;
      forall a
        ensures RowOk(capture, c', p', st', o, n, a)
      {
        assert RowOk(capture, g, h, st, o, n, a);
      }
    }

    method SetCount(target: Lock, n: nat)
      requires Valid() && target in children
      modifies this`lockCount
      ensures Valid() && lockCount == old(lockCount)[target := n]
    {
      ghost var c, p, st, o, k := children, parents, stacks, owner, lockCount;
      lockCount := lockCount[target := n];
      ghost var k' := lockCount;
      forall a
        ensures RowOk(capture, c, p, st, o, k', a)
      {
        assert RowOk(capture, c, p, st, o, k, a);
      }
    }

    /** The thread `tid`, or nobody, becomes the owner. */
    method SetOwner(tid: Tid, target: Lock)
      requires Valid() && target in children
      modifies this`owner, this`lockCount
      ensures Valid() && owner == old(owner)[target := tid] && lockCount == old(lockCount)[target := 0]
    {
      ghost var c, p, st, o, n := children, parents, stacks, owner, lockCount;
      owner := owner[target := tid];
      lockCount := lockCount[target := 0];
      ghost var o', n' := owner, lockCount;
      forall a
        ensures RowOk(capture, c, p, st, o', n', a)
      {
        assert RowOk(capture, c, p, st, o, n, a);
      }
    }

    /** `mutex_lock_checked` by thread `tid` whose most recently locked mutex is `mrl`, or none. */
    method MutexLockChecked(tid: Tid, mrl: Lock, target: Lock, stack: CallStack)
      requires Valid() && Known(target) && (mrl != NULL ==> mrl in children)
      modifies this
      ensures Valid() && children.Keys == old(children.Keys)
      ensures Now() == Locked(capture, old(Now()), tid, mrl, target, stack, NewOrder(old(children), mrl, target))
    {
      assert RowOk(capture, children, parents, stacks, owner, lockCount, target);
      if owner[target] == tid {
        SetCount(target, lockCount[target] + 1);
        return;
      }
      SetOwner(tid, target);
      if capture {
        latest := latest[target := stack];
      }
      if mrl == NULL {
        return;
      }
      var i := HistoryListHas(children[mrl], target);
      if i >= 0 {
        return;
      }
      TryLink(mrl, target, stack);
    }

    /** `mutex_unlock_checked`. */
    method MutexUnlockChecked(tid: Tid, target: Lock)
      requires Valid() && Known(target)
      modifies this`owner, this`lockCount
      ensures Valid() && Now() == Unlocked(old(Now()), tid, target)
    {
      assert RowOk(capture, children, parents, stacks, owner, lockCount, target);
      if owner[target] == tid {
        if lockCount[target] == 0 {
          SetOwner(NOBODY, target);
          assert lockCount == old(lockCount);
        } else {
          SetCount(target, lockCount[target] - 1);
        }
      }
    }
  }

  /** A call seen by the predictor; `mrl` is any lock, or none, as the thread's most recently locked one. */
  datatype Call = LockCall(tid: Tid, mrl: Lock, target: Lock, stack: CallStack) | UnlockCall(tid: Tid, target: Lock)

  /** The records once the mutex of a call has its row. */
  function Seen(r: Records, l: Lock): Records {
    if l in r.children then r else Added(r, l)
  }

  function Held(g: Graph, mrl: Lock): Lock {
    if mrl in g then mrl else NULL
  }

  /** What one call records. */
  ghost function Heeded(capture: bool, r: Records, call: Call): Records {
    var known := Seen(r, call.target);
    match call
    case LockCall(tid, mrl, target, stack) =>
      var mrl' := Held(known.children, mrl);
      Locked(capture, known, tid, mrl', target, stack, NewOrder(known.children, mrl', target))
    case UnlockCall(tid, target) => Unlocked(known, tid, target)
  }

  ghost function Watched(capture: bool, r: Records, calls: seq<Call>): Records
    decreases |calls|
  {
    if calls == [] then r else Heeded(capture, Watched(capture, r, calls[..|calls| - 1]), calls[|calls| - 1])
  }

  lemma {:induction false} WatchedNext(capture: bool, r: Records, calls: seq<Call>, i: nat)
    requires i < |calls|
    ensures Watched(capture, r, calls[..i + 1]) == Heeded(capture, Watched(capture, r, calls[..i]), calls[i])
  {
    assert calls[..i + 1][..i] == calls[..i];
  }

  /** No order is forgotten. */
  ghost predicate GrownAt(g: Graph, g': Graph, a: Lock) {
    a in g ==> a in g' && g[a] <= g'[a]
  }

  lemma {:induction false} GrownTwice(g0: Graph, g: Graph, g': Graph, a: Lock)
    requires GrownAt(g0, g, a) && GrownAt(g, g', a)
    ensures GrownAt(g0, g', a)
  {
  }

  lemma {:induction false} HeededGrown(capture: bool, r: Records, call: Call, g: Graph, a: Lock)
    requires g == Heeded(capture, r, call).children
    ensures GrownAt(r.children, g, a)
  {
    var known := Seen(r, call.target);
    if call.LockCall? {
      var mrl := Held(known.children, call.mrl);
      LockedGrown(capture, known, call.tid, mrl, call.target, call.stack, NewOrder(known.children, mrl, call.target), a);
    }
  }

  lemma {:induction false} LockedGrown(capture: bool, r: Records, tid: Tid, mrl: Lock, target: Lock, stack: CallStack,
                                       link: bool, a: Lock)
    ensures GrownAt(r.children, Locked(capture, r, tid, mrl, target, stack, link).children, a)
  {
  }

  ghost predicate SeenAt(g: Graph, calls: seq<Call>, n: nat, j: nat) {
    j < n <= |calls| ==> calls[j].target in g
  }

  /** Any sequence of calls records what each of them does in turn, and leaves the graph acyclic and consistently recorded. */
  method Watch(p: Predictor, calls: seq<Call>)
    requires p.Valid() && forall i | 0 <= i < |calls| :: calls[i].target != NULL
    modifies p
    ensures p.Valid() && p.Now() == Watched(p.capture, old(p.Now()), calls)
    ensures forall j: nat {:trigger SeenAt(p.children, calls, |calls|, j)} :: SeenAt(p.children, calls, |calls|, j)
    ensures forall a {:trigger GrownAt(old(p.children), p.children, a)} :: GrownAt(old(p.children), p.children, a)
  {
    for i := 0 to |calls|
      invariant p.Valid() && p.Now() == Watched(p.capture, old(p.Now()), calls[..i])
      invariant forall j: nat {:trigger SeenAt(p.children, calls, i, j)} :: SeenAt(p.children, calls, i, j)
      invariant forall a {:trigger GrownAt(old(p.children), p.children, a)} :: GrownAt(old(p.children), p.children, a)
    {
      ghost var g := p.children;
      Heed(p, calls[i]);
      WatchedNext(p.capture, old(p.Now()), calls, i);
      ghost var g0, g' := old(p.children), p.children;
      forall a
        ensures GrownAt(g0, g', a)
      {
        GrownTwice(g0, g, g', a);
      }
      ghost var n := i + 1;
      forall j: nat
        ensures SeenAt(g', calls, n, j)
      {
        assert SeenAt(g, calls, i, j) && (j < i ==> GrownAt(g, g', calls[j].target));
      }
    }
    assert calls[..|calls|] == calls;
  }

  /** One call: `get_mutex_info` records a new mutex, then the call is checked. */
  method Heed(p: Predictor, call: Call)
    requires p.Valid() && call.target != NULL
    modifies p
    ensures p.Valid() && call.target in p.children && p.Now() == Heeded(p.capture, old(p.Now()), call)
    ensures forall a {:trigger GrownAt(old(p.children), p.children, a)} :: GrownAt(old(p.children), p.children, a)
  {
    if call.target !in p.children {
      p.AddLock(call.target);
    }
    p.AllKnown(call.target);
    match call
    case LockCall(tid, mrl, target, stack) =>
      p.MutexLockChecked(tid, Held(p.children, mrl), target, stack);
    case UnlockCall(tid, target) =>
      p.MutexUnlockChecked(tid, target);
    ghost var g0, g' := old(p.children), p.children;
    forall a
      ensures GrownAt(g0, g', a)
    {
      HeededGrown(p.capture, old(p.Now()), call, g', a);
    }
  }

  // ---- The graph after an update ----

  lemma {:induction false} EmptySound()
    ensures Sound(map[], map[])
  {
    var g: Graph := map[];
    forall w | Walk(g, w) && |w| > 1
      ensures w[0] != Last(w)
    {
      assert StepAt(g, w, 0);
    }
  }

  /** Dropping the entry just added gives the old list, hence the old graph, back. */
  lemma {:induction false} Restored(g: Graph, p: Lock, o: Lock)
    requires p in g
    ensures g[p := g[p] + [o]][p := (g[p] + [o])[..|g[p] + [o]| - 1]] == g
  {
    assert (g[p] + [o])[..|g[p]|] == g[p];
  }

  lemma {:induction false} AddedSound(g: Graph, h: Graph, l: Lock)
    requires Sound(g, h) && l != NULL && l !in g
    ensures Sound(g[l := []], h[l := []])
  {
    var g', h' := g[l := []], h[l := []];
    assert ListsOk(g, h, l);
    forall a
      ensures ListsOk(g', h', a)
    {
      assert ListsOk(g, h, a);
    }
    forall a, b
      ensures LinkOk(g', h', a, b) && (Edge(g', a, b) ==> Edge(g, a, b))
    {
      assert LinkOk(g, h, a, b);
    }
    forall w | Walk(g', w) && |w| > 1
      ensures w[0] != Last(w)
    {
      forall i
        ensures StepAt(g, w, i)
      {
        assert StepAt(g', w, i);
      }
      assert Walk(g, w);
    }
  }

  lemma {:induction false} LinkedEdge(g: Graph, g': Graph, p: Lock, o: Lock, a: Lock, b: Lock)
    requires p in g && g' == g[p := g[p] + [o]]
    ensures Edge(g', a, b) <==> Edge(g, a, b) || (a == p && b == o)
  {
  }

  lemma {:induction false} LinkedInverse(g: Graph, h: Graph, p: Lock, o: Lock, g': Graph, h': Graph)
    requires Inverse(g, h) && p in g && o in h && o !in g[p]
    requires g' == g[p := g[p] + [o]] && h' == h[o := h[o] + [p]]
    ensures Inverse(g', h')
  {
    assert LinkOk(g, h, p, o) && !Edge(g, p, o);
    forall a
      ensures ListsOk(g', h', a)
    {
      assert ListsOk(g, h, a);
    }
    forall a, b
      ensures LinkOk(g', h', a, b)
    {
      assert LinkOk(g, h, a, b) && ListsOk(g, h, o);
      LinkedEdge(g, g', p, o, a, b);
      LinkedEdge(h, h', o, p, b, a);
    }
  }

  /** The tentative link: what the search will find, and that the graph is still sound if it finds nothing. */
  lemma {:induction false} LinkedSound(g: Graph, h: Graph, p: Lock, o: Lock, g': Graph, h': Graph)
    requires Sound(g, h) && p in g && o in h && o !in g[p]
    requires g' == g[p := g[p] + [o]] && h' == h[o := h[o] + [p]]
    ensures Closed(g')
    ensures Trapped(g', {}, o) <==> Reach(g, o, p)
    ensures !Reach(g, o, p) ==> Sound(g', h')
  {
    LinkedInverse(g, h, p, o, g', h');
    assert WithEdge(g, p, o, g') by {
      forall a, b
        ensures Edge(g', a, b) <==> Edge(g, a, b) || (a == p && b == o)
      {
        LinkedEdge(g, g', p, o, a, b);
      }
    }
    assert Closed(g') by {
      forall a, b | Edge(g', a, b)
        ensures b in g'
      {
        assert LinkOk(g', h', a, b);
      }
    }
    TrappedByEdge(g, p, o, g');
    if !Reach(g, o, p) {
      EdgeKeepsAcyclic(g, p, o, g');
    }
  }
}
