/** The futex protocol of recursive and errorcheck mutexes, one step per atomic operation, for any number of threads. */
module RecursiveMutex {
  import opened MutexWord

  /** Kernel thread ids: nonzero and 16 bits wide. */
  type Tid = t: nat | 0 < t < 65536 witness 1

  datatype Code = Ok | Eperm | Ebusy | Eagain | Edeadlk

  /** Where a thread is in a call, with the value of its local `mvalue`; between calls, what the last one returned. */
  datatype PC =
    | Idle(ret: Code)
    | LockLoad
    | TryLoad
    | IncrCas(mvalue: nat)
    | IncrReload
    | QuickCas
    | TryCas
    | Reload
    | AcquireCas
    | FlipCas(mvalue: nat)
    | Wait(mvalue: nat)
    | Asleep
    | UnlockLoad
    | DecrCas(mvalue: nat)
    | DecrReload
    | UnlockSwap
    | UnlockWake

  datatype Op = Locking | Trying | Unlocking

  /** A call, with the depth of the calling thread when it was made. */
  datatype Call = Call(op: Op, entry: int)

  /**
   * `depth` is how often each thread has taken the mutex less how often it has given it up; `call` is a thread's
   * present call or, if it is idle, its last one.
   */
  datatype State = State(word: nat, pc: map<Tid, PC>, depth: map<Tid, int>, call: map<Tid, Call>)

  function Depth(s: State, t: Tid): int {
    if t in s.depth then s.depth[t] else 0
  }

  predicate Sleeps(s: State, t: Tid) {
    t in s.pc && s.pc[t].Asleep?
  }

  predicate Waking(s: State, t: Tid) {
    t in s.pc && s.pc[t].UnlockWake?
  }

  /** Awake in the slow path, before the next attempt to lock or to mark the mutex contended. */
  predicate SlowPath(pc: PC) {
    pc.Reload? || pc.AcquireCas? || pc.FlipCas? || pc.Wait?
  }

  predicate Retrying(s: State, t: Tid) {
    t in s.pc && SlowPath(s.pc[t])
  }

  function At(s: State, t: Tid, pc: PC): State {
    s.(pc := s.pc[t := pc])
  }

  /** A thread that is idle makes a call. */
  function Calls(s: State, t: Tid, op: Op, pc: PC): State {
    At(s, t, pc).(call := s.call[t := Call(op, Depth(s, t))])
  }

  function Free(kind: nat): nat {
    Pack(0, kind, 0, UNLOCKED)
  }

  /** A second lock by the owner: `_recursive_increment` up to its first compare-and-swap. */
  function Relock(kind: nat, mvalue: nat): PC {
    if kind / 2 == ERRORCHECK then Idle(Edeadlk)
    else if Counter(mvalue) == COUNTER_MAX then Idle(Eagain)
    else IncrCas(mvalue)
  }

  /** What the slow path does with the value it has just read. */
  function Route(kind: nat, mvalue: nat): PC {
    if mvalue == Free(kind) then AcquireCas
    else if Lock(mvalue) == UNCONTENDED then FlipCas(mvalue)
    else Wait(mvalue)
  }

  ghost predicate Init(kind: nat, s: State) {
    && 2 <= kind < 6 && s.word == Free(kind)
    && (forall t | t in s.pc :: s.pc[t] == Idle(Ok))
    && (forall t | t in s.depth :: s.depth[t] == 0) && s.call == map[]
  }

  /** What a step of a thread leaves: the word, and the thread's position and depth. */
  datatype Effect = Effect(word: nat, pc: PC, depth: int)

  /** A step in the midst of a call, other than the wake call, for a mutex with the given type and shared bits. */
  function Act(kind: nat, t: Tid, word: nat, pc: PC, depth: int): Effect {
    match pc
    case LockLoad =>
      Effect(word, if Owner(word) == t then Relock(kind, word)
                   else if word == Free(kind) then QuickCas else Route(kind, word), depth)
    case TryLoad =>
      Effect(word, if Owner(word) == t then Relock(kind, word) else TryCas, depth)
    case IncrCas(mvalue) =>
      if word == mvalue then Effect(word + COUNTER_ONE, Idle(Ok), depth + 1) else Effect(word, IncrReload, depth)
    case IncrReload =>
      Effect(word, IncrCas(word), depth)
    case QuickCas =>
      if word == Free(kind) then Effect(Pack(t, kind, 0, UNCONTENDED), Idle(Ok), depth + 1) else Effect(word, Reload, depth)
    case TryCas =>
      if word == Free(kind) then Effect(Pack(t, kind, 0, UNCONTENDED), Idle(Ok), depth + 1) else Effect(word, Idle(Ebusy), depth)
    case Reload =>
      Effect(word, Route(kind, word), depth)
    case AcquireCas =>
      if word == Free(kind) then Effect(Pack(t, kind, 0, CONTENDED), Idle(Ok), depth + 1) else Effect(word, Reload, depth)
    case FlipCas(mvalue) =>
      if word == mvalue then Effect(Flip(mvalue), Wait(Flip(mvalue)), depth) else Effect(word, Reload, depth)
    case Wait(mvalue) =>
      Effect(word, if word == mvalue then Asleep else Reload, depth)
    case Asleep =>
      Effect(word, Reload, depth)
    case UnlockLoad =>
      Effect(word, if Owner(word) != t then Idle(Eperm) else if Counter(word) != 0 then DecrCas(word) else UnlockSwap, depth)
    case DecrCas(mvalue) =>
      if word == mvalue then Effect(Drop(word), Idle(Ok), depth - 1) else Effect(word, DecrReload, depth)
    case DecrReload =>
      Effect(word, DecrCas(word), depth)
    case UnlockSwap =>
      Effect(Free(kind), if Lock(word) == CONTENDED then UnlockWake else Idle(Ok), depth - 1)
    case UnlockWake =>
      Effect(word, Idle(Ok), depth)
    case Idle(_) =>
      Effect(word, pc, depth)
  }

  function Acted(kind: nat, s: State, t: Tid): State
    requires t in s.pc
  {
    var e := Act(kind, t, s.word, s.pc[t], Depth(s, t));
    At(s, t, e.pc).(word := e.word, depth := if e.depth == Depth(s, t) then s.depth else s.depth[t := e.depth])
  }

  /** One step of thread `t`: it makes a call, goes on with one, or ends one by waking a sleeper if there is one. */
  ghost predicate Next(kind: nat, s: State, t: Tid, s': State) {
    && t in s.pc
    && match s.pc[t]
       case Idle(_) =>
         s' == Calls(s, t, Locking, LockLoad) || s' == Calls(s, t, Trying, TryLoad) || s' == Calls(s, t, Unlocking, UnlockLoad)
       case UnlockWake =>
         if exists u :: Sleeps(s, u) then exists u :: Sleeps(s, u) && s' == At(Acted(kind, s, t), u, Reload)
         else s' == Acted(kind, s, t)
       case _ =>
         s' == Acted(kind, s, t)
  }

  // ---- The invariant ----

  /** The word encodes the owner, the type bits, the owner's depth less one, and the lock state. */
  ghost predicate Encodes(kind: nat, s: State) {
    && 2 <= kind < 6 && s.word < 0x1_0000_0000 && Kind(s.word) == kind
    && (Owner(s.word) == 0 ==> s.word == Free(kind))
    && (Owner(s.word) != 0 ==>
          && Owner(s.word) < 65536 && 1 <= Lock(s.word) <= 2
          && Depth(s, Owner(s.word)) == Counter(s.word) + 1)
  }

  ghost predicate DepthOk(s: State, t: Tid) {
    t != Owner(s.word) ==> Depth(s, t) == 0
  }

  /** What a thread's position in a call says about the mutex and about its local value. */
  ghost predicate PcFits(kind: nat, word: nat, t: Tid, pc: PC) {
    match pc
    case IncrCas(mvalue) =>
      && Owner(word) == t && mvalue < 0x1_0000_0000 && Owner(mvalue) == t && Kind(mvalue) == kind
      && Counter(mvalue) == Counter(word) < COUNTER_MAX && kind / 2 == RECURSIVE
    case IncrReload => Owner(word) == t && Counter(word) < COUNTER_MAX && kind / 2 == RECURSIVE
    case DecrCas(mvalue) =>
      && Owner(word) == t && mvalue < 0x1_0000_0000 && Owner(mvalue) == t && Kind(mvalue) == kind
      && Counter(mvalue) == Counter(word) > 0
    case DecrReload => Owner(word) == t && Counter(word) > 0
    case UnlockSwap => Owner(word) == t && Counter(word) == 0
    case FlipCas(mvalue) => Owner(word) != t && mvalue < 0x1_0000_0000 && Lock(mvalue) == UNCONTENDED
    case Wait(mvalue) => Owner(word) != t && Lock(mvalue) == CONTENDED
    case QuickCas => Owner(word) != t
    case TryCas => Owner(word) != t
    case Reload => Owner(word) != t
    case AcquireCas => Owner(word) != t
    case Asleep => Owner(word) != t
    case _ => true
  }

  ghost predicate PcOk(kind: nat, s: State, t: Tid) {
    t in s.pc ==> PcFits(kind, s.word, t, s.pc[t])
  }

  /** What a call may return, by the depth at its start and its end. */
  ghost predicate Answer(kind: nat, c: Call, ret: Code, depth: int) {
    match ret
    case Ok =>
      if c.op == Unlocking then c.entry > 0 && depth == c.entry - 1
      else depth == c.entry + 1 && (c.entry == 0 || (kind / 2 == RECURSIVE && c.entry <= COUNTER_MAX))
    case Eperm => c.op == Unlocking && depth == c.entry == 0
    case Ebusy => c.op == Trying && depth == c.entry == 0
    case Eagain => c.op != Unlocking && kind / 2 == RECURSIVE && depth == c.entry == COUNTER_MAX + 1
    case Edeadlk => c.op != Unlocking && kind / 2 == ERRORCHECK && depth == c.entry > 0
  }

  /** A position belongs to the call, and the depth has changed only where the call takes effect. */
  ghost predicate CallFits(kind: nat, c: Call, pc: PC, d: int) {
    match pc
    case Idle(ret) => Answer(kind, c, ret, d)
    case LockLoad => c.op == Locking && d == c.entry
    case TryLoad => c.op == Trying && d == c.entry
    case UnlockLoad => c.op == Unlocking && d == c.entry
    case IncrCas(_) => c.op != Unlocking && d == c.entry
    case IncrReload => c.op != Unlocking && d == c.entry
    case TryCas => c.op == Trying && d == c.entry
    case DecrCas(_) => c.op == Unlocking && d == c.entry
    case DecrReload => c.op == Unlocking && d == c.entry
    case UnlockSwap => c.op == Unlocking && d == c.entry
    case UnlockWake => c.op == Unlocking && c.entry == 1 && d == 0
    case _ => c.op == Locking && d == c.entry
  }

  ghost predicate CallOk(kind: nat, s: State, t: Tid) {
    t in s.pc ==> if t in s.call then CallFits(kind, s.call[t], s.pc[t], Depth(s, t)) else s.pc[t].Idle?
  }

  ghost predicate Heeded(s: State) {
    (exists t :: Sleeps(s, t)) ==>
      Lock(s.word) == CONTENDED || (exists t :: Waking(s, t)) || (exists t :: Retrying(s, t))
  }

  ghost predicate Inv(kind: nat, s: State) {
    && Encodes(kind, s)
    && (forall t: Tid {:trigger DepthOk(s, t)} :: DepthOk(s, t))
    && (forall t: Tid {:trigger PcOk(kind, s, t)} :: PcOk(kind, s, t))
    && (forall t: Tid {:trigger CallOk(kind, s, t)} :: CallOk(kind, s, t))
    && Heeded(s)
  }

  // ---- Every step keeps it ----

  /** What a step of `t` does to the word and to the depths. */
  datatype Change = None | Take(lock: nat) | Bump | Unbump | Release | Contend

  ghost predicate Changes(kind: nat, s: State, t: Tid, s': State, ch: Change) {
    var o, c, l := Owner(s.word), Counter(s.word), Lock(s.word);
    match ch
    case None => s'.word == s.word && s'.depth == s.depth
    case Take(lock) =>
      && s.word == Free(kind) && 1 <= lock <= 2
      && s'.word == Pack(t, kind, 0, lock) && s'.depth == s.depth[t := Depth(s, t) + 1]
    case Bump =>
      && o == t && c < COUNTER_MAX
      && s'.word == Pack(t, kind, c + 1, l) && s'.depth == s.depth[t := Depth(s, t) + 1]
    case Unbump =>
      && o == t && c > 0
      && s'.word == Pack(t, kind, c - 1, l) && s'.depth == s.depth[t := Depth(s, t) - 1]
    case Release =>
      && o == t && c == 0
      && s'.word == Free(kind) && s'.depth == s.depth[t := Depth(s, t) - 1]
    case Contend =>
      && o != t && o != 0 && l == UNCONTENDED
      && s'.word == Pack(o, kind, c, CONTENDED) && s'.depth == s.depth
  }

  lemma {:induction false} IncrChanges(kind: nat, s: State, t: Tid, s': State)
    requires Next(kind, s, t, s') && Encodes(kind, s) && PcOk(kind, s, t) && s.pc[t] == IncrCas(s.word)
    ensures Changes(kind, s, t, s', Bump)
  {
    BumpFields(s.word);
  }

  lemma {:induction false} DecrChanges(kind: nat, s: State, t: Tid, s': State)
    requires Next(kind, s, t, s') && Encodes(kind, s) && PcOk(kind, s, t) && s.pc[t] == DecrCas(s.word)
    ensures Changes(kind, s, t, s', Unbump)
  {
    DropFields(s.word);
  }

  lemma {:induction false} FlipChanges(kind: nat, s: State, t: Tid, s': State)
    requires Next(kind, s, t, s') && Encodes(kind, s) && PcOk(kind, s, t) && s.pc[t] == FlipCas(s.word)
    ensures Changes(kind, s, t, s', Contend)
  {
    FlipFields(s.word);
    FreeIsFree(kind);
  }

  lemma {:induction false} StepChanges(kind: nat, s: State, t: Tid, s': State) returns (ch: Change)
    requires Next(kind, s, t, s') && Encodes(kind, s) && PcOk(kind, s, t)
    ensures Changes(kind, s, t, s', ch)
  {
    ch := None;
    match s.pc[t]
    case IncrCas(mvalue) => if s.word == mvalue { IncrChanges(kind, s, t, s'); ch := Bump; }
    case DecrCas(mvalue) => if s.word == mvalue { DecrChanges(kind, s, t, s'); ch := Unbump; }
    case FlipCas(mvalue) => if s.word == mvalue { FlipChanges(kind, s, t, s'); ch := Contend; }
    case QuickCas => if s.word == Free(kind) { ch := Take(UNCONTENDED); }
    case TryCas => if s.word == Free(kind) { ch := Take(UNCONTENDED); }
    case AcquireCas => if s.word == Free(kind) { ch := Take(CONTENDED); }
    case UnlockSwap => ch := Release;
    case _ =>
  }

  lemma {:induction false} FreeIsFree(kind: nat)
    requires kind < 8
    ensures var w := Free(kind); Owner(w) == 0 && Kind(w) == kind && Counter(w) == 0 && Lock(w) == UNLOCKED
  {
    PackFields(0, kind, 0, UNLOCKED);
  }

  /** The fields of the word after a change. */
  lemma {:induction false} ChangedWord(kind: nat, s: State, t: Tid, s': State, ch: Change)
    requires Encodes(kind, s) && Changes(kind, s, t, s', ch)
    ensures var o, c, l := Owner(s.word), Counter(s.word), Lock(s.word);
            && s'.word < 0x1_0000_0000 && Kind(s'.word) == kind
            && Owner(s'.word) == (match ch case Take(_) => t case Release => 0 case _ => o)
            && Counter(s'.word) == (match ch case Bump => c + 1 case Unbump => c - 1 case _ => c)
            && Lock(s'.word) == (match ch case Take(lock) => lock case Release => 0 case Contend => CONTENDED case _ => l)
  {
    FreeIsFree(kind);
    var o, c, l := Owner(s.word), Counter(s.word), Lock(s.word);
    match ch
    case None =>
    case Take(lock) => PackFields(t, kind, 0, lock);
    case Bump => PackFields(t, kind, c + 1, l);
    case Unbump => PackFields(t, kind, c - 1, l);
    case Release =>
    case Contend => PackFields(o, kind, c, CONTENDED);
  }

  lemma {:induction false} EncodesStep(kind: nat, s: State, t: Tid, s': State)
    requires Next(kind, s, t, s') && Inv(kind, s)
    ensures Encodes(kind, s') && forall u: Tid {:trigger DepthOk(s', u)} :: DepthOk(s', u)
  {
    assert PcOk(kind, s, t) && DepthOk(s, t);
    var ch := StepChanges(kind, s, t, s');
    ChangedWord(kind, s, t, s', ch);
    FreeIsFree(kind);
    forall u: Tid
      ensures DepthOk(s', u)
    {
      assert DepthOk(s, u);
    }
  }

  lemma {:induction false} OtherPc(kind: nat, s: State, t: Tid, s': State, u: Tid)
    requires Next(kind, s, t, s') && u != t && u in s.pc
    ensures u in s'.pc && (s'.pc[u] == s.pc[u] || (s.pc[u].Asleep? && s'.pc[u].Reload?))
  {
  }

  /** The position of a thread other than `t` stays justified. */
  lemma {:induction false} OtherPcOk(kind: nat, s: State, t: Tid, s': State, u: Tid)
    requires Next(kind, s, t, s') && Encodes(kind, s) && PcOk(kind, s, t) && PcOk(kind, s, u) && u != t
    ensures PcOk(kind, s', u)
  {
    var ch := StepChanges(kind, s, t, s');
    ChangedWord(kind, s, t, s', ch);
    FreeIsFree(kind);
    if u in s.pc { OtherPc(kind, s, t, s', u); }
  }

  /** The position `t` moves to is justified. */
  lemma {:induction false} OwnPcOk(kind: nat, s: State, t: Tid, s': State)
    requires Next(kind, s, t, s') && Encodes(kind, s) && PcOk(kind, s, t)
    ensures PcOk(kind, s', t)
  {
    if s.pc[t] == FlipCas(s.word) {
      FlippedOk(kind, s, t, s');
    } else if Owner(s.word) == t {
      OwnerPcOk(kind, s, t, s');
    } else {
      RoutedOk(kind, s, t);
    }
  }

  lemma {:induction false} FlippedOk(kind: nat, s: State, t: Tid, s': State)
    requires Next(kind, s, t, s') && Encodes(kind, s) && PcOk(kind, s, t) && s.pc[t] == FlipCas(s.word)
    ensures PcOk(kind, s', t)
  {
    FlipChanges(kind, s, t, s');
    ChangedWord(kind, s, t, s', Contend);
  }

  lemma {:induction false} OwnerPcOk(kind: nat, s: State, t: Tid, s': State)
    requires Next(kind, s, t, s') && Encodes(kind, s) && PcOk(kind, s, t) && Owner(s.word) == t
    ensures PcOk(kind, s', t)
  {
    FieldsPack(s.word);
  }

  lemma {:induction false} RoutedOk(kind: nat, s: State, t: Tid)
    requires Encodes(kind, s) && Owner(s.word) != t
    ensures PcOk(kind, At(s, t, Route(kind, s.word)), t)
  {
    FreeIsFree(kind);
  }

  /** Only a thread's own steps change its depth, its call or, but for waking it, its position. */
  lemma {:induction false} OtherCallOk(kind: nat, s: State, t: Tid, s': State, u: Tid)
    requires Next(kind, s, t, s') && CallOk(kind, s, u) && u != t
    ensures Depth(s', u) == Depth(s, u) && CallOk(kind, s', u)
  {
    OtherCall(kind, s, t, s', u);
    if u in s.pc { OtherPc(kind, s, t, s', u); }
  }

  lemma {:induction false} OtherCall(kind: nat, s: State, t: Tid, s': State, u: Tid)
    requires Next(kind, s, t, s') && u != t
    ensures Depth(s', u) == Depth(s, u) && (u in s'.pc <==> u in s.pc) && (u in s'.call <==> u in s.call)
    ensures u in s.call ==> s'.call[u] == s.call[u]
  {
  }

  lemma {:induction false} OwnCallOk(kind: nat, s: State, t: Tid, s': State)
    requires Next(kind, s, t, s') && Encodes(kind, s) && DepthOk(s, t) && PcOk(kind, s, t) && CallOk(kind, s, t)
    ensures CallOk(kind, s', t)
  {
    FieldsPack(s.word);
    if !s.pc[t].Idle? { ActFits(kind, t, s.word, s.pc[t], Depth(s, t), s.call[t]); }
  }

  lemma {:induction false} ActFits(kind: nat, t: Tid, word: nat, pc: PC, d: int, c: Call)
    requires PcFits(kind, word, t, pc) && CallFits(kind, c, pc, d) && !pc.Idle? && 2 <= kind < 6 && Counter(word) <= COUNTER_MAX
    requires if Owner(word) == t then d == Counter(word) + 1 else d == 0
    ensures var e := Act(kind, t, word, pc, d); CallFits(kind, c, e.pc, e.depth)
  {
  }

  /** A step leaves a sleeper without a guarantee only by giving it another one. */
  lemma {:induction false} HeededStep(kind: nat, s: State, t: Tid, s': State)
    requires Next(kind, s, t, s') && Inv(kind, s)
    ensures Heeded(s')
  {
    assert PcOk(kind, s, t);
    if u :| Sleeps(s', u) {
      if !Waking(s', t) && !Retrying(s', t) && Lock(s'.word) != CONTENDED {
        if u != t { assert Sleeps(s, u); }
        StillHeeded(kind, s, t, s', u);
      }
    }
  }

  lemma {:induction false} StillHeeded(kind: nat, s: State, t: Tid, s': State, u: Tid)
    requires Next(kind, s, t, s') && Inv(kind, s) && Sleeps(s', u) && (u != t ==> Sleeps(s, u))
    requires !Waking(s', t) && !Retrying(s', t) && Lock(s'.word) != CONTENDED
    ensures (exists w :: Waking(s', w)) || (exists w :: Retrying(s', w))
  {
    assert PcOk(kind, s, t);
    LostContention(kind, s, t, s');
    if s.pc[t].UnlockWake? {
      assert exists x :: Sleeps(s, x);
      var x :| Sleeps(s, x) && s' == At(Acted(kind, s, t), x, Reload);
      assert Retrying(s', x);
    } else if w :| w != t && (Waking(s, w) || Retrying(s, w)) {
      OtherPc(kind, s, t, s', w);
      assert Waking(s', w) || Retrying(s', w);
    }
  }

  /** The mutex stops being contended only by a release that goes on to wake, and a retry ends by contending. */
  lemma {:induction false} LostContention(kind: nat, s: State, t: Tid, s': State)
    requires Next(kind, s, t, s') && Encodes(kind, s) && PcOk(kind, s, t)
    requires !Waking(s', t) && !Retrying(s', t) && Lock(s'.word) != CONTENDED
    ensures Lock(s.word) != CONTENDED && !Retrying(s, t) && !Sleeps(s', t)
  {
    FreeIsFree(kind);
    if !s.pc[t].Idle? { ActContends(kind, t, s.word, s.pc[t], Depth(s, t)); }
  }

  lemma {:induction false} ActContends(kind: nat, t: Tid, word: nat, pc: PC, d: int)
    requires PcFits(kind, word, t, pc) && !pc.Idle? && Lock(Free(kind)) == UNLOCKED
    requires word < 0x1_0000_0000 && 2 <= kind < 6 && Kind(word) == kind && Lock(word) <= 2
    ensures var e := Act(kind, t, word, pc, d);
            SlowPath(e.pc) || e.pc.UnlockWake? || Lock(e.word) == CONTENDED ||
            (Lock(word) != CONTENDED && !SlowPath(pc) && !e.pc.Asleep?)
  {
    if pc == IncrCas(word) { BumpFields(word); }
    if pc == DecrCas(word) { DropFields(word); }
    if pc == FlipCas(word) { FlipFields(word); }
    PackFields(t, kind, 0, CONTENDED);
  }

  lemma {:induction false} StepKeeps(kind: nat, s: State, t: Tid, s': State)
    requires Next(kind, s, t, s') && Inv(kind, s)
    ensures Inv(kind, s')
  {
    EncodesStep(kind, s, t, s');
    HeededStep(kind, s, t, s');
    forall u: Tid
      ensures PcOk(kind, s', u) && CallOk(kind, s', u)
    {
      assert CallOk(kind, s, u) && PcOk(kind, s, u) && DepthOk(s, u);
      if u == t {
        OwnPcOk(kind, s, t, s');
        OwnCallOk(kind, s, t, s');
      } else {
        assert PcOk(kind, s, t);
        OtherPcOk(kind, s, t, s', u);
        OtherCallOk(kind, s, t, s', u);
      }
    }
  }

  // ---- Runs ----

  ghost predicate Steps(kind: nat, s: State, s': State) {
    exists t :: Next(kind, s, t, s')
  }

  /** A run: any interleaving of lock, trylock and unlock calls from a free mutex. */
  ghost predicate Run(kind: nat, r: seq<State>) {
    && r != [] && Init(kind, r[0])
    && forall i {:trigger StepAt(kind, r, i)} :: StepAt(kind, r, i)
  }

  ghost predicate StepAt(kind: nat, r: seq<State>, i: int) {
    0 < i < |r| ==> Steps(kind, r[i - 1], r[i])
  }

  lemma {:induction false} InitKeeps(kind: nat, s: State)
    requires Init(kind, s)
    ensures Inv(kind, s)
  {
    FreeIsFree(kind);
    PackFields(0, kind, 0, UNLOCKED);
  }

  lemma {:induction false} RunKeeps(kind: nat, r: seq<State>, i: nat)
    requires Run(kind, r) && i < |r|
    ensures Inv(kind, r[i])
  {
    if i == 0 {
      InitKeeps(kind, r[0]);
    } else {
      RunKeeps(kind, r, i - 1);
      assert StepAt(kind, r, i);
      SomeStepKeeps(kind, r[i - 1], r[i]);
    }
  }

  lemma {:induction false} SomeStepKeeps(kind: nat, s: State, s': State)
    requires Steps(kind, s, s') && Inv(kind, s)
    ensures Inv(kind, s')
  {
    var t :| Next(kind, s, t, s');
    StepKeeps(kind, s, t, s');
  }

  /** In every reachable state the word encodes the only thread with a positive depth, and that depth less one. */
  lemma {:induction false} WordEncodesOwner(kind: nat, r: seq<State>, i: nat, t: Tid)
    requires Run(kind, r) && i < |r|
    ensures var s := r[i];
            && Kind(s.word) == kind && 0 <= Depth(s, t) <= COUNTER_MAX + 1
            && (Depth(s, t) > 0 <==> Owner(s.word) == t)
            && (Depth(s, t) > 0 ==> Counter(s.word) == Depth(s, t) - 1 && 1 <= Lock(s.word) <= 2)
            && (Owner(s.word) == 0 <==> s.word == Free(kind))
  {
    RunKeeps(kind, r, i);
    assert DepthOk(r[i], t);
    FreeIsFree(kind);
    FieldsPack(r[i].word);
  }

  /** Two threads never have the mutex locked at the same time. */
  lemma {:induction false} MutualExclusion(kind: nat, r: seq<State>, i: nat, t: Tid, u: Tid)
    requires Run(kind, r) && i < |r| && Depth(r[i], t) > 0 && Depth(r[i], u) > 0
    ensures t == u
  {
    WordEncodesOwner(kind, r, i, t);
    WordEncodesOwner(kind, r, i, u);
  }

  /** A thread that is not the owner changes at most the lock state, and only to contended. */
  lemma {:induction false} OthersOnlyContend(kind: nat, r: seq<State>, i: nat, t: Tid)
    requires Run(kind, r) && i + 1 < |r| && Next(kind, r[i], t, r[i + 1])
    requires Owner(r[i].word) != 0 && Owner(r[i].word) != t
    ensures var w, w' := r[i].word, r[i + 1].word;
            && Owner(w') == Owner(w) && Kind(w') == Kind(w) && Counter(w') == Counter(w)
            && (Lock(w') == Lock(w) || (Lock(w) == UNCONTENDED && Lock(w') == CONTENDED))
            && r[i + 1].depth == r[i].depth
  {
    RunKeeps(kind, r, i);
    assert PcOk(kind, r[i], t);
    FreeIsFree(kind);
    var ch := StepChanges(kind, r[i], t, r[i + 1]);
    ChangedWord(kind, r[i], t, r[i + 1], ch);
  }

  /** Unlocking answers EPERM exactly for a thread that has not locked the mutex, and then changes nothing. */
  lemma {:induction false} UnlockAnswers(kind: nat, r: seq<State>, i: nat, t: Tid)
    requires Run(kind, r) && i + 1 < |r| && Next(kind, r[i], t, r[i + 1]) && r[i].pc[t] == UnlockLoad
    ensures r[i + 1].pc[t] == Idle(Eperm) <==> Depth(r[i], t) == 0
    ensures r[i + 1].word == r[i].word && r[i + 1].depth == r[i].depth
    ensures r[i + 1].pc[t] == UnlockSwap <==> Depth(r[i], t) == 1
  {
    WordEncodesOwner(kind, r, i, t);
  }

  /** Locking by the owner: EDEADLK for errorcheck mutexes; EAGAIN exactly when the 11-bit counter is full. */
  lemma {:induction false} RelockAnswers(kind: nat, r: seq<State>, i: nat, t: Tid)
    requires Run(kind, r) && i + 1 < |r| && Next(kind, r[i], t, r[i + 1])
    requires r[i].pc[t] == LockLoad || r[i].pc[t] == TryLoad
    ensures r[i + 1].pc[t] == Idle(Eagain) <==> kind / 2 == RECURSIVE && Depth(r[i], t) == COUNTER_MAX + 1
    ensures r[i + 1].pc[t] == Idle(Edeadlk) <==> kind / 2 == ERRORCHECK && Depth(r[i], t) > 0
    ensures r[i + 1].word == r[i].word && r[i + 1].depth == r[i].depth
  {
    RunKeeps(kind, r, i);
    WordEncodesOwner(kind, r, i, t);
  }

  /**
   * What a call returned, for every call of every run. Locking and trying to lock answer 0 exactly if they added a level;
   * EAGAIN exactly if the owner's counter was full; EDEADLK exactly for an errorcheck mutex the thread had locked.
   * Unlocking answers 0 exactly if the thread had locked the mutex, and has then given up one level; otherwise EPERM.
   */
  lemma {:induction false} CallAnswers(kind: nat, r: seq<State>, i: nat, t: Tid)
    requires Run(kind, r) && i < |r| && t in r[i].pc && t in r[i].call && r[i].pc[t].Idle?
    ensures var op, entry, ret, d := r[i].call[t].op, r[i].call[t].entry, r[i].pc[t].ret, Depth(r[i], t);
            && (op != Unlocking ==>
                  && (ret == Ok <==> d == entry + 1) && (ret != Ok <==> d == entry)
                  && (ret == Eagain <==> kind / 2 == RECURSIVE && entry == COUNTER_MAX + 1)
                  && (ret == Edeadlk <==> kind / 2 == ERRORCHECK && entry > 0) && ret != Eperm)
            && (op == Locking ==> ret != Ebusy) && (ret == Ebusy ==> entry == 0)
            && (op == Unlocking ==>
                  (ret == Ok <==> d == entry - 1) && (ret == Ok <==> entry > 0) && (ret == Eperm <==> entry == 0 == d))
  {
    RunKeeps(kind, r, i);
    assert CallOk(kind, r[i], t);
  }

  /** A call that answers EBUSY did so while another thread had the mutex locked. */
  lemma {:induction false} BusyMeansHeld(kind: nat, r: seq<State>, i: nat, t: Tid) returns (u: Tid)
    requires Run(kind, r) && i + 1 < |r| && Next(kind, r[i], t, r[i + 1])
    requires !r[i].pc[t].Idle? && r[i + 1].pc[t] == Idle(Ebusy)
    ensures u != t && Depth(r[i], u) > 0
  {
    RunKeeps(kind, r, i);
    assert PcOk(kind, r[i], t) && CallOk(kind, r[i], t);
    u := Owner(r[i].word);
  }

  /** How many more steps of its own a thread needs at most, if nobody else acts and the mutex is not another's. */
  function Remaining(s: State, t: Tid): nat
    requires t in s.pc
  {
    match s.pc[t]
    case Idle(_) => 0
    case IncrCas(mvalue) => if mvalue == s.word then 1 else 3
    case DecrCas(mvalue) => if mvalue == s.word then 1 else 3
    case QuickCas => 1
    case TryCas => 1
    case AcquireCas => 1
    case UnlockWake => 1
    case FlipCas(_) => 3
    case Wait(_) => 3
    case UnlockLoad => 3
    case Asleep => 3
    case _ => 2
  }

  ghost predicate Alone(s: State, t: Tid) {
    forall u: Tid {:trigger Depth(s, u)} | u != t :: Depth(s, u) == 0
  }

  /** A call on a mutex that no other thread has locked is over after at most three undisturbed steps. */
  lemma {:induction false} Progress(kind: nat, r: seq<State>, i: nat, t: Tid)
    requires Run(kind, r) && i + 1 < |r| && Next(kind, r[i], t, r[i + 1]) && !r[i].pc[t].Idle?
    requires Alone(r[i], t)
    ensures t in r[i + 1].pc && Remaining(r[i + 1], t) < Remaining(r[i], t) && Alone(r[i + 1], t)
  {
    var s, s' := r[i], r[i + 1];
    RunKeeps(kind, r, i);
    assert PcOk(kind, s, t);
    FreeIsFree(kind);
    assert Owner(s.word) == 0 || Owner(s.word) == t by {
      if Owner(s.word) != 0 { assert Depth(s, Owner(s.word)) > 0; }
    }
    forall u: Tid | u != t
      ensures Depth(s', u) == 0
    {
      OtherCall(kind, s, t, s', u);
    }
  }

  /** How many more steps of its own a thread needs at most until it rests, if nobody else acts and the mutex is another's. */
  function ToRest(s: State, t: Tid): nat
    requires t in s.pc
  {
    match s.pc[t]
    case Idle(_) => 0
    case Asleep => 0
    case Wait(mvalue) => if mvalue == s.word then 1 else 4
    case FlipCas(mvalue) => if mvalue == s.word then 2 else 4
    case UnlockLoad => 1
    case UnlockWake => 1
    case TryCas => 1
    case TryLoad => 2
    case Reload => 3
    case LockLoad => 3
    case _ => 4
  }

  /** A thread does not spin: while another thread has the mutex locked, a call is over or asleep after at most four steps. */
  lemma {:induction false} Settles(kind: nat, r: seq<State>, i: nat, t: Tid, u: Tid)
    requires Run(kind, r) && i + 1 < |r| && Next(kind, r[i], t, r[i + 1]) && !r[i].pc[t].Idle? && !r[i].pc[t].Asleep?
    requires u != t && Depth(r[i], u) > 0
    ensures t in r[i + 1].pc && ToRest(r[i + 1], t) < ToRest(r[i], t) && Depth(r[i + 1], u) == Depth(r[i], u)
    ensures r[i + 1].pc[t].Asleep? ==> t in r[i].call && r[i].call[t].op == Locking && Lock(r[i].word) == CONTENDED
  {
    var s, s' := r[i], r[i + 1];
    RunKeeps(kind, r, i);
    assert PcOk(kind, s, t) && CallOk(kind, s, t) && DepthOk(s, u);
    FreeIsFree(kind);
    OtherCall(kind, s, t, s', u);
    if s.pc[t].FlipCas? { FlipFields(s.pc[t].mvalue); }
    if s.pc[t] == UnlockWake && exists x :: Sleeps(s, x) {
      var x :| Sleeps(s, x) && s' == At(Acted(kind, s, t), x, Reload);
    }
  }

  /** Up to step `n`, nobody but `t` does anything. */
  ghost predicate Only(kind: nat, r: seq<State>, n: nat, t: Tid) {
    n < |r| && forall i {:trigger OnlyAt(kind, r, i, t)} :: 0 < i <= n ==> OnlyAt(kind, r, i, t)
  }

  ghost predicate OnlyAt(kind: nat, r: seq<State>, i: int, t: Tid) {
    0 < i < |r| && Next(kind, r[i - 1], t, r[i])
  }

  /** The word is not contended, and the thread is not on the slow path nor about to wake anybody. */
  ghost predicate Quiet(kind: nat, word: nat, t: Tid, pc: PC) {
    && Lock(word) != CONTENDED && !SlowPath(pc) && !pc.Asleep? && !pc.UnlockWake?
    && (pc == QuickCas || pc == TryCas ==> word == Free(kind)) && (Owner(word) == 0 || Owner(word) == t)
  }

  lemma {:induction false} QuietAct(kind: nat, t: Tid, word: nat, pc: PC, depth: int)
    requires 2 <= kind < 6 && word < 0x1_0000_0000 && Kind(word) == kind && (Owner(word) == 0 ==> word == Free(kind))
    requires PcFits(kind, word, t, pc) && Quiet(kind, word, t, pc)
    ensures var e := Act(kind, t, word, pc, depth); Quiet(kind, e.word, t, e.pc)
  {
    FreeIsFree(kind);
    match pc
    case IncrCas(mvalue) =>
      if word == mvalue { BumpFields(word); PackFields(t, kind, Counter(word) + 1, Lock(word)); }
    case DecrCas(mvalue) =>
      if word == mvalue { DropFields(word); PackFields(t, kind, Counter(word) - 1, Lock(word)); }
    case QuickCas => PackFields(t, kind, 0, UNCONTENDED);
    case TryCas => PackFields(t, kind, 0, UNCONTENDED);
    case _ =>
  }

  /** A thread that has the mutex to itself never makes a futex system call: the word stays uncontended. */
  lemma {:induction false} Uncontended(kind: nat, r: seq<State>, n: nat, t: Tid)
    requires Run(kind, r) && Only(kind, r, n, t) && t in r[0].pc
    ensures t in r[n].pc && Quiet(kind, r[n].word, t, r[n].pc[t])
    decreases n
  {
    FreeIsFree(kind);
    if n > 0 {
      var s, s' := r[n - 1], r[n];
      Uncontended(kind, r, n - 1, t);
      RunKeeps(kind, r, n - 1);
      assert OnlyAt(kind, r, n, t) && PcOk(kind, s, t);
      QuietAct(kind, t, s.word, s.pc[t], Depth(s, t));
    }
  }

  /** No lost wakeup: if a thread sleeps, the mutex is contended, or a wake call or a retry is under way. */
  lemma {:induction false} NoLostWakeup(kind: nat, r: seq<State>, i: nat, t: Tid)
    requires Run(kind, r) && i < |r| && Sleeps(r[i], t)
    ensures Lock(r[i].word) == CONTENDED || (exists u :: Waking(r[i], u)) || (exists u :: Retrying(r[i], u))
  {
    RunKeeps(kind, r, i);
  }

  /** While a thread sleeps, another one has the mutex locked or is awake in a call that will see to the sleepers. */
  lemma {:induction false} SomebodyAwake(kind: nat, r: seq<State>, i: nat, t: Tid) returns (u: Tid)
    requires Run(kind, r) && i < |r| && Sleeps(r[i], t)
    ensures !Sleeps(r[i], u) && (Depth(r[i], u) > 0 || Waking(r[i], u) || Retrying(r[i], u))
  {
    RunKeeps(kind, r, i);
    if v :| Waking(r[i], v) || Retrying(r[i], v) {
      u := v;
    } else {
      FreeIsFree(kind);
      u := Owner(r[i].word);
      assert PcOk(kind, r[i], u);
    }
  }
}
