/** The futex protocol of normal mutexes, one step per atomic operation, for any number of threads. */
module NormalMutex {

  type Tid = nat

  /** Where a thread is in a lock, timed lock, trylock or unlock call. */
  datatype PC =
    | Idle
    | LockCas(timed: bool)
    | LockSwap(timed: bool)
    | TimeCheck
    | LockWait(timed: bool)
    | Asleep(timed: bool)
    | TryCas
    | Holding
    | UnlockDec
    | UnlockStore
    | UnlockWake

  datatype Op = Locking | Timing | Trying

  /** `call` is the last call by which a thread asked for the mutex; `late` are those whose time for it is over. */
  datatype State = State(word: int, pc: map<Tid, PC>, call: map<Tid, Op>, late: set<Tid>)

  /** The thread has locked the mutex and has not yet made it available again. */
  predicate Owns(s: State, t: Tid) {
    t in s.pc && (s.pc[t].Holding? || s.pc[t].UnlockDec? || s.pc[t].UnlockStore?)
  }

  predicate Sleeps(s: State, t: Tid) {
    t in s.pc && s.pc[t].Asleep?
  }

  /** The thread is between its contended release and its wake call. */
  predicate Releasing(s: State, t: Tid) {
    t in s.pc && (s.pc[t].UnlockStore? || s.pc[t].UnlockWake?)
  }

  /** The thread is awake in the slow path, about to mark the mutex contended. */
  predicate Retrying(s: State, t: Tid) {
    t in s.pc && s.pc[t].LockSwap?
  }

  function At(s: State, t: Tid, pc: PC): State {
    s.(pc := s.pc[t := pc])
  }

  /** A thread that is idle asks for the mutex. */
  function Calls(s: State, t: Tid, op: Op, pc: PC): State {
    At(s, t, pc).(call := s.call[t := op], late := s.late - {t})
  }

  /** A sleeper `u` returns from `__futex_wait_ex`. */
  function Woken(s: State, u: Tid): State
    requires Sleeps(s, u)
  {
    At(s, u, LockSwap(s.pc[u].timed))
  }

  ghost predicate Init(shared: int, s: State) {
    s.word == shared && forall t | t in s.pc :: s.pc[t] == Idle
  }

  /** What a step of a thread leaves: the word, and the thread's position. */
  datatype Effect = Effect(word: int, pc: PC)

  /** A step in the midst of a call. The word is `shared` plus the lock state; `late` is what the clock says. */
  function Act(shared: int, word: int, pc: PC, late: bool): Effect {
    match pc
    case LockCas(timed) =>
      if word == shared then Effect(shared + 1, Holding) else Effect(word, LockSwap(timed))
    case LockSwap(timed) =>
      Effect(shared + 2, if word == shared then Holding else if timed then TimeCheck else LockWait(false))
    case TimeCheck =>
      Effect(word, if late then Idle else LockWait(true))
    case LockWait(timed) =>
      Effect(word, if word == shared + 2 then Asleep(timed) else LockSwap(timed))
    case Asleep(timed) =>
      Effect(word, LockSwap(timed))
    case TryCas =>
      if word == shared then Effect(shared + 1, Holding) else Effect(word, Idle)
    case Holding =>
      Effect(word, UnlockDec)
    case UnlockDec =>
      Effect(word - 1, if word == shared + 1 then Idle else UnlockStore)
    case UnlockStore =>
      Effect(shared, UnlockWake)
    case UnlockWake =>
      Effect(word, Idle)
    case Idle =>
      Effect(word, Idle)
  }

  function Acted(shared: int, s: State, t: Tid): State
    requires t in s.pc
  {
    var e := Act(shared, s.word, s.pc[t], t in s.late);
    At(s, t, e.pc).(word := e.word)
  }

  /** One step of thread `t`; only a thread that holds the mutex unlocks it, and the wake call wakes a sleeper if there is one. */
  ghost predicate Next(shared: int, s: State, t: Tid, s': State) {
    && t in s.pc
    && match s.pc[t]
       case Idle =>
         || s' == Calls(s, t, Locking, LockCas(false))
         || s' == Calls(s, t, Timing, LockCas(true))
         || s' == Calls(s, t, Trying, TryCas)
       case UnlockWake =>
         if exists u :: Sleeps(s, u) then exists u :: Sleeps(s, u) && s' == Acted(shared, Woken(s, u), t)
         else s' == Acted(shared, s, t)
       case _ =>
         s' == Acted(shared, s, t)
  }

  /** The clock passes the time until which `t` is willing to wait. */
  ghost predicate Tick(s: State, t: Tid, s': State) {
    s' == s.(late := s.late + {t})
  }

  /** A position on the way to the mutex belongs to the call. */
  ghost predicate CallFits(op: Op, pc: PC) {
    match pc
    case LockCas(timed) => op == if timed then Timing else Locking
    case LockSwap(timed) => op == if timed then Timing else Locking
    case LockWait(timed) => op == if timed then Timing else Locking
    case Asleep(timed) => op == if timed then Timing else Locking
    case TimeCheck => op == Timing
    case TryCas => op == Trying
    case _ => true
  }

  ghost predicate CallOk(s: State, t: Tid) {
    t in s.pc ==> if t in s.call then CallFits(s.call[t], s.pc[t]) else s.pc[t].Idle?
  }

  ghost predicate Exclusive(s: State) {
    forall t, u | Owns(s, t) && Owns(s, u) :: t == u
  }

  /** The mutex is free exactly when nobody owns it. */
  ghost predicate Consistent(shared: int, s: State) {
    && shared <= s.word <= shared + 2
    && (s.word != shared <==> exists t :: Owns(s, t))
  }

  /** Whoever sleeps will be seen to: by the next release, by a wake call under way, or by a retry. */
  ghost predicate Heeded(shared: int, s: State) {
    (exists t :: Sleeps(s, t)) ==>
      s.word == shared + 2 || (exists t :: Releasing(s, t)) || (exists t :: Retrying(s, t))
  }

  ghost predicate Inv(shared: int, s: State) {
    && Exclusive(s) && Consistent(shared, s) && Heeded(shared, s)
    && forall t {:trigger CallOk(s, t)} :: CallOk(s, t)
  }

  // ---- Every step keeps the invariant ----

  /** Another thread's step leaves a thread where it is, or wakes it. */
  lemma {:induction false} OtherPc(shared: int, s: State, t: Tid, s': State, u: Tid)
    requires Next(shared, s, t, s') && u != t
    ensures (u in s'.pc <==> u in s.pc) && (u in s'.call <==> u in s.call) && (u in s.call ==> s'.call[u] == s.call[u])
    ensures u in s.pc ==> s'.pc[u] == s.pc[u] || (s.pc[u].Asleep? && s'.pc[u] == LockSwap(s.pc[u].timed))
  {
    if s.pc[t] == UnlockWake {
      if exists x :: Sleeps(s, x) {
        var x :| Sleeps(s, x) && s' == Acted(shared, Woken(s, x), t);
      }
    }
  }

  lemma {:induction false} Others(shared: int, s: State, t: Tid, s': State, u: Tid)
    requires Next(shared, s, t, s') && u != t
    ensures Owns(s', u) <==> Owns(s, u)
    ensures Releasing(s', u) <==> Releasing(s, u)
    ensures Retrying(s, u) ==> Retrying(s', u)
    ensures Sleeps(s', u) ==> Sleeps(s, u)
  {
    OtherPc(shared, s, t, s', u);
  }

  /** How a step changes the ownership and the word together. */
  lemma {:induction false} OwnerStep(shared: int, s: State, t: Tid, s': State)
    requires Next(shared, s, t, s') && Exclusive(s) && Consistent(shared, s)
    ensures shared <= s'.word <= shared + 2
    ensures Owns(s', t) && !Owns(s, t) ==> s.word == shared && s'.word != shared
    ensures Owns(s, t) && !Owns(s', t) ==> s'.word == shared
    ensures Owns(s, t) == Owns(s', t) ==> (s'.word != shared <==> s.word != shared)
  {
    assert Owns(s, t) ==> s.word != shared;
  }

  lemma {:induction false} ExclusiveStep(shared: int, s: State, t: Tid, s': State)
    requires Next(shared, s, t, s') && Exclusive(s) && Consistent(shared, s)
    ensures Exclusive(s')
  {
    OwnerStep(shared, s, t, s');
    forall u, v | Owns(s', u) && Owns(s', v)
      ensures u == v
    {
      if u != t { Others(shared, s, t, s', u); }
      if v != t { Others(shared, s, t, s', v); }
    }
  }

  lemma {:induction false} ConsistentStep(shared: int, s: State, t: Tid, s': State)
    requires Next(shared, s, t, s') && Exclusive(s) && Consistent(shared, s)
    ensures Consistent(shared, s')
  {
    OwnerStep(shared, s, t, s');
    if s'.word != shared {
      if !Owns(s', t) {
        var u :| Owns(s, u);
        Others(shared, s, t, s', u);
      }
    } else if u :| Owns(s', u) {
      if u != t { Others(shared, s, t, s', u); }
      assert false;
    }
  }

  /** The only steps that take a sleeper's guarantee away replace it by another one. */
  lemma {:induction false} HeededStep(shared: int, s: State, t: Tid, s': State)
    requires Next(shared, s, t, s') && Inv(shared, s)
    ensures Heeded(shared, s')
  {
    OwnerStep(shared, s, t, s');
    if u :| Sleeps(s', u) {
      if u != t { Others(shared, s, t, s', u); }
      if !Releasing(s', t) && !Retrying(s', t) && s'.word != shared + 2 {
        StillHeeded(shared, s, t, s', u);
      }
    }
  }

  lemma {:induction false} StillHeeded(shared: int, s: State, t: Tid, s': State, u: Tid)
    requires Next(shared, s, t, s') && Inv(shared, s) && Sleeps(s', u) && (u != t ==> Sleeps(s, u))
    requires !Releasing(s', t) && !Retrying(s', t) && s'.word != shared + 2
    ensures (exists w :: Releasing(s', w)) || (exists w :: Retrying(s', w))
  {
    assert s.pc[t] == UnlockDec ==> Owns(s, t);
    if s.pc[t] == UnlockWake {
      assert exists x :: Sleeps(s, x);
      var x :| Sleeps(s, x) && s' == Acted(shared, Woken(s, x), t);
      assert Retrying(s', x);
    } else if w :| w != t && (Releasing(s, w) || Retrying(s, w)) {
      Others(shared, s, t, s', w);
    }
  }

  lemma {:induction false} CallStep(shared: int, s: State, t: Tid, s': State, u: Tid)
    requires Next(shared, s, t, s') && CallOk(s, t) && CallOk(s, u)
    ensures CallOk(s', u)
  {
    if u != t { OtherPc(shared, s, t, s', u); }
  }

  lemma {:induction false} StepKeeps(shared: int, s: State, t: Tid, s': State)
    requires Next(shared, s, t, s') && Inv(shared, s)
    ensures Inv(shared, s')
  {
    ExclusiveStep(shared, s, t, s');
    ConsistentStep(shared, s, t, s');
    HeededStep(shared, s, t, s');
    forall u
      ensures CallOk(s', u)
    {
      assert CallOk(s, t) && CallOk(s, u);
      CallStep(shared, s, t, s', u);
    }
  }

  lemma {:induction false} TickKeeps(shared: int, s: State, t: Tid, s': State)
    requires Tick(s, t, s') && Inv(shared, s)
    ensures Inv(shared, s')
  {
    forall u
      ensures CallOk(s', u) && Owns(s', u) == Owns(s, u) && Sleeps(s', u) == Sleeps(s, u)
      ensures Releasing(s', u) == Releasing(s, u) && Retrying(s', u) == Retrying(s, u)
    {
      assert CallOk(s, u);
    }
  }

  // ---- Runs ----

  ghost predicate Steps(shared: int, s: State, s': State) {
    exists t :: Next(shared, s, t, s') || Tick(s, t, s')
  }

  /** A run: any interleaving of calls from a state where the mutex is free and nobody uses it. */
  ghost predicate Run(shared: int, r: seq<State>) {
    && r != [] && Init(shared, r[0])
    && forall i {:trigger StepAt(shared, r, i)} :: StepAt(shared, r, i)
  }

  ghost predicate StepAt(shared: int, r: seq<State>, i: int) {
    0 < i < |r| ==> Steps(shared, r[i - 1], r[i])
  }

  lemma {:induction false} RunKeeps(shared: int, r: seq<State>, i: nat)
    requires Run(shared, r) && i < |r|
    ensures Inv(shared, r[i])
  {
    if i > 0 {
      RunKeeps(shared, r, i - 1);
      assert StepAt(shared, r, i);
      var t :| Next(shared, r[i - 1], t, r[i]) || Tick(r[i - 1], t, r[i]);
      if Next(shared, r[i - 1], t, r[i]) {
        StepKeeps(shared, r[i - 1], t, r[i]);
      } else {
        TickKeeps(shared, r[i - 1], t, r[i]);
      }
    }
  }

  /** Mutual exclusion: the state is nonzero exactly when one thread owns the mutex, and never two do. */
  lemma {:induction false} MutualExclusion(shared: int, r: seq<State>, i: nat)
    requires Run(shared, r) && i < |r|
    ensures r[i].word != shared <==> exists t :: Owns(r[i], t)
    ensures forall t, u | Owns(r[i], t) && Owns(r[i], u) :: t == u
  {
    RunKeeps(shared, r, i);
  }

  /** The thread has asked for the mutex and has not been answered yet. */
  predicate Asking(s: State, t: Tid) {
    t in s.pc && !s.pc[t].Idle? && !Owns(s, t) && !s.pc[t].UnlockWake?
  }

  /**
   * A request is answered with the mutex only if nobody owns it. It is answered without only if it is a trylock while
   * another thread owns the mutex, or a timed lock whose time is over; a plain lock is never turned away.
   */
  lemma {:induction false} Answers(shared: int, r: seq<State>, i: nat, t: Tid)
    requires Run(shared, r) && i + 1 < |r| && Next(shared, r[i], t, r[i + 1]) && Asking(r[i], t)
    ensures t in r[i].call && t in r[i + 1].pc
    ensures Owns(r[i + 1], t) ==> forall u :: !Owns(r[i], u)
    ensures r[i + 1].pc[t] == Idle ==>
              || (r[i].call[t] == Trying && exists u :: u != t && Owns(r[i], u))
              || (r[i].call[t] == Timing && t in r[i].late)
    ensures r[i].call[t] == Trying ==> (Owns(r[i + 1], t) <==> forall u :: !Owns(r[i], u))
  {
    RunKeeps(shared, r, i);
    assert CallOk(r[i], t);
    OwnerStep(shared, r[i], t, r[i + 1]);
  }

  /** Nobody but `t` owns the mutex. */
  ghost predicate Alone(s: State, t: Tid) {
    forall u | Owns(s, u) :: u == t
  }

  /** How many more steps of its own a thread needs at most, if nobody else acts and nobody else owns the mutex. */
  function Remaining(s: State, t: Tid): nat
    requires t in s.pc
  {
    match s.pc[t]
    case Idle => 0
    case Holding => 0
    case LockCas(_) => 1
    case LockSwap(_) => 1
    case TryCas => 1
    case LockWait(_) => 2
    case Asleep(_) => 2
    case TimeCheck => 3
    case UnlockDec => 3
    case UnlockStore => 2
    case UnlockWake => 1
  }

  /** A call on a mutex that no other thread owns is over after at most three undisturbed steps. */
  lemma {:induction false} Progress(shared: int, r: seq<State>, i: nat, t: Tid)
    requires Run(shared, r) && i + 1 < |r| && Next(shared, r[i], t, r[i + 1])
    requires r[i].pc[t] != Idle && r[i].pc[t] != Holding && Alone(r[i], t)
    ensures t in r[i + 1].pc && Remaining(r[i + 1], t) < Remaining(r[i], t) && Alone(r[i + 1], t)
  {
    RunKeeps(shared, r, i);
    var s, s' := r[i], r[i + 1];
    forall u | Owns(s', u)
      ensures u == t
    {
      if u != t { Others(shared, s, t, s', u); }
    }
  }

  /** How many more steps of its own a request needs at most until it rests, if nobody else acts and the mutex is another's. */
  function ToRest(shared: int, s: State, t: Tid): nat
    requires t in s.pc
  {
    match s.pc[t]
    case LockCas(_) => 4
    case LockSwap(_) => 3
    case TimeCheck => if s.word == shared + 2 then 2 else 5
    case LockWait(_) => if s.word == shared + 2 then 1 else 4
    case TryCas => 1
    case UnlockWake => 1
    case _ => 0
  }

  /** A thread does not spin: while another owns the mutex, a request is answered or asleep after at most five steps. */
  lemma {:induction false} Settles(shared: int, r: seq<State>, i: nat, t: Tid, u: Tid)
    requires Run(shared, r) && i + 1 < |r| && Next(shared, r[i], t, r[i + 1]) && u != t && Owns(r[i], u)
    requires Asking(r[i], t) && !Sleeps(r[i], t)
    ensures t in r[i + 1].pc && ToRest(shared, r[i + 1], t) < ToRest(shared, r[i], t) && Owns(r[i + 1], u)
    ensures Sleeps(r[i + 1], t) ==> t in r[i].call && r[i].call[t] != Trying && r[i].word == shared + 2
  {
    RunKeeps(shared, r, i);
    assert CallOk(r[i], t) && !Owns(r[i], t);
    Others(shared, r[i], t, r[i + 1], u);
    OwnerStep(shared, r[i], t, r[i + 1]);
  }

  /** How many more steps of its own a timed lock whose time is over needs at most. */
  function ToEnd(s: State, t: Tid): nat
    requires t in s.pc
  {
    match s.pc[t]
    case LockCas(_) => 3
    case LockSwap(_) => 2
    case TimeCheck => 1
    case Asleep(_) => 3
    case LockWait(_) => 4
    case _ => 0
  }

  /** A timed lock whose time is over is turned away, or gets the mutex, after at most four steps of its own. */
  lemma {:induction false} TimesOut(shared: int, r: seq<State>, i: nat, t: Tid)
    requires Run(shared, r) && i + 1 < |r| && Next(shared, r[i], t, r[i + 1]) && Asking(r[i], t)
    requires t in r[i].call && r[i].call[t] == Timing && t in r[i].late
    ensures t in r[i + 1].pc && ToEnd(r[i + 1], t) < ToEnd(r[i], t) && t in r[i + 1].late
    ensures ToEnd(r[i + 1], t) == 0 ==> r[i + 1].pc[t] == Idle || Owns(r[i + 1], t)
  {
    RunKeeps(shared, r, i);
    assert CallOk(r[i], t);
  }

  /** Up to step `n`, nobody but `t` does anything. */
  ghost predicate Only(shared: int, r: seq<State>, n: nat, t: Tid) {
    n < |r| && forall i {:trigger OnlyAt(shared, r, i, t)} :: 0 < i <= n ==> OnlyAt(shared, r, i, t)
  }

  ghost predicate OnlyAt(shared: int, r: seq<State>, i: int, t: Tid) {
    0 < i < |r| && (Next(shared, r[i - 1], t, r[i]) || Tick(r[i - 1], t, r[i]))
  }

  /** The thread is neither on the slow path nor about to wake anybody. */
  predicate Quiet(pc: PC) {
    pc.Idle? || pc.LockCas? || pc.TryCas? || pc.Holding? || pc.UnlockDec?
  }

  /** A thread that has the mutex to itself never makes a futex system call: the mutex is never marked contended. */
  lemma {:induction false} Uncontended(shared: int, r: seq<State>, n: nat, t: Tid)
    requires Run(shared, r) && Only(shared, r, n, t) && t in r[0].pc
    ensures t in r[n].pc && Quiet(r[n].pc[t]) && r[n].word == if Owns(r[n], t) then shared + 1 else shared
    decreases n
  {
    if n > 0 {
      Uncontended(shared, r, n - 1, t);
      assert OnlyAt(shared, r, n, t);
    }
  }

  /** No lost wakeup: a sleeper is never left with a mutex that nobody will hand on. */
  lemma {:induction false} NoLostWakeup(shared: int, r: seq<State>, i: nat, t: Tid)
    requires Run(shared, r) && i < |r| && Sleeps(r[i], t)
    ensures r[i].word == shared + 2 || (exists u :: Releasing(r[i], u)) || (exists u :: Retrying(r[i], u))
  {
    RunKeeps(shared, r, i);
  }

  /** While a thread sleeps, another one is awake in a call or holds the mutex. */
  lemma {:induction false} SomebodyAwake(shared: int, r: seq<State>, i: nat, t: Tid) returns (u: Tid)
    requires Run(shared, r) && i < |r| && Sleeps(r[i], t)
    ensures u in r[i].pc && !Sleeps(r[i], u) && r[i].pc[u] != Idle
  {
    RunKeeps(shared, r, i);
    if v :| Releasing(r[i], v) || Retrying(r[i], v) {
      u := v;
    } else {
      u :| Owns(r[i], u);
    }
  }
}
