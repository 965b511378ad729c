/** `pthread_once`, one step per atomic operation, for any number of threads. */
module Once {
  const ONCE_INIT: nat := 0
  const ONCE_INITIALIZING: nat := 1
  const ONCE_COMPLETED: nat := 2

  type Tid = nat

  /** Where a thread is in its call, with the value of its local `oldval`. */
  datatype PC =
    | Idle
    | Check
    | Load
    | Cas(oldval: nat)
    | Wait(oldval: nat)
    | Asleep
    | Running
    | Store
    | WakeAll
    | Returned

  /** The control word, and as history how often the routine was started and whether it has completed. */
  datatype State = State(word: nat, pc: map<Tid, PC>, starts: nat, finished: bool)

  function At(s: State, t: Tid, pc: PC): State {
    s.(pc := s.pc[t := pc])
  }

  /** Bit 0 of the control word, whose values are below 4. */
  predicate Initializing(v: nat) {
    v % 2 == 1
  }

  /** Bit 1. */
  predicate Completed(v: nat) {
    v / 2 % 2 == 1
  }

  predicate Sleeps(s: State, t: Tid) {
    t in s.pc && s.pc[t].Asleep?
  }

  predicate HasReturned(s: State, t: Tid) {
    t in s.pc && s.pc[t].Returned?
  }

  /** The thread runs the routine, or has run it and not yet published that. */
  predicate Initializer(s: State, t: Tid) {
    t in s.pc && (s.pc[t].Running? || s.pc[t].Store?)
  }

  predicate Waking(s: State, t: Tid) {
    t in s.pc && s.pc[t].WakeAll?
  }

  ghost predicate Init(s: State) {
    s.word == ONCE_INIT && s.starts == 0 && !s.finished && forall t | t in s.pc :: s.pc[t] == Idle
  }

  ghost predicate Next(s: State, t: Tid, s': State) {
    && t in s.pc
    && match s.pc[t]
       case Idle => s' == At(s, t, Check)
       case Check => s' == At(s, t, if Completed(s.word) then Returned else Load)
       case Load => s' == At(s, t, if Completed(s.word) then Returned else Cas(s.word))
       case Cas(oldval) =>
         s' == if s.word != oldval then At(s, t, Load)
               else if Initializing(oldval) then At(s, t, Wait(oldval))
               else At(s, t, Running).(word := oldval + ONCE_INITIALIZING, starts := s.starts + 1)
       case Wait(oldval) => s' == At(s, t, if s.word == oldval then Asleep else Load)
       case Asleep => s' == At(s, t, Load)
       case Running => s' == At(s, t, Store).(finished := true)
       case Store => s' == At(s, t, WakeAll).(word := ONCE_COMPLETED)
       case WakeAll =>
         s' == s.(pc := map u | u in s.pc :: if u == t then Returned else if s.pc[u].Asleep? then Load else s.pc[u])
       case Returned => s' == At(s, t, Check)
  }

  // ---- The invariant ----

  ghost predicate Counts(s: State) {
    && s.word <= 2
    && (s.word == ONCE_INIT ==> s.starts == 0 && !s.finished && forall t :: !Initializer(s, t))
    && (s.word != ONCE_INIT ==> s.starts == 1)
    && (s.word == ONCE_INITIALIZING ==> exists t :: Initializer(s, t))
    && (s.word == ONCE_COMPLETED ==> s.finished && forall t :: !Initializer(s, t))
    && (forall t, u | Initializer(s, t) && Initializer(s, u) :: t == u)
  }

  ghost predicate PcOk(s: State, t: Tid) {
    t in s.pc ==>
      match s.pc[t]
      case Cas(oldval) => oldval <= 1
      case Wait(oldval) => oldval == ONCE_INITIALIZING
      case Store => s.finished
      case WakeAll => s.word == ONCE_COMPLETED
      case Returned => s.word == ONCE_COMPLETED
      case _ => true
  }

  ghost predicate Heeded(s: State) {
    (exists t :: Sleeps(s, t)) ==> s.word == ONCE_INITIALIZING || exists t :: Waking(s, t)
  }

  ghost predicate Inv(s: State) {
    Counts(s) && (forall t {:trigger PcOk(s, t)} :: PcOk(s, t)) && Heeded(s)
  }

  lemma {:induction false} Others(s: State, t: Tid, s': State, u: Tid)
    requires Next(s, t, s') && u != t
    ensures u in s.pc <==> u in s'.pc
    ensures u in s.pc ==> s'.pc[u] == s.pc[u] || (s.pc[u].Asleep? && s'.pc[u].Load? && s.pc[t].WakeAll?)
    ensures Initializer(s', u) <==> Initializer(s, u)
    ensures Waking(s', u) <==> Waking(s, u)
    ensures Sleeps(s', u) ==> Sleeps(s, u) && !s.pc[t].WakeAll?
  {
  }

  lemma {:induction false} CountsStep(s: State, t: Tid, s': State)
    requires Next(s, t, s') && Inv(s)
    ensures Counts(s')
  {
    assert PcOk(s, t);
    assert Initializer(s, t) ==> s.word == ONCE_INITIALIZING;
    forall u
      ensures u != t ==> (Initializer(s', u) <==> Initializer(s, u))
    {
      if u != t { Others(s, t, s', u); }
    }
    if s'.word == ONCE_INITIALIZING && !Initializer(s', t) {
      var u :| Initializer(s, u);
      assert Initializer(s', u);
    }
    assert Initializer(s', t) && !Initializer(s, t) ==> s.word == ONCE_INIT && s'.word == ONCE_INITIALIZING;
    assert s'.word != s.word ==> Initializer(s, t) || s.word == ONCE_INIT;
  }

  lemma {:induction false} PcOkStep(s: State, t: Tid, s': State, u: Tid)
    requires Next(s, t, s') && Inv(s)
    ensures PcOk(s', u)
  {
    assert PcOk(s, t) && PcOk(s, u);
    assert Initializer(s, t) ==> s.word == ONCE_INITIALIZING;
    if u != t { Others(s, t, s', u); }
  }

  lemma {:induction false} HeededStep(s: State, t: Tid, s': State)
    requires Next(s, t, s') && Inv(s)
    ensures Heeded(s')
  {
    assert PcOk(s, t);
    if u :| Sleeps(s', u) {
      if u != t { Others(s, t, s', u); }
      if !Waking(s', t) && s'.word != ONCE_INITIALIZING {
        var w :| Waking(s, w);
        Others(s, t, s', w);
      }
    }
  }

  lemma {:induction false} StepKeeps(s: State, t: Tid, s': State)
    requires Next(s, t, s') && Inv(s)
    ensures Inv(s')
  {
    CountsStep(s, t, s');
    HeededStep(s, t, s');
    forall u
      ensures PcOk(s', u)
    {
      PcOkStep(s, t, s', u);
    }
  }

  // ---- Runs ----

  ghost predicate Steps(s: State, s': State) {
    exists t :: Next(s, t, s')
  }

  ghost predicate Run(r: seq<State>) {
    r != [] && Init(r[0]) && forall i {:trigger StepAt(r, i)} :: StepAt(r, i)
  }

  ghost predicate StepAt(r: seq<State>, i: int) {
    0 < i < |r| ==> Steps(r[i - 1], r[i])
  }

  lemma {:induction false} RunKeeps(r: seq<State>, i: nat)
    requires Run(r) && i < |r|
    ensures Inv(r[i])
  {
    if i > 0 {
      RunKeeps(r, i - 1);
      assert StepAt(r, i);
      var t :| Next(r[i - 1], t, r[i]);
      StepKeeps(r[i - 1], t, r[i]);
    }
  }

  /** The routine is started at most once, and by the time any call returns it has run to completion. */
  lemma {:induction false} RunsOnce(r: seq<State>, i: nat, t: Tid)
    requires Run(r) && i < |r|
    ensures r[i].starts <= 1
    ensures HasReturned(r[i], t) ==> r[i].starts == 1 && r[i].finished
    ensures HasReturned(r[i], t) ==> forall u :: !Initializer(r[i], u)
  {
    RunKeeps(r, i);
    assert PcOk(r[i], t);
  }

  /** Nobody but `t` runs the routine. */
  ghost predicate Alone(s: State, t: Tid) {
    forall u | Initializer(s, u) :: u == t
  }

  /** How many more steps of its own a call needs at most, if nobody else acts and nobody else runs the routine. */
  function Remaining(s: State, t: Tid): nat
    requires t in s.pc
  {
    match s.pc[t]
    case Idle => 0
    case Returned => 0
    case Check => 6
    case Load => 5
    case Cas(oldval) => if oldval == s.word then 4 else 6
    case Wait(_) => 6
    case Asleep => 6
    case Running => 3
    case Store => 2
    case WakeAll => 1
  }

  /**
   * A call returns after at most six undisturbed steps unless another thread runs the routine, so that the first caller
   * runs it and later callers return.
   */
  lemma {:induction false} Progress(r: seq<State>, i: nat, t: Tid)
    requires Run(r) && i + 1 < |r| && Next(r[i], t, r[i + 1]) && r[i].pc[t] != Idle && r[i].pc[t] != Returned && Alone(r[i], t)
    ensures t in r[i + 1].pc && Remaining(r[i + 1], t) < Remaining(r[i], t) && Alone(r[i + 1], t)
    ensures r[i + 1].pc[t] != Idle && (r[i + 1].pc[t] == Returned ==> r[i + 1].finished)
  {
    var s, s' := r[i], r[i + 1];
    RunKeeps(r, i);
    RunKeeps(r, i + 1);
    assert PcOk(s, t) && PcOk(s', t);
    forall u | Initializer(s', u)
      ensures u == t
    {
      if u != t { Others(s, t, s', u); }
    }
  }

  /** How many more steps of its own a call needs at most until it sleeps, if nobody else acts. */
  function ToRest(s: State, t: Tid): nat
    requires t in s.pc
  {
    match s.pc[t]
    case Check => 4
    case Load => 3
    case Cas(oldval) => if oldval == s.word then 2 else 4
    case Wait(oldval) => if oldval == s.word then 1 else 4
    case _ => 0
  }

  /** A call does not spin: while another thread runs the routine it is asleep after at most four steps. */
  lemma {:induction false} Settles(r: seq<State>, i: nat, t: Tid, u: Tid)
    requires Run(r) && i + 1 < |r| && Next(r[i], t, r[i + 1]) && u != t && Initializer(r[i], u)
    requires r[i].pc[t] != Idle && r[i].pc[t] != Asleep
    ensures t in r[i + 1].pc && ToRest(r[i + 1], t) < ToRest(r[i], t) && (ToRest(r[i + 1], t) == 0 ==> Sleeps(r[i + 1], t))
    ensures Initializer(r[i + 1], u)
  {
    RunKeeps(r, i);
    assert PcOk(r[i], t) && !Initializer(r[i], t);
    Others(r[i], t, r[i + 1], u);
  }

  /** Once a call has returned, any other returns at once and changes nothing. */
  lemma {:induction false} LaterCalls(r: seq<State>, i: nat, t: Tid, u: Tid)
    requires Run(r) && i + 2 < |r| && HasReturned(r[i], u) && Next(r[i], t, r[i + 1]) && Next(r[i + 1], t, r[i + 2])
    requires r[i].pc[t] == Idle || r[i].pc[t] == Returned
    ensures HasReturned(r[i + 2], t) && r[i + 2].word == r[i].word && r[i + 2].starts == 1
  {
    RunKeeps(r, i);
    assert PcOk(r[i], u);
  }

  /** A waiter sleeps only while the routine is running or the completer has yet to issue its wake. */
  lemma {:induction false} NoLostWakeup(r: seq<State>, i: nat, t: Tid) returns (u: Tid)
    requires Run(r) && i < |r| && Sleeps(r[i], t)
    ensures Initializer(r[i], u) || Waking(r[i], u)
  {
    RunKeeps(r, i);
    if r[i].word == ONCE_INITIALIZING {
      u :| Initializer(r[i], u);
    } else {
      u :| Waking(r[i], u);
    }
  }
}
