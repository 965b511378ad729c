/** Reader/writer locks: one step per critical section of the lock's internal monitor, for any number of threads. */
module RwLock {

  /** Thread ids; 0 stands for no thread. */
  type Tid = t: nat | 0 < t witness 1

  /** The four fields of the lock; who holds it, once per acquisition; and who waits, asleep or already woken. */
  datatype State = State(
    numLocks: int, pendingReaders: int, pendingWriters: int, writerThreadId: nat,
    readHolds: multiset<Tid>, writeHolds: multiset<Tid>,
    sleepingReaders: set<Tid>, wokenReaders: set<Tid>, sleepingWriters: set<Tid>, wokenWriters: set<Tid>)

  datatype Code = Ok | Ebusy | Eperm

  /** `read_precondition`. */
  predicate ReadPrecondition(s: State, t: Tid) {
    s.pendingWriters == 0 && (s.writerThreadId == 0 || s.writerThreadId == t)
  }

  /** `write_precondition`. */
  predicate WritePrecondition(s: State, t: Tid) {
    s.numLocks == 0 || s.writerThreadId == t
  }

  predicate Waits(s: State, t: Tid) {
    t in s.sleepingReaders + s.wokenReaders + s.sleepingWriters + s.wokenWriters
  }

  predicate Holds(s: State, t: Tid) {
    t in s.readHolds || t in s.writeHolds
  }

  function ReadLocked(s: State, t: Tid): State {
    s.(numLocks := s.numLocks + 1, readHolds := s.readHolds + multiset{t})
  }

  function WriteLocked(s: State, t: Tid): State {
    s.(numLocks := s.numLocks + 1, writerThreadId := t, writeHolds := s.writeHolds + multiset{t})
  }

  /** `_pthread_rwlock_pulse`: everybody waiting is woken. */
  function Pulse(s: State): State {
    if s.pendingReaders > 0 || s.pendingWriters > 0 then
      s.(wokenReaders := s.wokenReaders + s.sleepingReaders, sleepingReaders := {},
         wokenWriters := s.wokenWriters + s.sleepingWriters, sleepingWriters := {})
    else s
  }

  /** `pthread_rwlock_tryrdlock`. */
  function TryRead(s: State, t: Tid): (State, Code) {
    if ReadPrecondition(s, t) then (ReadLocked(s, t), Ok) else (s, Ebusy)
  }

  /** `pthread_rwlock_trywrlock`. */
  function TryWrite(s: State, t: Tid): (State, Code) {
    if WritePrecondition(s, t) then (WriteLocked(s, t), Ok) else (s, Ebusy)
  }

  /** `pthread_rwlock_rdlock` up to its return or its first wait. */
  function StartRead(s: State, t: Tid): State {
    if ReadPrecondition(s, t) then ReadLocked(s, t)
    else s.(pendingReaders := s.pendingReaders + 1, sleepingReaders := s.sleepingReaders + {t})
  }

  /** A woken reader, back in the monitor, tests its condition again. */
  function RetryRead(s: State, t: Tid): State {
    if ReadPrecondition(s, t)
    then ReadLocked(s.(pendingReaders := s.pendingReaders - 1, wokenReaders := s.wokenReaders - {t}), t)
    else s.(wokenReaders := s.wokenReaders - {t}, sleepingReaders := s.sleepingReaders + {t})
  }

  function StartWrite(s: State, t: Tid): State {
    if WritePrecondition(s, t) then WriteLocked(s, t)
    else s.(pendingWriters := s.pendingWriters + 1, sleepingWriters := s.sleepingWriters + {t})
  }

  function RetryWrite(s: State, t: Tid): State {
    if WritePrecondition(s, t)
    then WriteLocked(s.(pendingWriters := s.pendingWriters - 1, wokenWriters := s.wokenWriters - {t}), t)
    else s.(wokenWriters := s.wokenWriters - {t}, sleepingWriters := s.sleepingWriters + {t})
  }

  /** One of `t`'s holds is gone. The code does not record which; those for writing are taken to go last. */
  function Dropped(s: State, t: Tid): State {
    if t in s.readHolds then s.(readHolds := s.readHolds - multiset{t}) else s.(writeHolds := s.writeHolds - multiset{t})
  }

  /** `pthread_rwlock_unlock`. */
  function Unlock(s: State, t: Tid): (State, Code) {
    if s.numLocks == 0 then (s, Eperm)
    else if s.writerThreadId != 0 && s.writerThreadId != t then (s, Eperm)
    else
      var d := Dropped(s, t).(numLocks := s.numLocks - 1);
      if s.numLocks == 1 then (Pulse(d.(writerThreadId := 0)), Ok) else (d, Ok)
  }

  datatype Action =
    | CallRead | CallWrite | CallTryRead | CallTryWrite | CallUnlock
    | AgainRead | AgainWrite | WakeReader | WakeWriter

  /** Who may act: a thread calls only when it is not waiting, and unlocks only what it holds. */
  predicate Enabled(s: State, t: Tid, a: Action) {
    match a
    case AgainRead => t in s.wokenReaders
    case AgainWrite => t in s.wokenWriters
    case WakeReader => t in s.sleepingReaders
    case WakeWriter => t in s.sleepingWriters
    case CallUnlock => !Waits(s, t) && Holds(s, t)
    case _ => !Waits(s, t)
  }

  /** One step of thread `t`; a sleeper may wake without a pulse. */
  function Act(s: State, t: Tid, a: Action): State {
    match a
    case CallRead => StartRead(s, t)
    case CallWrite => StartWrite(s, t)
    case CallTryRead => TryRead(s, t).0
    case CallTryWrite => TryWrite(s, t).0
    case CallUnlock => Unlock(s, t).0
    case AgainRead => RetryRead(s, t)
    case AgainWrite => RetryWrite(s, t)
    case WakeReader => s.(sleepingReaders := s.sleepingReaders - {t}, wokenReaders := s.wokenReaders + {t})
    case WakeWriter => s.(sleepingWriters := s.sleepingWriters - {t}, wokenWriters := s.wokenWriters + {t})
  }

  ghost predicate Init(s: State) {
    s == State(0, 0, 0, 0, multiset{}, multiset{}, {}, {}, {}, {})
  }

  // ---- The invariant ----

  ghost predicate HolderOk(w: nat, rh: multiset<Tid>, wh: multiset<Tid>, t: Tid) {
    (t in rh || t in wh) && w != 0 ==> t == w
  }

  /** `numLocks` counts the holds, and a nonzero writer id names the only holder, who holds for writing. */
  ghost predicate OwnedBy(n: int, w: nat, rh: multiset<Tid>, wh: multiset<Tid>) {
    && n == |rh| + |wh| && (w == 0 ==> |wh| == 0) && (w != 0 ==> w in wh)
    && forall t: Tid {:trigger HolderOk(w, rh, wh, t)} :: HolderOk(w, rh, wh, t)
  }

  ghost predicate Owned(s: State) {
    OwnedBy(s.numLocks, s.writerThreadId, s.readHolds, s.writeHolds)
  }

  ghost predicate Counted(s: State) {
    && s.pendingReaders == |s.sleepingReaders| + |s.wokenReaders|
    && s.pendingWriters == |s.sleepingWriters| + |s.wokenWriters|
    && s.sleepingReaders !! s.wokenReaders && s.sleepingWriters !! s.wokenWriters
  }

  /** When the lock is free no writer sleeps, and a reader sleeps only for the sake of a woken writer. */
  ghost predicate Heeded(s: State) {
    s.numLocks == 0 ==> |s.sleepingWriters| == 0 && (|s.sleepingReaders| > 0 ==> |s.wokenWriters| > 0)
  }

  ghost predicate Inv(s: State) {
    Owned(s) && Counted(s) && Heeded(s)
  }

  lemma {:induction false} ReadLockedOwned(s: State, t: Tid)
    requires Owned(s) && (s.writerThreadId == 0 || s.writerThreadId == t)
    ensures Owned(ReadLocked(s, t))
  {
    var s' := ReadLocked(s, t);
    forall u: Tid
      ensures HolderOk(s'.writerThreadId, s'.readHolds, s'.writeHolds, u)
    {
      assert HolderOk(s.writerThreadId, s.readHolds, s.writeHolds, u);
    }
  }

  lemma {:induction false} WriteLockedOwned(s: State, t: Tid)
    requires Owned(s) && WritePrecondition(s, t)
    ensures Owned(WriteLocked(s, t))
  {
    var s' := WriteLocked(s, t);
    forall u: Tid
      ensures HolderOk(s'.writerThreadId, s'.readHolds, s'.writeHolds, u)
    {
      if Holds(s, u) { HoldersCount(s, u); }
    }
  }

  /** A holder counts in `numLocks`. */
  lemma {:induction false} HoldersCount(s: State, t: Tid)
    requires Owned(s) && Holds(s, t)
    ensures s.numLocks > 0 && (t in s.writeHolds ==> s.writerThreadId == t)
    ensures s.writerThreadId != 0 ==> s.writerThreadId == t
  {
    assert HolderOk(s.writerThreadId, s.readHolds, s.writeHolds, t);
    if t in s.readHolds { assert |s.readHolds - multiset{t}| == |s.readHolds| - 1; }
    if t in s.writeHolds { assert |s.writeHolds - multiset{t}| == |s.writeHolds| - 1; }
  }

  /** A multiset of one thread's holds has as many elements as the thread has holds. */
  lemma {:induction false} OnlyHolder(m: multiset<Tid>, t: Tid)
    requires forall u: Tid | u in m :: u == t
    ensures |m| == m[t]
    decreases |m|
  {
    if t in m {
      assert |m - multiset{t}| == |m| - 1;
      OnlyHolder(m - multiset{t}, t);
    } else if u: Tid :| u in m {
      assert false;
    } else {
      assert m == multiset{};
    }
  }

  /** After an unlock that leaves holds, a writer still has one for writing. */
  lemma {:induction false} StillWriting(s: State, t: Tid)
    requires Owned(s) && Holds(s, t) && s.numLocks > 1 && s.writerThreadId != 0
    ensures s.writerThreadId in Dropped(s, t).writeHolds
  {
    HoldersCount(s, t);
    if t !in s.readHolds {
      forall u: Tid
        ensures (u in s.readHolds ==> u == t) && (u in s.writeHolds ==> u == t)
      {
        assert HolderOk(s.writerThreadId, s.readHolds, s.writeHolds, u);
      }
      OnlyHolder(s.readHolds, t);
      OnlyHolder(s.writeHolds, t);
    }
  }

  lemma {:induction false} UnlockOwned(s: State, t: Tid)
    requires Owned(s) && Holds(s, t)
    ensures Unlock(s, t).1 == Ok && Owned(Unlock(s, t).0)
    ensures Unlock(s, t).0.numLocks == s.numLocks - 1
  {
    HoldersCount(s, t);
    var d := Dropped(s, t);
    assert |d.readHolds| + |d.writeHolds| == s.numLocks - 1;
    var w := if s.numLocks == 1 then 0 else s.writerThreadId;
    if s.numLocks > 1 && w != 0 { StillWriting(s, t); }
    forall u: Tid
      ensures HolderOk(w, d.readHolds, d.writeHolds, u)
    {
      assert HolderOk(s.writerThreadId, s.readHolds, s.writeHolds, u);
    }
  }

  lemma {:induction false} OwnedStep(s: State, t: Tid, a: Action)
    requires Inv(s) && Enabled(s, t, a)
    ensures Owned(Act(s, t, a))
  {
    match a
    case CallUnlock => UnlockOwned(s, t);
    case _ =>
      if ReadPrecondition(s, t) { ReadLockedOwned(s, t); }
      if WritePrecondition(s, t) { WriteLockedOwned(s, t); }
  }

  lemma {:induction false} WaitersStep(s: State, t: Tid, a: Action)
    requires Inv(s) && Enabled(s, t, a)
    ensures Counted(Act(s, t, a)) && Heeded(Act(s, t, a))
  {
    match a
    case CallUnlock =>
      UnlockOwned(s, t);
      UnlockWaiters(s, t);
    case AgainRead => AgainReadWaiters(s, t);
    case AgainWrite => AgainWriteWaiters(s, t);
    case CallRead => StartReadWaiters(s, t);
    case CallWrite => StartWriteWaiters(s, t);
    case WakeReader => WakeReaderWaiters(s, t);
    case WakeWriter => WakeWriterWaiters(s, t);
    case CallTryRead =>
    case CallTryWrite =>
  }

  lemma {:induction false} StartReadWaiters(s: State, t: Tid)
    requires Inv(s) && !Waits(s, t)
    ensures Counted(StartRead(s, t)) && Heeded(StartRead(s, t))
  {
    assert s.sleepingReaders !! {t};
  }

  lemma {:induction false} StartWriteWaiters(s: State, t: Tid)
    requires Inv(s) && !Waits(s, t)
    ensures Counted(StartWrite(s, t)) && Heeded(StartWrite(s, t))
  {
    assert s.sleepingWriters !! {t};
  }

  lemma {:induction false} WakeReaderWaiters(s: State, t: Tid)
    requires Inv(s) && t in s.sleepingReaders
    ensures Counted(Act(s, t, WakeReader)) && Heeded(Act(s, t, WakeReader))
  {
    WakeWaiters(s.sleepingReaders, s.wokenReaders, t);
  }

  lemma {:induction false} WakeWriterWaiters(s: State, t: Tid)
    requires Inv(s) && t in s.sleepingWriters
    ensures Counted(Act(s, t, WakeWriter)) && Heeded(Act(s, t, WakeWriter))
  {
    WakeWaiters(s.sleepingWriters, s.wokenWriters, t);
  }

  lemma {:induction false} UnlockWaiters(s: State, t: Tid)
    requires Inv(s) && Unlock(s, t).1 == Ok && Unlock(s, t).0.numLocks == s.numLocks - 1
    ensures Counted(Unlock(s, t).0) && Heeded(Unlock(s, t).0)
  {
    PulseWaiters(Dropped(s, t).(numLocks := s.numLocks - 1, writerThreadId := 0));
  }

  lemma {:induction false} AgainReadWaiters(s: State, t: Tid)
    requires Inv(s) && t in s.wokenReaders
    ensures Counted(RetryRead(s, t)) && Heeded(RetryRead(s, t))
  {
    assert |s.wokenReaders - {t}| == |s.wokenReaders| - 1;
    assert |s.sleepingReaders + {t}| == |s.sleepingReaders| + 1;
  }

  lemma {:induction false} AgainWriteWaiters(s: State, t: Tid)
    requires Inv(s) && t in s.wokenWriters
    ensures Counted(RetryWrite(s, t)) && Heeded(RetryWrite(s, t))
  {
    assert |s.wokenWriters - {t}| == |s.wokenWriters| - 1;
    assert |s.sleepingWriters + {t}| == |s.sleepingWriters| + 1;
  }

  lemma {:induction false} WakeWaiters(sleeping: set<Tid>, woken: set<Tid>, t: Tid)
    requires sleeping !! woken && t in sleeping
    ensures |sleeping - {t}| + |woken + {t}| == |sleeping| + |woken| && (sleeping - {t}) !! (woken + {t})
    ensures |sleeping - {t}| == |sleeping| - 1 && |woken + {t}| == |woken| + 1
  {
  }

  lemma {:induction false} PulseWaiters(s: State)
    requires Counted(s)
    ensures Counted(Pulse(s)) && |Pulse(s).sleepingReaders| == |Pulse(s).sleepingWriters| == 0
  {
    assert |s.wokenReaders + s.sleepingReaders| == |s.wokenReaders| + |s.sleepingReaders|;
    assert |s.wokenWriters + s.sleepingWriters| == |s.wokenWriters| + |s.sleepingWriters|;
  }

  lemma {:induction false} StepKeeps(s: State, t: Tid, a: Action)
    requires Inv(s) && Enabled(s, t, a)
    ensures Inv(Act(s, t, a))
  {
    OwnedStep(s, t, a);
    WaitersStep(s, t, a);
  }

  // ---- Runs ----

  ghost predicate Steps(s: State, s': State) {
    exists t, a :: Enabled(s, t, a) && s' == Act(s, t, a)
  }

  ghost predicate Run(r: seq<State>) {
    r != [] && Init(r[0]) && forall i {:trigger StepAt(r, i)} :: StepAt(r, i)
  }

  ghost predicate StepAt(r: seq<State>, i: int) {
    0 < i < |r| ==> Steps(r[i - 1], r[i])
  }

  lemma {:induction false} RunKeeps(r: seq<State>, i: nat)
    requires Run(r) && i < |r|
    ensures Inv(r[i])
  {
    if i > 0 {
      RunKeeps(r, i - 1);
      assert StepAt(r, i);
      var t, a :| Enabled(r[i - 1], t, a) && r[i] == Act(r[i - 1], t, a);
      StepKeeps(r[i - 1], t, a);
    }
  }

  /** A nonzero writer id names the only holder of all `numLocks` holds; a zero one means only readers hold. */
  lemma {:induction false} WriterIdMeaning(r: seq<State>, i: nat, t: Tid)
    requires Run(r) && i < |r|
    ensures r[i].numLocks == |r[i].readHolds| + |r[i].writeHolds|
    ensures r[i].writerThreadId != 0 && Holds(r[i], t) ==> t == r[i].writerThreadId
    ensures r[i].writerThreadId == t <==> t in r[i].writeHolds
    ensures r[i].writerThreadId != 0 ==> r[i].numLocks > 0
  {
    RunKeeps(r, i);
    if Holds(r[i], t) { HoldersCount(r[i], t); }
    if r[i].writerThreadId != 0 { HoldersCount(r[i], r[i].writerThreadId); }
  }

  /** A write hold excludes every other thread. */
  lemma {:induction false} WriterExcludes(r: seq<State>, i: nat, t: Tid, u: Tid)
    requires Run(r) && i < |r| && t in r[i].writeHolds && Holds(r[i], u)
    ensures t == u
  {
    RunKeeps(r, i);
    HoldersCount(r[i], t);
    HoldersCount(r[i], u);
  }

  /** Nobody waits to write, and no other thread holds the lock for writing. */
  ghost predicate MayRead(s: State, t: Tid) {
    s.sleepingWriters == {} && s.wokenWriters == {} && forall u: Tid | u in s.writeHolds :: u == t
  }

  /** Nobody holds the lock, or `t` holds it for writing. */
  ghost predicate MayWrite(s: State, t: Tid) {
    (s.readHolds == multiset{} && s.writeHolds == multiset{}) || t in s.writeHolds
  }

  lemma {:induction false} NoMembers(a: set<Tid>, b: set<Tid>)
    ensures |a| + |b| == 0 <==> a == {} && b == {}
  {
  }

  /** The code's tests on its four fields are the rules in terms of who holds and who waits. */
  lemma {:induction false} Preconditions(s: State, t: Tid)
    requires Inv(s)
    ensures ReadPrecondition(s, t) <==> MayRead(s, t)
    ensures WritePrecondition(s, t) <==> MayWrite(s, t)
  {
    var w := s.writerThreadId;
    NoMembers(s.sleepingWriters, s.wokenWriters);
    if w != 0 { HoldersCount(s, w); }
    forall u: Tid | u in s.writeHolds
      ensures u == w
    {
      HoldersCount(s, u);
    }
    NoHolds(s.readHolds, s.writeHolds);
  }

  lemma {:induction false} NoHolds(a: multiset<Tid>, b: multiset<Tid>)
    ensures |a| + |b| == 0 <==> a == multiset{} && b == multiset{}
  {
  }

  /** `t` has one more read hold, and nobody else anything more or less. */
  ghost predicate GotRead(s: State, t: Tid, s': State) {
    && s'.readHolds == s.readHolds + multiset{t} && s'.writeHolds == s.writeHolds && !Waits(s', t)
    && s'.sleepingWriters == s.sleepingWriters && s'.wokenWriters == s.wokenWriters
    && s'.sleepingReaders + s'.wokenReaders == s.sleepingReaders + s.wokenReaders - {t}
  }

  ghost predicate GotWrite(s: State, t: Tid, s': State) {
    && s'.writeHolds == s.writeHolds + multiset{t} && s'.readHolds == s.readHolds && !Waits(s', t)
    && s'.sleepingReaders == s.sleepingReaders && s'.wokenReaders == s.wokenReaders
    && s'.sleepingWriters + s'.wokenWriters == s.sleepingWriters + s.wokenWriters - {t}
  }

  ghost predicate SameHolds(s: State, s': State) {
    s'.readHolds == s.readHolds && s'.writeHolds == s.writeHolds
  }

  /**
   * In every reachable state a reader is let in exactly if nobody waits to write and no other thread holds the lock for
   * writing; the lock's own writer may therefore read. A reader that is not let in sleeps, or is told EBUSY.
   */
  lemma {:induction false} ReadersLetIn(r: seq<State>, i: nat, t: Tid)
    requires Run(r) && i < |r| && !Waits(r[i], t)
    ensures TryRead(r[i], t).1 == if MayRead(r[i], t) then Ok else Ebusy
    ensures var s' := Act(r[i], t, CallTryRead);
            if MayRead(r[i], t) then GotRead(r[i], t, s') else s' == r[i]
    ensures var s' := Act(r[i], t, CallRead);
            if MayRead(r[i], t) then GotRead(r[i], t, s')
            else SameHolds(r[i], s') && s'.sleepingReaders == r[i].sleepingReaders + {t}
  {
    RunKeeps(r, i);
    Preconditions(r[i], t);
  }

  /** A woken reader is let in by the same rule. */
  lemma {:induction false} WokenReaderLetIn(r: seq<State>, i: nat, t: Tid)
    requires Run(r) && i < |r| && t in r[i].wokenReaders
    ensures var s' := Act(r[i], t, AgainRead);
            if MayRead(r[i], t)
            then t in s'.readHolds && s'.readHolds == r[i].readHolds + multiset{t} && s'.writeHolds == r[i].writeHolds
            else SameHolds(r[i], s') && s'.sleepingReaders == r[i].sleepingReaders + {t}
    ensures Act(r[i], t, AgainRead).wokenReaders == r[i].wokenReaders - {t}
  {
    RunKeeps(r, i);
    Preconditions(r[i], t);
  }

  /** In every reachable state a writer is let in exactly if nobody holds the lock, or the thread holds it for writing. */
  lemma {:induction false} WritersLetIn(r: seq<State>, i: nat, t: Tid)
    requires Run(r) && i < |r| && !Waits(r[i], t)
    ensures TryWrite(r[i], t).1 == if MayWrite(r[i], t) then Ok else Ebusy
    ensures var s' := Act(r[i], t, CallTryWrite);
            if MayWrite(r[i], t) then GotWrite(r[i], t, s') else s' == r[i]
    ensures var s' := Act(r[i], t, CallWrite);
            if MayWrite(r[i], t) then GotWrite(r[i], t, s')
            else SameHolds(r[i], s') && s'.sleepingWriters == r[i].sleepingWriters + {t}
  {
    RunKeeps(r, i);
    Preconditions(r[i], t);
  }

  lemma {:induction false} WokenWriterLetIn(r: seq<State>, i: nat, t: Tid)
    requires Run(r) && i < |r| && t in r[i].wokenWriters
    ensures var s' := Act(r[i], t, AgainWrite);
            if MayWrite(r[i], t) then s'.writeHolds == r[i].writeHolds + multiset{t} && s'.readHolds == r[i].readHolds
            else SameHolds(r[i], s') && s'.sleepingWriters == r[i].sleepingWriters + {t}
    ensures Act(r[i], t, AgainWrite).wokenWriters == r[i].wokenWriters - {t}
  {
    RunKeeps(r, i);
    Preconditions(r[i], t);
  }

  /**
   * Unlocking a held lock never answers EPERM; it gives up one hold of the thread and, if that was the last of all, wakes
   * everybody. Unlocking a free lock, or one that another thread holds for writing, answers EPERM and changes nothing.
   */
  lemma {:induction false} UnlockAnswers(r: seq<State>, i: nat, t: Tid)
    requires Run(r) && i < |r|
    ensures var s, s' := r[i], Act(r[i], t, CallUnlock);
            Holds(s, t) ==>
              && Unlock(s, t).1 == Ok && s'.readHolds + s'.writeHolds == s.readHolds + s.writeHolds - multiset{t}
              && (if s.numLocks > 1
                  then s'.sleepingReaders == s.sleepingReaders && s'.sleepingWriters == s.sleepingWriters
                  else s'.wokenReaders == s.wokenReaders + s.sleepingReaders && s'.wokenWriters == s.wokenWriters + s.sleepingWriters)
    ensures r[i].numLocks == 0 || (exists u: Tid :: u in r[i].writeHolds && u != t) ==> Unlock(r[i], t) == (r[i], Eperm)
  {
    RunKeeps(r, i);
    if u: Tid :| u in r[i].writeHolds && u != t { HoldersCount(r[i], u); }
    if Holds(r[i], t) {
      UnlockOwned(r[i], t);
      NoMembers(r[i].sleepingReaders, r[i].wokenReaders);
      NoMembers(r[i].sleepingWriters, r[i].wokenWriters);
    }
  }

  /** Once the lock is free no pending writer is asleep, and a sleeping reader has a woken writer before it. */
  lemma {:induction false} FreeLockIsContested(r: seq<State>, i: nat, t: Tid)
    requires Run(r) && i < |r| && r[i].numLocks == 0
    ensures t !in r[i].sleepingWriters
    ensures t in r[i].sleepingReaders ==> |r[i].wokenWriters| > 0
  {
    RunKeeps(r, i);
    Member(r[i].sleepingWriters, t);
    Member(r[i].sleepingReaders, t);
  }

  /** A woken writer of a free lock takes it, so the sleepers behind it are not stuck. */
  lemma {:induction false} WokenWriterSucceeds(r: seq<State>, i: nat, t: Tid)
    requires Run(r) && i < |r| && r[i].numLocks == 0 && t in r[i].wokenWriters
    ensures t in RetryWrite(r[i], t).writeHolds && RetryWrite(r[i], t).writerThreadId == t
  {
    RunKeeps(r, i);
    assert |r[i].wokenWriters - {t}| == |r[i].wokenWriters| - 1;
  }

  lemma {:induction false} Member(c: set<Tid>, t: Tid)
    ensures t in c ==> |c| > 0
  {
    if t in c { assert |c - {t}| == |c| - 1; }
  }
}
