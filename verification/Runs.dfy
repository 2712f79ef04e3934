/** Every run of the scheduler: threads create threads, lock, unlock, exit and return in any order that
    single-processor execution allows, and a tick may come between any two of their steps.

    An attempt to lock is two steps, its test-and-set and, when that fails, its move to the wait queue; an
    unlock is one. A thread in a mutex's queue, or at the end of its wrapper, is paused: it takes no step of
    its own until a tick runs it. The one exception is the pause of a thread whose function returned after
    it had exited, from which a signal may wake it. */
module Runs {
  import opened SchedulerModel
  import opened Bags

  /** Where a thread's own code stands: outside the library, in the loop of my_pthread_mutex_lock with the
      level it read on entry, or at one of the two pauses of its wrapper: the one of a thread that had exited
      before its function returned, or the last one. In the loop, Failed is between a failed test-and-set
      and the move to the wait queue, and Retry is from that move to the next test-and-set. */
  datatype Place = Free | Failed(lock: nat, level: int) | Retry(lock: nat, level: int) | Pausing | Finished

  /** The library's state with what the threads have done so far. */
  datatype Sys = Sys(
    s: Sched,
    at: map<nat, Place>,
    inside: seq<set<nat>>,     // per mutex, the threads between lock and unlock
    exited: map<nat, int>,     // results passed to my_pthread_exit
    returned: map<nat, int>,   // results returned by thread functions
    lateLock: bool)            // some thread called lock after it had exited

  datatype Action =
    | DoCreate
    | DoMutexInit
    | DoTest(m: nat)
    | DoBlock(m: nat)
    | DoUnlock(m: nat)
    | DoExit(v: int)
    | DoReturn(v: int)
    | DoResume
    | DoTick

  ghost function Start(levels: nat): Sys {
    Sys(Sched(seq(levels, i => []), [], map[], None, 0, -1, 0), map[], [], map[], map[], false)
  }

  // ----- steps

  ghost predicate InWaitQueue(s: Sched, t: nat) {
    exists m :: 0 <= m < |s.locks| && t in s.locks[m].waiters
  }

  /** Thread `t` is executing. */
  ghost predicate Acting(y: Sys, t: nat) {
    y.s.current == Some(t) && t in y.s.threads && t in y.at && !InWaitQueue(y.s, t)
  }

  ghost predicate ActingFree(y: Sys, t: nat) {
    Acting(y, t) && y.at[t] == Free
  }

  /** Thread `t` is about to test mutex `m`, in its first round of the loop or a later one. */
  ghost predicate Attempting(y: Sys, m: nat, t: nat) {
    Acting(y, t) && (y.at[t] == Free || (y.at[t].Retry? && y.at[t].lock == m))
  }

  /** The level a lock attempt dequeues from: the priority read at entry, kept across retries. */
  ghost function LockLevel(y: Sys, t: nat): int
    requires t in y.s.threads && t in y.at
  {
    if y.at[t].Retry? then y.at[t].level else y.s.threads[t].priority
  }

  /** What may happen next: a call by the thread that is executing, the next step of its lock attempt, its
      waking from the first pause, or, once the timer runs, a tick. Before the first create the caller has
      no tcb; it may call lock or exit all the same. Nothing here says that the library's own accesses are
      safe. */
  ghost predicate Allowed(y: Sys, a: Action) {
    match a
    case DoCreate => y.s.lastTid == 0 || (y.s.current.Some? && ActingFree(y, y.s.current.value))
    case DoMutexInit => y.s.lastTid == 0 || (y.s.current.Some? && ActingFree(y, y.s.current.value))
    case DoTest(m) =>
      m < |y.s.locks| && (y.s.lastTid == 0 || (y.s.current.Some? && Attempting(y, m, y.s.current.value)))
    case DoBlock(m) =>
      && y.s.current.Some? && m < |y.s.locks|
      && var t := y.s.current.value;
         Acting(y, t) && y.at[t].Failed? && y.at[t].lock == m
    case DoUnlock(m) =>
      && y.s.current.Some? && ActingFree(y, y.s.current.value)
      && m < |y.s.locks| && m < |y.inside| && y.s.current.value in y.inside[m]
    case DoExit(v) =>
      y.s.lastTid == 0 || (y.s.current.Some? && ActingFree(y, y.s.current.value) && y.s.current.value !in y.exited)
    case DoReturn(v) =>
      y.s.current.Some? && ActingFree(y, y.s.current.value) && y.s.current.value != 0
    case DoResume => y.s.current.Some? && Acting(y, y.s.current.value) && y.at[y.s.current.value] == Pausing
    case DoTick => 0 < y.s.lastTid
  }

  /** The library's accesses in this step are safe: no dequeue of an empty level, no thread without a tcb.
      A tick has to end, too. */
  ghost predicate Safe(y: Sys, a: Action) {
    match a
    case DoTest(m) =>
      && m < |y.s.locks| && m < |y.inside| && y.s.current.Some?
      && y.s.current.value in y.s.threads && y.s.current.value in y.at
    case DoBlock(m) =>
      && m < |y.s.locks| && y.s.current.Some?
      && y.s.current.value in y.s.threads && y.s.current.value in y.at && y.at[y.s.current.value].Failed?
      && 0 <= y.at[y.s.current.value].level < |y.s.levels|
      && y.s.levels[y.at[y.s.current.value].level] != []
    case DoUnlock(m) =>
      && m < |y.s.locks| && m < |y.inside| && 0 < |y.s.levels|
      && y.s.current.Some? && y.s.current.value in y.s.threads
      && (y.s.locks[m].waiters != [] ==> y.s.locks[m].waiters[0] in y.s.threads)
    case DoExit(v) => y.s.current.Some? && y.s.current.value in y.s.threads
    case DoReturn(v) => y.s.current.Some? && y.s.current.value in y.s.threads
    case DoResume =>
      y.s.current.Some? && y.s.current.value in y.s.threads && y.s.current.value in y.returned
    case DoTick => CanTick(y.s)
    case DoCreate => 0 < |y.s.levels|
    case DoMutexInit => true
  }

  ghost function CreateStep(y: Sys): Sys
    requires 0 < |y.s.levels|
  {
    y.(s := Create(y.s),
       at := if y.s.lastTid == 0 then y.at[0 := Free][1 := Free] else y.at[y.s.lastTid + 1 := Free])
  }

  ghost function TestStep(y: Sys, m: nat, t: nat): Sys
    requires m < |y.s.locks| && m < |y.inside| && t in y.s.threads && t in y.at
  {
    y.(s := TestAndSet(y.s, m),
       at := y.at[t := if y.s.locks[m].locked then Failed(m, LockLevel(y, t)) else Free],
       inside := if y.s.locks[m].locked then y.inside else y.inside[m := y.inside[m] + {t}],
       lateLock := y.lateLock || y.s.threads[t].state == Terminated)
  }

  ghost function BlockStep(y: Sys, m: nat, t: nat, l: nat): Sys
    requires m < |y.s.locks| && l < |y.s.levels| && y.s.levels[l] != []
  {
    y.(s := Block(y.s, m, l), at := y.at[t := Retry(m, l)])
  }

  ghost function UnlockStep(y: Sys, m: nat, t: nat): Sys
    requires m < |y.s.locks| && m < |y.inside| && 0 < |y.s.levels|
    requires y.s.current == Some(t) && t in y.s.threads
    requires y.s.locks[m].waiters != [] ==> y.s.locks[m].waiters[0] in y.s.threads
  {
    y.(s := Unlock(y.s, m), inside := y.inside[m := y.inside[m] - {t}])
  }

  ghost function ExitStep(y: Sys, t: nat, v: int): Sys
    requires y.s.current == Some(t) && t in y.s.threads
  {
    y.(s := Publish(y.s, v), exited := y.exited[t := v])
  }

  ghost function ReturnStep(y: Sys, t: nat, v: int): Sys
    requires y.s.current == Some(t) && t in y.s.threads
  {
    y.(s := WrapperReturn(y.s, v),
       at := y.at[t := if y.s.threads[t].state == Terminated then Pausing else Finished],
       returned := y.returned[t := v])
  }

  /** A thread that leaves the first pause goes on to publish what its function returned. */
  ghost function ResumeStep(y: Sys, t: nat): Sys
    requires y.s.current == Some(t) && t in y.s.threads && t in y.returned
  {
    y.(s := Publish(y.s, y.returned[t]), at := y.at[t := Finished])
  }

  ghost function Step(y: Sys, a: Action): Sys
    requires Safe(y, a)
  {
    match a
    case DoCreate => CreateStep(y)
    case DoMutexInit => y.(s := MutexInit(y.s), inside := y.inside + [{}])
    case DoTest(m) => TestStep(y, m, y.s.current.value)
    case DoBlock(m) => BlockStep(y, m, y.s.current.value, y.at[y.s.current.value].level)
    case DoUnlock(m) => UnlockStep(y, m, y.s.current.value)
    case DoExit(v) => ExitStep(y, y.s.current.value, v)
    case DoReturn(v) => ReturnStep(y, y.s.current.value, v)
    case DoResume => ResumeStep(y, y.s.current.value)
    case DoTick => y.(s := Tick(y.s))
  }

  /** A run: consecutive states joined by allowed actions. */
  ghost predicate IsRun(ys: seq<Sys>, acts: seq<Action>, levels: nat) {
    && |ys| == |acts| + 1 && ys[0] == Start(levels)
    && forall i :: 0 <= i < |acts| ==> Follows(ys[i], acts[i], ys[i + 1])
  }

  ghost predicate Follows(y: Sys, a: Action, y': Sys) {
    Allowed(y, a) && Safe(y, a) && y' == Step(y, a)
  }

  // ----- what every reachable state satisfies

  ghost predicate Created(s: Sched, t: nat) {
    0 < s.lastTid && t <= s.lastTid
  }

  ghost function WaitQueues(locks: seq<Lock>): seq<seq<nat>> {
    seq(|locks|, i requires 0 <= i < |locks| => locks[i].waiters)
  }

  /** Every place a thread can stand in, counted over all levels and all mutexes. */
  ghost function Places(s: Sched): multiset<nat> {
    Bag(s.levels) + Bag(WaitQueues(s.locks))
  }

  /** Each created thread stands in exactly one place. */
  ghost predicate Conserved(s: Sched) {
    forall t: nat :: Places(s)[t] == if Created(s, t) then 1 else 0
  }

  ghost predicate Queues(s: Sched) {
    && 2 <= |s.levels| && 0 <= s.hasRun && (s.afterUnlock == -1 || s.afterUnlock == 0)
    && (forall l :: 0 < l < |s.levels| ==> s.levels[l] == [])
    && (forall t :: t in s.threads <==> Created(s, t))
    && (forall t :: t in s.threads ==> s.threads[t].priority == 0)
    && Conserved(s)
  }

  ghost predicate CurrentPlaced(s: Sched) {
    match s.current
    case None => forall l :: 0 <= l < |s.levels| ==> s.levels[l] == []
    case Some(t) => Created(s, t) && ((0 < |s.levels| && s.levels[0] != [] && s.levels[0][0] == t) || InWaitQueue(s, t))
  }

  /** At most one thread is between lock and unlock, and exactly while the mutex is LOCKED. */
  ghost predicate Exclusive(y: Sys) {
    && |y.inside| == |y.s.locks|
    && (forall m :: 0 <= m < |y.inside| ==>
                     if y.s.locks[m].locked then exists t :: y.inside[m] == {t} else y.inside[m] == {})
    && forall m, t :: 0 <= m < |y.inside| && t in y.inside[m] ==> t in y.s.threads
  }

  ghost predicate InLoop(p: Place) {
    p.Failed? || p.Retry?
  }

  ghost predicate PlacesAgree(y: Sys) {
    && y.at.Keys == y.s.threads.Keys
    && (forall t :: t in y.at && InLoop(y.at[t]) ==> y.at[t].lock < |y.s.locks| && y.at[t].level == 0)
    && (forall m, t :: 0 <= m < |y.s.locks| && t in y.s.locks[m].waiters ==> t in y.at && y.at[t] == Retry(m, 0))
    && (!y.lateLock ==> forall t :: t in y.at && InLoop(y.at[t]) ==> t in y.s.threads && y.s.threads[t].state != Terminated)
  }

  /** A woken thread that has still to retry for mutex `m`. */
  ghost predicate Retrier(y: Sys, m: nat, t: nat) {
    && (exists l :: 0 <= l < |y.s.levels| && t in y.s.levels[l])
    && t in y.at && y.at[t].Retry? && y.at[t].lock == m
  }

  /** While a thread waits for a mutex, somebody holds it or a woken thread has still to retry for it. */
  ghost predicate NobodyStranded(y: Sys) {
    forall m :: 0 <= m < |y.s.locks| && y.s.locks[m].waiters != [] ==>
                  y.s.locks[m].locked || exists t :: Retrier(y, m, t)
  }

  /** A thread that exited and returned, and left the first pause, has overwritten its exit value. */
  ghost predicate Overwritten(y: Sys, t: nat) {
    t in y.exited && t in y.at && y.at[t] == Finished
  }

  /** Thread `t` is TERMINATED exactly when it has exited or returned, and then its tcb holds the result. */
  ghost predicate ResultRight(y: Sys, t: nat) {
    && (t in y.exited || t in y.returned ==> t in y.s.threads)
    && (t in y.s.threads ==>
          && (y.s.threads[t].state == Terminated <==> t in y.exited || t in y.returned)
          && (t in y.exited && !Overwritten(y, t) ==> y.s.threads[t].ret == y.exited[t])
          && (t in y.returned && (t !in y.exited || Overwritten(y, t)) ==> y.s.threads[t].ret == y.returned[t]))
    && (t in y.returned <==> t in y.at && (y.at[t] == Pausing || y.at[t] == Finished))
    && (t in y.at && y.at[t] == Pausing ==> t in y.exited)
  }

  ghost predicate ResultsPublished(y: Sys) {
    forall t: nat :: ResultRight(y, t)
  }

  /** What every run keeps. */
  ghost predicate Inv(y: Sys) {
    Queues(y.s) && CurrentPlaced(y.s) && Exclusive(y) && PlacesAgree(y) && ResultsPublished(y)
  }

  /** A move to the wait queue comes in time: the mutex is LOCKED, still or again, or a woken thread has still
      to retry for it. */
  ghost predicate InTime(y: Sys, a: Action) {
    a.DoBlock? ==> a.m < |y.s.locks| && (y.s.locks[a.m].locked || exists u :: Retrier(y, a.m, u))
  }
}
