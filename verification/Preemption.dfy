/** What signals can do to a lock attempt: nothing masks SIGALRM between the test-and-set of
    my_pthread_mutex_lock, its dequeue and its enqueue, and a signal may end its pause early. */
module Preemption {
  import opened SchedulerModel
  import opened Runs
  import opened RunSteps
  import opened Reachable

  // ----- between the test-and-set and the dequeue

  /** An attempt that nothing interrupts is one step of SchedulerModel, and its move to the wait queue comes in
      time. */
  lemma AttemptAtOnce(y: Sys, m: nat, z: Sys)
    requires Inv(y) && Follows(y, DoTest(m), z)
    ensures !y.s.locks[m].locked ==> z.s == LockAttempt(y.s, m, 0)
    ensures y.s.locks[m].locked ==>
              && Allowed(z, DoBlock(m)) && Safe(z, DoBlock(m)) && InTime(z, DoBlock(m))
              && y.s.levels[0] != [] && Step(z, DoBlock(m)).s == LockAttempt(y.s, m, 0)
  {
    var t := y.s.current.value;
    ActingIsHead(y, t);
    if y.s.locks[m].locked {
      assert y.s.locks[m := y.s.locks[m].(locked := true)] == y.s.locks;
      assert z.s == y.s;
    }
  }

  /** In a run that has stranded nobody so far, an attempt, first or repeated, that was interrupted before its
      dequeue strands nobody exactly when the mutex is LOCKED as it resumes, still or again, or another woken
      thread has still to retry for it. */
  lemma ResumedAttempt(ys: seq<Sys>, acts: seq<Action>, levels: nat, i: nat, m: nat)
    requires 2 <= levels && IsRun(ys, acts, levels) && i < |ys| && AllInTime(ys, acts, i) && Allowed(ys[i], DoBlock(m))
    ensures Safe(ys[i], DoBlock(m))
    ensures NobodyStranded(Step(ys[i], DoBlock(m))) <==>
            ys[i].s.locks[m].locked || exists u: nat :: Some(u) != ys[i].s.current && Retrier(ys[i], m, u)
  {
    RunInv(ys, acts, levels, i);
    RunStrandsNobody(ys, acts, levels, i);
    StepKeeps(ys[i], DoBlock(m));
  }

  // ----- between the dequeue and the enqueue

  /** A created thread stands in no queue and is not current. */
  ghost predicate Gone(s: Sched, t: nat) {
    && Created(s, t) && s.current != Some(t)
    && (forall l :: 0 <= l < |s.levels| ==> t !in s.levels[l])
    && (forall m :: 0 <= m < |s.locks| ==> t !in s.locks[m].waiters)
  }

  lemma TickLosesIt(s: Sched, t: nat)
    requires CanTick(s) && Created(s, t)
    requires forall l :: 0 <= l < |s.levels| ==> t !in s.levels[l]
    requires forall m :: 0 <= m < |s.locks| ==> t !in s.locks[m].waiters
    ensures Gone(Tick(s), t)
  {
    var s' := Tick(s);
    if s.afterUnlock != -1 { YieldAfterUnlockFrame(s); } else { YieldFrame(s); }
    forall l | 0 <= l < |s'.levels| ensures t !in s'.levels[l] {
      SameBagSameMembers(s.levels[l], s'.levels[l]);
    }
  }

  lemma StepKeepsGone(y: Sys, a: Action, y': Sys, t: nat)
    requires Follows(y, a, y') && Gone(y.s, t)
    ensures Gone(y'.s, t)
  {
    hide Tick, CanTick;
    match a
    case DoTick => TickLosesIt(y.s, t);
    case DoBlock(m) =>
      var q := y.s.levels[y.at[y.s.current.value].level];
      assert q[0] in q;
      AppendMember(y.s.locks[m].waiters, q[0]);
    case DoUnlock(m) =>
      var ws := y.s.locks[m].waiters;
      if ws != [] {
        assert ws[0] in ws;
        AppendMember(y.s.levels[0], ws[0]);
      }
    case DoCreate => AppendMember(y.s.levels[0], y.s.lastTid + 1);
    case _ =>
  }

  /** The states of any run go on from `ys[0]`, whatever that is. */
  ghost predicate GoesOn(ys: seq<Sys>, acts: seq<Action>) {
    |ys| == |acts| + 1 && forall i :: 0 <= i < |acts| ==> Follows(ys[i], acts[i], ys[i + 1])
  }

  lemma {:induction false} GoneForGood(ys: seq<Sys>, acts: seq<Action>, i: nat, t: nat)
    requires GoesOn(ys, acts) && i < |ys| && Gone(ys[0].s, t)
    ensures Gone(ys[i].s, t)
    decreases i
  {
    hide Follows, Gone;
    if i != 0 {
      GoneForGood(ys, acts, i - 1, t);
      StepKeepsGone(ys[i - 1], acts[i - 1], ys[i], t);
    }
  }

  /** Thread `t` has taken itself off its level and not yet put itself in the mutex's queue. */
  ghost function Dequeued(y: Sys): Sys
    requires 0 < |y.s.levels| && y.s.levels[0] != []
  {
    y.(s := y.s.(levels := y.s.levels[0 := y.s.levels[0][1..]]))
  }

  /** A thread interrupted between its dequeue and its enqueue, in any reachable state, is lost: however things
      go on after the tick, it never stands in a queue and never runs again. */
  lemma LostBetweenQueues(ys: seq<Sys>, acts: seq<Action>, levels: nat, i: nat, m: nat, t: nat,
                          zs: seq<Sys>, more: seq<Action>, k: nat)
    requires 2 <= levels && IsRun(ys, acts, levels) && i < |ys| && Blocking(ys[i], m, t)
    requires 0 < |ys[i].s.levels| && ys[i].s.levels[0] != [] && CanTick(Dequeued(ys[i]).s)
    requires GoesOn(zs, more) && zs[0] == Dequeued(ys[i]).(s := Tick(Dequeued(ys[i]).s)) && k < |zs|
    ensures Gone(zs[k].s, t)
  {
    RunInv(ys, acts, levels, i);
    var y := ys[i];
    ActingIsHead(y, t);
    HeadOnce(y.s);
    TickLosesIt(Dequeued(y).s, t);
    GoneForGood(zs, more, k, t);
  }

  // ----- a pause that ends early

  /** Should a signal end the pause of a thread in a mutex's queue without running another thread, it tests the
      mutex again. If it is free, the thread enters its critical section while it still stands in the queue
      and in no level. If it is LOCKED, the thread sends another thread to sleep in its stead, the head of the
      level; with the level empty, it enqueues a null tcb. */
  lemma WaiterWoken(ys: seq<Sys>, acts: seq<Action>, levels: nat, i: nat, m: nat, t: nat)
    requires 2 <= levels && IsRun(ys, acts, levels) && i < |ys|
    requires ys[i].s.current == Some(t) && m < |ys[i].s.locks| && t in ys[i].s.locks[m].waiters
    ensures t in ys[i].at && ys[i].at[t] == Retry(m, 0)
    ensures !ys[i].s.locks[m].locked ==>
              var s' := TestAndSet(ys[i].s, m);
              s'.locks[m].locked && t in s'.locks[m].waiters && forall l :: 0 <= l < |s'.levels| ==> t !in s'.levels[l]
    ensures 0 < |ys[i].s.levels|
    ensures ys[i].s.locks[m].locked && ys[i].s.levels[0] != [] ==>
              var h := ys[i].s.levels[0][0]; var s' := Block(TestAndSet(ys[i].s, m), m, 0);
              && h != t && s'.locks[m].waiters == ys[i].s.locks[m].waiters + [h]
              && InWaitQueue(s', h) && forall l :: 0 <= l < |s'.levels| ==> h !in s'.levels[l]
  {
    RunInv(ys, acts, levels, i);
    var y := ys[i];
    assert InWaitQueue(y.s, t);
    OnePlace(y.s, t);
    if y.s.locks[m].locked && y.s.levels[0] != [] {
      HeadOnce(y.s);
      HeadSleeps(y.s, m);
    }
  }

  /** What a failed test does to a level whose head is not the caller. */
  lemma HeadSleeps(s: Sched, m: nat)
    requires Queues(s) && s.levels[0] != [] && m < |s.locks| && s.levels[0][0] !in s.levels[0][1..]
    ensures var h := s.levels[0][0]; var s' := Block(TestAndSet(s, m), m, 0);
            && s'.locks[m].waiters == s.locks[m].waiters + [h]
            && InWaitQueue(s', h) && forall l :: 0 <= l < |s'.levels| ==> h !in s'.levels[l]
  {
    hide Conserved;
    var s' := Block(TestAndSet(s, m), m, 0);
    assert s.levels[0][0] in s'.locks[m].waiters;
  }
}
