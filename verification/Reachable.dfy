/** What holds of whole runs: conservation, mutual exclusion, nobody stranded, results delivered. */
module Reachable {
  import opened SchedulerModel
  import opened Bags
  import opened Runs
  import opened RunSteps

  // ----- whole runs

  lemma StartInv(levels: nat)
    requires 2 <= levels
    ensures Inv(Start(levels))
  {
    var s := Start(levels).s;
    BagOfEmpties(s.levels);
    assert WaitQueues(s.locks) == [];
  }

  lemma {:induction false} BagOfEmpties(qs: seq<seq<nat>>)
    requires forall l :: 0 <= l < |qs| ==> qs[l] == []
    ensures Bag(qs) == multiset{}
  {
    if qs != [] {
      BagOfEmpties(qs[1..]);
    }
  }

  lemma {:induction false} RunInv(ys: seq<Sys>, acts: seq<Action>, levels: nat, i: nat)
    requires 2 <= levels && IsRun(ys, acts, levels) && i < |ys|
    ensures Inv(ys[i])
    decreases i
  {
    if i == 0 {
      StartInv(levels);
    } else {
      RunInv(ys, acts, levels, i - 1);
      assert Follows(ys[i - 1], acts[i - 1], ys[i]);
      StepKeeps(ys[i - 1], acts[i - 1]);
    }
  }

  /** No move to a wait queue among the first `i` steps came late. */
  ghost predicate AllInTime(ys: seq<Sys>, acts: seq<Action>, i: nat) {
    forall j :: 0 <= j < i && j < |ys| && j < |acts| ==> InTime(ys[j], acts[j])
  }

  lemma {:induction false} RunStrandsNobody(ys: seq<Sys>, acts: seq<Action>, levels: nat, i: nat)
    requires 2 <= levels && IsRun(ys, acts, levels) && i < |ys| && AllInTime(ys, acts, i)
    ensures NobodyStranded(ys[i])
    decreases i
  {
    hide Inv, NobodyStranded, InTime, Follows;
    if i == 0 {
      assert ys[0] == Start(levels);
      StartStrandsNobody(levels);
    } else {
      RunStrandsNobody(ys, acts, levels, i - 1);
      RunStep(ys, acts, levels, i - 1);
      StepStrandsExactly(ys[i - 1], acts[i - 1], ys[i]);
    }
  }

  lemma StartStrandsNobody(levels: nat)
    ensures NobodyStranded(Start(levels))
  {
  }

  lemma StepStrandsExactly(y: Sys, a: Action, y': Sys)
    requires Inv(y) && Follows(y, a, y') && NobodyStranded(y)
    ensures NobodyStranded(y') <==> InTime(y, a)
  {
    StepKeeps(y, a);
  }

  lemma RunStep(ys: seq<Sys>, acts: seq<Action>, levels: nat, i: nat)
    requires 2 <= levels && IsRun(ys, acts, levels) && i + 1 < |ys|
    ensures |ys| == |acts| + 1 && Inv(ys[i]) && Follows(ys[i], acts[i], ys[i + 1])
  {
    hide Inv, Follows;
    RunInv(ys, acts, levels, i);
  }

  /** In every reachable state, whatever a thread is allowed to do next is safe, except lock and exit before the
      first create, which dereference a null current_tcb: the dequeue of a failed lock attempt finds the
      calling thread itself, and no queue yields an unknown thread. */
  lemma NoFault(ys: seq<Sys>, acts: seq<Action>, levels: nat, i: nat, a: Action)
    requires 2 <= levels && IsRun(ys, acts, levels) && i < |ys| && Allowed(ys[i], a) && !a.DoTick?
    ensures Safe(ys[i], a) <==> (NeedsTcb(a) ==> 0 < ys[i].s.lastTid)
    ensures a.DoBlock? ==>
              var s := ys[i].s;
              s.levels[0] != [] && s.levels[0][0] == s.current.value && ys[i].at[s.current.value] == Failed(a.m, 0)
  {
    RunInv(ys, acts, levels, i);
    StepKeeps(ys[i], a);
    if a.DoBlock? { ActingIsHead(ys[i], ys[i].s.current.value); }
  }

  /** A tick faults, or does not end, exactly when nobody is current or the first level holds no thread that
      has not ended; except that after an unlock one tick over an empty level leaves nobody current. */
  lemma TickFaults(ys: seq<Sys>, acts: seq<Action>, levels: nat, i: nat)
    requires 2 <= levels && IsRun(ys, acts, levels) && i < |ys| && ys[i].s.current.Some?
    ensures Coherent(ys[i].s) && 0 < |ys[i].s.levels|
    ensures !TickEnds(ys[i].s) <==>
            && (forall t :: t in ys[i].s.levels[0] ==> !LiveIn(ys[i].s.threads, t))
            && (ys[i].s.afterUnlock == -1 || ys[i].s.levels[0] != [])
    ensures TickEnds(ys[i].s) <==> Safe(ys[i], DoTick)
  {
    RunInv(ys, acts, levels, i);
    QueuesCoherent(ys[i].s);
    TickSafeExactly(ys[i].s);
    TickEndsExactly(ys[i].s);
  }

  /** An empty first level means that every thread waits for a mutex. If no move to a wait queue came late, it
      is a deadlock: every mutex waited for is held by one of these threads. */
  lemma EmptyLevelIsDeadlock(ys: seq<Sys>, acts: seq<Action>, levels: nat, i: nat)
    requires 2 <= levels && IsRun(ys, acts, levels) && i < |ys| && 0 < |ys[i].s.levels| && ys[i].s.levels[0] == []
    ensures forall t :: Created(ys[i].s, t) ==> InWaitQueue(ys[i].s, t)
    ensures AllInTime(ys, acts, i) ==>
              forall m :: 0 <= m < |ys[i].s.locks| && ys[i].s.locks[m].waiters != [] ==>
                            m < |ys[i].inside| && exists h :: ys[i].inside[m] == {h} && InWaitQueue(ys[i].s, h)
  {
    RunInv(ys, acts, levels, i);
    var y := ys[i];
    forall t | Created(y.s, t) ensures InWaitQueue(y.s, t) { OnePlace(y.s, t); }
    if AllInTime(ys, acts, i) {
      RunStrandsNobody(ys, acts, levels, i);
      assert forall m, t :: !Retrier(y, m, t);
      forall m | 0 <= m < |y.s.locks| && y.s.locks[m].waiters != []
        ensures exists h :: y.inside[m] == {h} && InWaitQueue(y.s, h)
      {
        assert OneHolder(y.s.locks[m].locked, y.inside[m]);
        var h :| y.inside[m] == {h};
        assert h in y.inside[m];
      }
    }
  }

  /** Conservation over all runs: every created thread stands in exactly one place, once: the first level or
      one mutex's queue. Its priority is 0, the other levels are empty, and the current thread heads the
      first level or waits. */
  lemma Conservation(ys: seq<Sys>, acts: seq<Action>, levels: nat, i: nat)
    requires 2 <= levels && IsRun(ys, acts, levels) && i < |ys|
    ensures var s := ys[i].s;
            && (forall t: nat :: Places(s)[t] == if Created(s, t) then 1 else 0)
            && (forall t :: t in s.threads ==> s.threads[t].priority == 0)
            && (forall l :: 0 < l < |s.levels| ==> s.levels[l] == [])
            && CurrentPlaced(s) && Coherent(s)
    ensures forall t :: Created(ys[i].s, t) ==> (t in ys[i].s.levels[0] <==> !InWaitQueue(ys[i].s, t))
  {
    RunInv(ys, acts, levels, i);
    var s := ys[i].s;
    QueuesCoherent(s);
    forall t | Created(s, t) ensures t in s.levels[0] <==> !InWaitQueue(s, t) {
      OnePlace(s, t);
    }
  }

  /** Mutual exclusion over all runs in which only holders unlock. */
  lemma MutualExclusion(ys: seq<Sys>, acts: seq<Action>, levels: nat, i: nat, m: nat)
    requires 2 <= levels && IsRun(ys, acts, levels) && i < |ys| && m < |ys[i].s.locks|
    ensures m < |ys[i].inside|
    ensures ys[i].s.locks[m].locked <==> ys[i].inside[m] != {}
    ensures forall t, u :: t in ys[i].inside[m] && u in ys[i].inside[m] ==> t == u
  {
    RunInv(ys, acts, levels, i);
    assert OneHolder(ys[i].s.locks[m].locked, ys[i].inside[m]);
  }

  /** No stranded waiters over all runs in which no move to a wait queue comes late: while threads wait for a mutex, it is LOCKED by a thread that has
      still to unlock it, or a woken thread in the run queue has still to retry. Unless some thread called
      lock after its own exit, that woken thread is not TERMINATED. */
  lemma NoStrandedWaiters(ys: seq<Sys>, acts: seq<Action>, levels: nat, i: nat, m: nat)
    requires 2 <= levels && IsRun(ys, acts, levels) && i < |ys|
    requires AllInTime(ys, acts, i) && m < |ys[i].s.locks| && ys[i].s.locks[m].waiters != []
    ensures (ys[i].s.locks[m].locked && m < |ys[i].inside| && exists h :: ys[i].inside[m] == {h})
            || exists t :: Retrier(ys[i], m, t) && t in ys[i].s.levels[0]
                           && (!ys[i].lateLock ==> LiveIn(ys[i].s.threads, t))
  {
    RunStrandsNobody(ys, acts, levels, i);
    RunInv(ys, acts, levels, i);
    var y := ys[i];
    assert OneHolder(y.s.locks[m].locked, y.inside[m]);
    if !y.s.locks[m].locked {
      var t :| Retrier(y, m, t);
      var l :| 0 <= l < |y.s.levels| && t in y.s.levels[l];
      assert l == 0;
    }
  }

  ghost predicate Ended(y: Sys, t: nat) {
    t in y.s.threads && y.s.threads[t].state == Terminated
  }

  lemma StepKeepsEnded(y: Sys, a: Action, y': Sys, t: nat)
    requires Inv(y) && Follows(y, a, y') && Ended(y, t)
    ensures Ended(y', t)
    ensures a.DoTick? ==> y'.s.current != Some(t)
  {
    hide Inv, Allowed, Tick, CanTick, Places;
    match a
    case DoCreate => EndedCreate(y.s, t) by { InvQueues(y); }
    case DoTick => EndedTick(y.s, t) by { InvQueues(y); }
    case DoUnlock(m) => EndedUnlock(y.s, m, t);
    case _ =>
  }

  lemma InvQueues(y: Sys)
    requires Inv(y)
    ensures Queues(y.s) && CurrentPlaced(y.s)
  {
  }

  lemma EndedCreate(s: Sched, t: nat)
    requires Queues(s) && t in s.threads
    ensures t in Create(s).threads && Create(s).threads[t] == s.threads[t]
  {
    assert Created(s, t);
  }

  lemma EndedTick(s: Sched, t: nat)
    requires Queues(s) && CurrentPlaced(s) && CanTick(s) && t in s.threads && s.threads[t].state == Terminated
    ensures t in Tick(s).threads && Tick(s).threads[t].state == Terminated && Tick(s).current != Some(t)
  {
    TickQueues(s);
  }

  lemma EndedUnlock(s: Sched, m: nat, t: nat)
    requires m < |s.locks| && 0 < |s.levels| && s.current.Some? && s.current.value in s.threads && t in s.threads
    requires s.locks[m].waiters != [] ==> s.locks[m].waiters[0] in s.threads
    ensures t in Unlock(s, m).threads && Unlock(s, m).threads[t].state == s.threads[t].state
  {
  }

  /** TERMINATED is absorbing, and such a thread is never run again. */
  lemma {:induction false} EndedForGood(ys: seq<Sys>, acts: seq<Action>, levels: nat, i: nat, j: nat, t: nat)
    requires 2 <= levels && IsRun(ys, acts, levels) && i <= j < |ys| && Ended(ys[i], t)
    ensures Ended(ys[j], t)
    ensures i < j && acts[j - 1].DoTick? ==> ys[j].s.current != Some(t)
    decreases j
  {
    hide IsRun, Inv, Follows, Ended;
    if i < j {
      EndedForGood(ys, acts, levels, i, j - 1, t);
      RunStep(ys, acts, levels, j - 1);
      StepKeepsEnded(ys[j - 1], acts[j - 1], ys[j], t);
    }
  }

  /** Tcbs stay once they are made. */
  lemma {:induction false} ThreadsStay(ys: seq<Sys>, acts: seq<Action>, levels: nat, i: nat, j: nat, t: nat)
    requires 2 <= levels && IsRun(ys, acts, levels) && i <= j < |ys| && HasTcb(ys[i], t)
    ensures HasTcb(ys[j], t)
    decreases j
  {
    hide IsRun, Inv, Follows, HasTcb;
    if i < j {
      ThreadsStay(ys, acts, levels, i, j - 1, t);
      RunStep(ys, acts, levels, j - 1);
      StepKeepsTcb(ys[j - 1], acts[j - 1], ys[j], t);
    }
  }

  ghost predicate HasTcb(y: Sys, t: nat) {
    t in y.s.threads
  }

  lemma StepKeepsTcb(y: Sys, a: Action, y': Sys, t: nat)
    requires Inv(y) && Follows(y, a, y') && HasTcb(y, t)
    ensures HasTcb(y', t)
  {
    hide Inv, Tick, CanTick;
    if a.DoTick? { TickKeepsTcbs(y.s) by { InvQueues(y); } }
  }

  lemma TickKeepsTcbs(s: Sched)
    requires Queues(s) && CurrentPlaced(s) && CanTick(s)
    ensures Tick(s).threads.Keys == s.threads.Keys
  {
    TickQueues(s);
  }

  /** A join that found its thread at moment `i` reads that thread's state from then on, wherever it stands.
      The join ends exactly once the thread has exited or returned. It then delivers the value passed to
      exit, unless the thread has left the first pause since, or never exited: then the function's result. */
  lemma JoinDelivers(ys: seq<Sys>, acts: seq<Action>, levels: nat, i: nat, j: nat, t: nat)
    requires 2 <= levels && IsRun(ys, acts, levels) && i <= j < |ys| && Scheduled(ys[i].s, t)
    ensures t in ys[j].s.threads
    ensures Outcome(ys[j].s, t).Some? <==> t in ys[j].exited || t in ys[j].returned
    ensures Outcome(ys[j].s, t).Some? ==>
              var v := Outcome(ys[j].s, t).value;
              if t in ys[j].exited && !Overwritten(ys[j], t) then v == ys[j].exited[t]
              else t in ys[j].returned && v == ys[j].returned[t]
    ensures t in ys[j].exited && Overwritten(ys[j], t) ==>
              t in ys[j].returned && (Outcome(ys[j].s, t) == Some(ys[j].exited[t]) <==> ys[j].returned[t] == ys[j].exited[t])
  {
    RunInv(ys, acts, levels, i);
    QueuesCoherent(ys[i].s);
    ThreadsStay(ys, acts, levels, i, j, t);
    RunInv(ys, acts, levels, j);
    assert ResultRight(ys[j], t);
  }

  /** Join fails exactly for threads that were never created or are waiting for a mutex. */
  lemma JoinFails(ys: seq<Sys>, acts: seq<Action>, levels: nat, i: nat, t: nat)
    requires 2 <= levels && IsRun(ys, acts, levels) && i < |ys|
    ensures !Scheduled(ys[i].s, t) <==> !Created(ys[i].s, t) || InWaitQueue(ys[i].s, t)
  {
    RunInv(ys, acts, levels, i);
    var s := ys[i].s;
    OnePlace(s, t);
    if Scheduled(s, t) {
      var l :| 0 <= l < |s.levels| && t in s.levels[l];
      assert l == 0;
    }
  }
}
