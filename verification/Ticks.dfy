/** Exactly what a tick does: which thread it runs, how far it turns the queue, and what it leaves of HAS_RUN and
    of the threads it passes over. */
module Ticks {
  import opened SchedulerModel

  /** The place of the first runnable thread, the length if there is none. */
  ghost function FirstRunnable(q: seq<nat>, threads: map<nat, Thread>): (k: nat)
    ensures k <= |q| && (k < |q| ==> Runnable(threads, q[k]))
    ensures forall i :: 0 <= i < k ==> !Runnable(threads, q[i])
  {
    if q == [] || Runnable(threads, q[0]) then 0 else FirstRunnable(q[1..], threads) + 1
  }

  /** The queue from place `k` on, with those before it at the end. */
  ghost function Turn(q: seq<nat>, k: nat): (r: seq<nat>)
    requires k <= |q|
  {
    q[k..] + q[..k]
  }

  /** Of the threads passed over, those in state YIELD become READY. */
  ghost function Skip(threads: map<nat, Thread>, q: seq<nat>): (r: map<nat, Thread>)
    ensures r.Keys == threads.Keys
  {
    map t | t in threads :: if t in q && threads[t].state == Yielding then threads[t].(state := Ready) else threads[t]
  }

  /** Level `d` turned to its `k`-th thread, which runs. */
  ghost function RunsPlace(s: Sched, d: nat, k: nat, threads: map<nat, Thread>, hasRun: int): Sched
    requires d < |s.levels| && k < |s.levels[d]| && s.levels[d][k] in threads
  {
    var r := s.levels[d];
    s.(levels := s.levels[d := Turn(r, k)], current := Some(r[k]), hasRun := hasRun,
       threads := SetState(Skip(threads, r[..k]), r[k], Running))
  }

  lemma FirstRunnableIs(q: seq<nat>, threads: map<nat, Thread>, k: nat)
    requires k < |q| && Runnable(threads, q[k]) && forall i :: 0 <= i < k ==> !Runnable(threads, q[i])
    ensures FirstRunnable(q, threads) == k
  {
  }

  lemma TurnOnce(q: seq<nat>, k: nat)
    requires 1 <= k < |q|
    ensures var r := q[1..] + [q[0]];
            && (forall i :: 0 <= i < k ==> r[i] == q[i + 1]) && r[..k - 1] == q[1..k]
            && q[..k] == [q[0]] + r[..k - 1] && Turn(r, k - 1) == Turn(q, k)
            && (Distinct(q) ==> Distinct(r) && q[0] !in r[..k])
  {
  }

  lemma SkipTwice(threads: map<nat, Thread>, a: seq<nat>, b: seq<nat>)
    ensures Skip(Skip(threads, a), b) == Skip(threads, a + b)
  {
  }

  /** Passing over the head of a queue: what is left to pass over. */
  lemma OneSkipped(q: seq<nat>, threads: map<nat, Thread>, k: nat)
    requires Distinct(q) && k == FirstRunnable(q, threads) && 1 <= k < |q| && q[0] in threads
    ensures FirstRunnable(q[1..] + [q[0]], Skip(threads, [q[0]])) == k - 1
  {
    var r, th := q[1..] + [q[0]], Skip(threads, [q[0]]);
    TurnOnce(q, k);
    forall i | 0 <= i < k ensures Runnable(th, r[i]) == Runnable(threads, q[i + 1]) {
      assert r[i] == r[..k][i];
      assert r[i] != q[0];
    }
    FirstRunnableIs(r, th, k - 1);
  }

  /** A pass that starts at a thread just passed over: the queue turns by one, and the next head is examined. */
  lemma NextPass(z: Sched, d: nat)
    requires CanDequeue(z) && !Leaving(z) && CurrentLevel(z) == d && 2 <= |z.levels[d]|
    requires z.threads[z.levels[d][0]].state == Terminated || z.threads[z.levels[d][0]].state == Ready
    ensures var q := z.levels[d]; var r := q[1..] + [q[0]];
            && TargetLevel(z) == d && r[0] in z.threads
            && YieldOnce(z) == Examine(z.(levels := z.levels[d := r], current := Some(r[0])))
  {
    var q := z.levels[d];
    assert q[0] in q && q[1] in q;
    assert z.threads[q[0] := z.threads[q[0]]] == z.threads;
    assert Requeue(z) == z.(levels := z.levels[d := q[1..] + [q[0]]]);
    SelectedHead(z);
  }

  /** A helper that has passed over the head of the level goes on to the first runnable thread. `threads` is as it
      was before the head was passed over. */
  lemma {:induction false} SkipsOn(z: Sched, d: nat, k: nat, threads: map<nat, Thread>)
    requires CanDequeue(z) && !Leaving(z) && CurrentLevel(z) == d && Distinct(z.levels[d])
    requires k == FirstRunnable(z.levels[d], threads) && 1 <= k < |z.levels[d]|
    requires z.levels[d][0] in threads && z.threads == Skip(threads, [z.levels[d][0]])
    ensures z.levels[d][k] in threads && CanYield(z) && Yield(z) == RunsPlace(z, d, k, threads, z.hasRun + 1)
    decreases k
  {
    hide Yield, YieldOnce, Requeue, Select, Turn, Skip, Leaving, YieldingLeft, LiveDistance;
    var q := z.levels[d];
    var r := q[1..] + [q[0]];
    HeadPassed(z, d, k, threads);
    NextPass(z, d);
    TurnOnce(q, k);
    OneSkipped(q, threads, k);
    YieldUnfold(z);
    if k == 1 {
      TurnByOne(q);
      assert q[..1] == [q[0]];
    } else {
      var x := Examine(z.(levels := z.levels[d := r], current := Some(r[0]))).0;
      SkippedState(z, d, k, threads, x);
      SkipsOn(x, d, k - 1, z.threads);
      TurnsAdd(z, d, k, threads, x);
    }
  }

  /** Passing over one thread and then the rest is passing over them all. */
  lemma TurnsAdd(z: Sched, d: nat, k: nat, threads: map<nat, Thread>, x: Sched)
    requires d < |z.levels| && 2 <= k < |z.levels[d]| && z.levels[d][k] in threads && threads.Keys == z.threads.Keys
    requires z.threads == Skip(threads, [z.levels[d][0]])
    requires var q := z.levels[d]; var r := q[1..] + [q[0]];
             x == z.(levels := z.levels[d := r], current := Some(r[0]), threads := Skip(z.threads, [r[0]]))
    ensures RunsPlace(x, d, k - 1, z.threads, x.hasRun + 1) == RunsPlace(z, d, k, threads, z.hasRun + 1)
  {
    hide Turn, Skip;
    var q := z.levels[d];
    var r := q[1..] + [q[0]];
    TurnOnce(q, k);
    SkipTwice(threads, [q[0]], r[..k - 1]);
    assert z.levels[d := r][d := Turn(r, k - 1)] == z.levels[d := Turn(q, k)];
  }

  lemma TurnByOne(q: seq<nat>)
    requires q != []
    ensures Turn(q, 1) == q[1..] + [q[0]]
  {
  }

  /** The thread just passed over is TERMINATED or READY, and some thread of the level can run. */
  lemma HeadPassed(z: Sched, d: nat, k: nat, threads: map<nat, Thread>)
    requires CanDequeue(z) && !Leaving(z) && CurrentLevel(z) == d && Distinct(z.levels[d])
    requires k == FirstRunnable(z.levels[d], threads) && 1 <= k < |z.levels[d]|
    requires z.levels[d][0] in threads && z.threads == Skip(threads, [z.levels[d][0]])
    ensures z.threads[z.levels[d][0]].state == Terminated || z.threads[z.levels[d][0]].state == Ready
    ensures CanYield(z) && z.levels[d][k] in threads
    ensures Runnable(z.threads, z.levels[d][1]) <==> k == 1
  {
    var q := z.levels[d];
    assert q[0] in q && q[k] in q && q[1] in q;
    assert LiveIn(z.threads, q[k]);
    assert Runnable(threads, q[1]) <==> k == 1;
  }

  /** The state after one more thread has been passed over. */
  lemma SkippedState(z: Sched, d: nat, k: nat, threads: map<nat, Thread>, x: Sched)
    requires CanDequeue(z) && !Leaving(z) && CurrentLevel(z) == d && 2 <= |z.levels[d]|
    requires z.levels[d][1] in z.threads && !Runnable(z.threads, z.levels[d][1])
    requires var q := z.levels[d]; var r := q[1..] + [q[0]];
             x == Examine(z.(levels := z.levels[d := r], current := Some(r[0]))).0
    ensures var q := z.levels[d]; var r := q[1..] + [q[0]];
            && CanDequeue(x) && !Leaving(x) && CurrentLevel(x) == d && x.hasRun == z.hasRun
            && x == z.(levels := z.levels[d := r], current := Some(r[0]), threads := Skip(z.threads, [r[0]]))
            && Examine(z.(levels := z.levels[d := r], current := Some(r[0]))).1
  {
    var q := z.levels[d];
    var r := q[1..] + [q[0]];
    assert q[0] in q && q[1] in q;
    assert forall t :: t in r ==> t in q;
    assert x.threads == Skip(z.threads, [r[0]]);
  }

  // ----- whole ticks

  /** An ordinary tick, exactly: the head of the current level goes to its tail, READY unless TERMINATED; then the
      level it has come to turns to its first runnable thread, which runs. HAS_RUN counts that one thread, from
      zero when the level is new, however many were passed over. */
  lemma YieldExact(s: Sched, k: nat)
    requires CanDequeue(s) && Distinct(Requeue(s).levels[TargetLevel(s)])
    requires k == FirstRunnable(Requeue(s).levels[TargetLevel(s)], Requeue(s).threads)
    requires k < |Requeue(s).levels[TargetLevel(s)]|
    ensures CanYield(s) && Requeue(s).levels[TargetLevel(s)][k] in Requeue(s).threads
    ensures Yield(s) == RunsPlace(Requeue(s), TargetLevel(s), k, Requeue(s).threads, 1 + if Leaving(s) then 0 else s.hasRun)
  {
    hide Yield, YieldOnce, Requeue, Select, Turn, Skip, YieldingLeft, LiveDistance;
    var s1, d := Requeue(s), TargetLevel(s);
    RequeueShape(s);
    var q := s1.levels[d];
    TargetRuns(s, k);
    YieldUnfold(s);
    SelectedHead(s);
    var s2 := Select(s1, CurrentLevel(s));
    assert s2 == s1.(current := Some(q[0]), hasRun := if Leaving(s) then 0 else s.hasRun) by { SelectExact(s1, s, d); }
    if k == 0 {
      TurnNone(q, s1.threads);
    } else {
      FirstSkipped(s2, d, k);
      SkipsOn(Examine(s2).0, d, k, s1.threads);
    }
  }

  lemma RequeueShape(s: Sched)
    requires CanDequeue(s)
    ensures Coherent(Requeue(s)) && |Requeue(s).levels| == |s.levels| && Requeue(s).hasRun == s.hasRun
  {
    RequeueCoherent(s);
  }

  lemma SelectExact(s1: Sched, s: Sched, d: nat)
    requires CanDequeue(s) && s1 == Requeue(s) && d == TargetLevel(s) && s1.levels[d] != []
    ensures Select(s1, CurrentLevel(s)) == s1.(current := Some(s1.levels[d][0]), hasRun := if Leaving(s) then 0 else s.hasRun)
  {
    SelectedHead(s);
  }

  lemma TurnNone(q: seq<nat>, threads: map<nat, Thread>)
    ensures Turn(q, 0) == q && Skip(threads, q[..0]) == threads
  {
  }

  lemma TargetRuns(s: Sched, k: nat)
    requires CanDequeue(s) && k == FirstRunnable(Requeue(s).levels[TargetLevel(s)], Requeue(s).threads)
    requires k < |Requeue(s).levels[TargetLevel(s)]|
    ensures CanYield(s)
  {
    var d := TargetLevel(s);
    RequeueKeepsLive(s);
    var t := Requeue(s).levels[d][k];
    assert t in Requeue(s).levels[d];
    assert t in s.levels[d] && LiveIn(s.threads, t);
  }

  /** The state after the first thread of a level has been passed over. */
  lemma FirstSkipped(s: Sched, d: nat, k: nat)
    requires Coherent(s) && d < |s.levels| && s.levels[d] != [] && s.current == Some(s.levels[d][0])
    requires s.hasRun < |s.levels[d]| && k == FirstRunnable(s.levels[d], s.threads) && 1 <= k
    ensures s.levels[d][0] in s.threads && Examine(s).1
    ensures var x := Examine(s).0;
            && CanDequeue(x) && !Leaving(x) && CurrentLevel(x) == d
            && x == s.(threads := Skip(s.threads, [s.levels[d][0]]))
  {
    assert s.levels[d][0] in s.levels[d];
    assert !Runnable(s.threads, s.levels[d][0]);
    assert Examine(s).0.threads == Skip(s.threads, [s.levels[d][0]]);
  }

  /** A tick after an unlock, exactly: nobody is requeued. The level it selects turns to its first runnable thread,
      so that its head runs on unless it is TERMINATED or YIELD. */
  lemma YieldAfterUnlockExact(s: Sched, k: nat)
    requires Coherent(s) && 0 <= s.afterUnlock < |s.levels| && Distinct(s.levels[AfterUnlockTarget(s)])
    requires k == FirstRunnable(s.levels[AfterUnlockTarget(s)], s.threads) && k < |s.levels[AfterUnlockTarget(s)]|
    ensures CanYieldAfterUnlock(s) && s.levels[AfterUnlockTarget(s)][k] in s.threads
    ensures YieldAfterUnlock(s) ==
            RunsPlace(s.(afterUnlock := -1), AfterUnlockTarget(s), k, s.threads,
                      1 + if s.hasRun >= |s.levels[s.afterUnlock]| then 0 else s.hasRun)
  {
    hide Yield, YieldOnce, Requeue, Turn, Skip, YieldingLeft, LiveDistance;
    var d := AfterUnlockTarget(s);
    var q := s.levels[d];
    assert q[k] in q && LiveIn(s.threads, q[k]);
    var s1 := Select(s.(afterUnlock := -1), s.afterUnlock);
    assert s1 == s.(afterUnlock := -1, current := Some(q[0]), hasRun := if s.hasRun >= |s.levels[s.afterUnlock]| then 0 else s.hasRun);
    SelectedCanYield(s);
    if k == 0 {
      TurnNone(q, s.threads);
    } else {
      FirstSkipped(s1, d, k);
      SkipsOn(Examine(s1).0, d, k, s.threads);
    }
  }

  /** Its head runs on, and no queue moves, when the head is neither TERMINATED nor YIELD; over an empty level the
      tick leaves nobody current. */
  lemma UnlockerRunsOn(s: Sched)
    requires Coherent(s) && 0 <= s.afterUnlock < |s.levels|
    ensures var d := AfterUnlockTarget(s);
            s.levels[d] != [] && Runnable(s.threads, s.levels[d][0]) ==>
              && CanYieldAfterUnlock(s) && YieldAfterUnlock(s).levels == s.levels
              && YieldAfterUnlock(s).current == Some(s.levels[d][0])
    ensures s.levels[AfterUnlockTarget(s)] == [] ==>
              CanYieldAfterUnlock(s) && YieldAfterUnlock(s) == s.(afterUnlock := -1, hasRun := 0, current := None)
  {
    var d := AfterUnlockTarget(s);
    if s.levels[d] != [] && Runnable(s.threads, s.levels[d][0]) {
      assert s.levels[d][0] in s.levels[d];
    }
  }
}
