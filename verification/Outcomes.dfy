/** What the steps of a run leave behind, spelled out: in every reachable state, which thread a tick runs and where
    it leaves the queue, what an unlock and a create leave, and in which order waiters are woken. */
module Outcomes {
  import opened SchedulerModel
  import opened Ticks
  import opened Bags
  import opened Runs
  import opened RunSteps
  import opened Reachable

  // ----- what reachable states look like to a tick

  ghost predicate NoYield(threads: map<nat, Thread>) {
    forall t :: t in threads ==> threads[t].state != Yielding
  }

  /** A thread scheduled once stands in one place of its level. */
  lemma LevelDistinct(s: Sched)
    requires Queues(s)
    ensures Distinct(s.levels[0])
  {
    hide Conserved, Bag;
    forall i, j | 0 <= i < j < |s.levels[0]| ensures s.levels[0][i] != s.levels[0][j] {
      if s.levels[0][i] == s.levels[0][j] {
        AtMostOnce(s, s.levels[0][i]);
        TwicePlaced(s.levels[0], i, j);
      }
    }
  }

  lemma AtMostOnce(s: Sched, t: nat)
    requires Queues(s)
    ensures multiset(s.levels[0])[t] <= 1
  {
    PlacesOf(s, t);
    assert Places(s)[t] <= 1;
  }

  lemma TwicePlaced(q: seq<nat>, i: nat, j: nat)
    requires i < j < |q| && q[i] == q[j]
    ensures multiset(q)[q[i]] >= 2
  {
    assert q == q[..j] + [q[j]] + q[j + 1..];
    assert q[i] in q[..j];
    assert multiset(q[..j])[q[i]] >= 1;
  }

  // ----- ticks

  /** Place `k` of `r` holds the first thread that has not ended. */
  ghost predicate FirstLiveAt(r: seq<nat>, threads: map<nat, Thread>, k: nat) {
    k < |r| && LiveIn(threads, r[k]) && forall i :: 0 <= i < k ==> !LiveIn(threads, r[i])
  }

  /** The first level once the tick has requeued its head, unless it follows an unlock. */
  ghost function Requeued(s: Sched): (r: seq<nat>)
    requires 0 < |s.levels| && (s.afterUnlock == -1 ==> s.levels[0] != [])
  {
    if s.afterUnlock == -1 then s.levels[0][1..] + [s.levels[0][0]] else s.levels[0]
  }

  ghost function StateAfter(s: Sched, t: nat, runs: nat): ThreadState
    requires t in s.threads && 0 < |s.levels| && (s.afterUnlock == -1 ==> s.levels[0] != [])
  {
    if t == runs then Running
    else if s.afterUnlock == -1 && t == s.levels[0][0] && s.threads[t].state != Terminated then Ready
    else s.threads[t].state
  }

  /** What a tick leaves that runs the `k`-th thread after the requeueing. */
  ghost predicate TickLeaves(s: Sched, s': Sched, k: nat) {
    && 0 < |s.levels| && (s.afterUnlock == -1 ==> s.levels[0] != [])
    && var r := Requeued(s);
       && FirstLiveAt(r, s.threads, k)
       && s'.levels == s.levels[0 := r[k..] + r[..k]] && s'.current == Some(r[k])
       && s'.hasRun == (if s.hasRun >= |r| then 1 else s.hasRun + 1)
       && s'.afterUnlock == -1 && s'.locks == s.locks && s'.lastTid == s.lastTid
       && s'.threads.Keys == s.threads.Keys
       && forall t :: t in s.threads ==> s'.threads[t] == s.threads[t].(state := StateAfter(s, t, r[k]))
  }

  ghost predicate TickRunsSome(s: Sched, s': Sched) {
    exists k: nat :: TickLeaves(s, s', k)
  }

  lemma FirstLiveRunnable(r: seq<nat>, threads: map<nat, Thread>, k: nat)
    requires NoYield(threads) && k == FirstRunnable(r, threads) && k < |r|
    ensures FirstLiveAt(r, threads, k)
  {
  }

  lemma SomeRunnable(r: seq<nat>, threads: map<nat, Thread>, t: nat)
    requires NoYield(threads) && t in r && LiveIn(threads, t)
    ensures FirstRunnable(r, threads) < |r|
  {
    var i :| 0 <= i < |r| && r[i] == t;
    assert Runnable(threads, r[i]);
  }

  lemma SkipsNobody(threads: map<nat, Thread>, q: seq<nat>)
    requires NoYield(threads)
    ensures Skip(threads, q) == threads
  {
  }

  lemma OnlyFirstLevel(s: Sched)
    requires Queues(s)
    ensures NextLevel(s.levels, 0, 1) == 0
  {
    assert FoundAt(s.levels, 0, 0, |s.levels|);
    NextLevelIsFirst(s.levels, 0, 0);
  }

  /** A tick from a state of a run. */
  lemma TickOutcome(s: Sched)
    requires Queues(s) && CurrentPlaced(s) && CanTick(s) && NoYield(s.threads)
    ensures s.levels[0] != [] ==> TickRunsSome(s, Tick(s))
    ensures s.levels[0] == [] ==> s.afterUnlock != -1 && Tick(s) == s.(afterUnlock := -1, hasRun := 0, current := None)
    ensures NoYield(Tick(s).threads)
  {
    hide Conserved;
    QueuesCoherent(s);
    OnlyFirstLevel(s);
    LevelDistinct(s);
    if s.afterUnlock != -1 {
      AfterUnlockOutcome(s);
    } else {
      PlainOutcome(s);
    }
  }

  lemma AfterUnlockOutcome(s: Sched)
    requires Coherent(s) && CanTick(s) && NoYield(s.threads) && s.afterUnlock == 0
    requires NextLevel(s.levels, 0, 1) == 0 && Distinct(s.levels[0])
    ensures s.levels[0] != [] ==> TickRunsSome(s, Tick(s))
    ensures s.levels[0] == [] ==> Tick(s) == s.(afterUnlock := -1, hasRun := 0, current := None)
    ensures NoYield(Tick(s).threads)
  {
    hide Yield, YieldAfterUnlock, Turn, FirstRunnable;
    if s.levels[0] == [] {
      UnlockerRunsOn(s);
    } else {
      var t :| t in s.levels[0] && LiveIn(s.threads, t);
      SomeRunnable(s.levels[0], s.threads, t);
      var k := FirstRunnable(s.levels[0], s.threads);
      FirstLiveRunnable(s.levels[0], s.threads, k);
      YieldAfterUnlockExact(s, k);
      SkipsNobody(s.threads, s.levels[0][..k]);
      TurnIs(s.levels[0], k);
      assert TickLeaves(s, Tick(s), k);
    }
  }

  lemma TurnIs(q: seq<nat>, k: nat)
    requires k <= |q|
    ensures Turn(q, k) == q[k..] + q[..k]
  {
  }

  lemma PlainOutcome(s: Sched)
    requires Coherent(s) && CanTick(s) && NoYield(s.threads) && s.afterUnlock == -1
    requires NextLevel(s.levels, 0, 1) == 0 && Distinct(s.levels[0]) && CurrentLevel(s) == 0
    ensures TickRunsSome(s, Tick(s))
    ensures NoYield(Tick(s).threads)
  {
    hide Yield, Turn, FirstRunnable, Skip, Requeue, TickLeaves;
    RequeueRunnable(s);
    RequeueKeepsLive(s);
    var r, th := Requeue(s).levels[0], Requeue(s).threads;
    var t :| t in s.levels[0] && LiveIn(s.threads, t);
    SomeRunnable(r, th, t);
    var k := FirstRunnable(r, th);
    FirstLiveRunnable(r, th, k);
    YieldExact(s, k);
    SkipsNobody(th, r[..k]);
    TurnIs(r, k);
    PlainLeaves(s, Tick(s), k);
  }

  lemma RequeueRunnable(s: Sched)
    requires CanDequeue(s) && NoYield(s.threads) && Distinct(s.levels[0]) && CurrentLevel(s) == 0
    ensures Distinct(Requeue(s).levels[0]) && NoYield(Requeue(s).threads)
    ensures Requeue(s).levels == s.levels[0 := s.levels[0][1..] + [s.levels[0][0]]]
  {
    assert s.levels[0][0] in s.levels[0];
  }

  /** The requeueing and the turn together. */
  lemma PlainLeaves(s: Sched, s': Sched, k: nat)
    requires CanDequeue(s) && CurrentLevel(s) == 0 && s.afterUnlock == -1
    requires FirstLiveAt(Requeue(s).levels[0], Requeue(s).threads, k)
    requires var r, th := Requeue(s).levels[0], Requeue(s).threads;
             s' == Requeue(s).(levels := Requeue(s).levels[0 := r[k..] + r[..k]], current := Some(r[k]),
                                     hasRun := 1 + if Leaving(s) then 0 else s.hasRun, threads := SetState(th, r[k], Running))
    ensures TickLeaves(s, s', k)
  {
    var q, r := s.levels[0], Requeue(s).levels[0];
    assert q[0] in q && r == q[1..] + [q[0]];
    RequeueKeepsLive(s);
    assert s.levels[0 := r][0 := r[k..] + r[..k]] == s.levels[0 := r[k..] + r[..k]];
  }

  // ----- runs

  lemma StepNeverYields(y: Sys, a: Action, y': Sys)
    requires Inv(y) && Follows(y, a, y') && NoYield(y.s.threads)
    ensures NoYield(y'.s.threads)
  {
    hide Inv, Tick, CanTick, Places;
    match a
    case DoTick => TickOutcome(y.s) by { InvQueues(y); }
    case DoUnlock(m) =>
    case _ =>
  }

  /** No thread of any run is in state YIELD: the library never sets it. */
  lemma {:induction false} NeverYielding(ys: seq<Sys>, acts: seq<Action>, levels: nat, i: nat)
    requires 2 <= levels && IsRun(ys, acts, levels) && i < |ys|
    ensures NoYield(ys[i].s.threads)
    decreases i
  {
    hide Inv, Follows;
    if i == 0 {
      assert ys[0] == Start(levels);
    } else {
      NeverYielding(ys, acts, levels, i - 1);
      RunStep(ys, acts, levels, i - 1);
      StepNeverYields(ys[i - 1], acts[i - 1], ys[i]);
    }
  }

  /** Every tick of every run: the head of the first level goes to its tail, READY unless it has ended, but not after
      an unlock; then the first thread of the level that has not ended runs, those before it go behind the
      others, and HAS_RUN counts it alone. Only after an unlock can the level be empty, and nobody is then
      current. */
  lemma TickExactly(ys: seq<Sys>, acts: seq<Action>, levels: nat, i: nat)
    requires 2 <= levels && IsRun(ys, acts, levels) && i + 1 < |ys| && i < |acts| && acts[i].DoTick?
    ensures 0 < |ys[i].s.levels|
    ensures ys[i].s.levels[0] != [] ==> TickRunsSome(ys[i].s, ys[i + 1].s)
    ensures ys[i].s.levels[0] == [] ==>
              ys[i].s.afterUnlock != -1 && ys[i + 1].s == ys[i].s.(afterUnlock := -1, hasRun := 0, current := None)
  {
    hide TickRunsSome, Inv, Tick, CanTick, Queues, CurrentPlaced, NoYield;
    RunStep(ys, acts, levels, i);
    NeverYielding(ys, acts, levels, i);
    TickOutcome(ys[i].s) by { InvQueues(ys[i]); }
    HasLevels(ys[i]);
  }

  lemma HasLevels(y: Sys)
    requires Inv(y)
    ensures 0 < |y.s.levels|
  {
  }

  /** What an unlock of mutex `m` leaves: it is free, its longest waiter, if any, stands last in the first level,
      and the next tick is told of an unlock at level 0. */
  ghost predicate UnlockLeaves(s: Sched, s': Sched, m: nat) {
    && m < |s.locks| == |s'.locks| && 0 < |s.levels|
    && s'.afterUnlock == 0 && s'.current == s.current && s'.hasRun == s.hasRun && s'.threads == s.threads
    && !s'.locks[m].locked && (forall k :: 0 <= k < |s.locks| && k != m ==> s'.locks[k] == s.locks[k])
    && var ws := s.locks[m].waiters;
       if ws == [] then s'.locks[m].waiters == [] && s'.levels == s.levels
       else s'.locks[m].waiters == ws[1..] && s'.levels == s.levels[0 := s.levels[0] + [ws[0]]]
  }

  lemma UnlockOutcome(s: Sched, m: nat)
    requires Queues(s) && m < |s.locks| && s.current.Some? && s.current.value in s.threads
    requires s.locks[m].waiters != [] ==> s.locks[m].waiters[0] in s.threads
    ensures UnlockLeaves(s, Unlock(s, m), m)
  {
    hide Conserved, Created;
    var ws := s.locks[m].waiters;
    if ws != [] {
      assert s.threads[ws[0]].(priority := 0) == s.threads[ws[0]];
      assert s.threads[ws[0] := s.threads[ws[0]]] == s.threads;
    }
  }

  /** Every unlock of every run, and the tick after it: the unlocker runs on, unless it has ended, and no queue
      moves. */
  lemma UnlockExactly(ys: seq<Sys>, acts: seq<Action>, levels: nat, i: nat, t: nat)
    requires 2 <= levels && IsRun(ys, acts, levels) && i + 1 < |ys| && i < |acts| && acts[i].DoUnlock?
    requires ys[i].s.current == Some(t)
    ensures UnlockLeaves(ys[i].s, ys[i + 1].s, acts[i].m)
    ensures var s := ys[i + 1].s;
            LiveIn(s.threads, t) ==>
              && CanTick(s) && Tick(s).levels == s.levels && Tick(s).current == Some(t) && Tick(s).afterUnlock == -1
              && Tick(s).hasRun == if s.hasRun >= |s.levels[0]| then 1 else s.hasRun + 1
  {
    hide Conserved, Tick, CanTick;
    RunStep(ys, acts, levels, i);
    var s, s' := ys[i].s, ys[i + 1].s;
    ActingIsHead(ys[i], t);
    UnlockOutcome(s, acts[i].m);
    RunInv(ys, acts, levels, i + 1);
    NeverYielding(ys, acts, levels, i + 1);
    assert s'.levels[0] != [] && s'.levels[0][0] == t;
    if LiveIn(s'.threads, t) { HeadRunsOn(s', t); }
  }

  lemma HeadRunsOn(s: Sched, t: nat)
    requires Queues(s) && CurrentPlaced(s) && NoYield(s.threads) && LiveIn(s.threads, t)
    requires s.afterUnlock == 0 && s.levels[0] != [] && s.levels[0][0] == t && s.current.Some?
    ensures CanTick(s) && Tick(s).levels == s.levels && Tick(s).current == Some(t) && Tick(s).afterUnlock == -1
    ensures Tick(s).hasRun == if s.hasRun >= |s.levels[0]| then 1 else s.hasRun + 1
  {
    QueuesCoherent(s);
    assert t in s.levels[0];
    TickSafeExactly(s);
    TickOutcome(s);
    var k: nat :| TickLeaves(s, Tick(s), k);
    assert k == 0;
    assert s.levels[0][0..] + s.levels[0][..0] == s.levels[0];
  }

  /** Every create of every run: the new thread is READY, of priority 0, under the next tid, last in the first
      level; the first create puts thread 0 before it, READY and current. Nothing else changes. */
  lemma CreateExactly(ys: seq<Sys>, acts: seq<Action>, levels: nat, i: nat)
    requires 2 <= levels && IsRun(ys, acts, levels) && i + 1 < |ys| && i < |acts| && acts[i].DoCreate?
    ensures var s, s' := ys[i].s, ys[i + 1].s; var t := s.lastTid + 1;
            && 0 < |s.levels| && s'.lastTid == t && s'.locks == s.locks && s'.hasRun == s.hasRun && s'.afterUnlock == s.afterUnlock
            && t !in s.threads && t in s'.threads && s'.threads[t].state == Ready && s'.threads[t].priority == 0
            && s'.levels == s.levels[0 := s.levels[0] + if s.lastTid == 0 then [0, t] else [t]]
            && (forall u :: u in s.threads ==> u in s'.threads && s'.threads[u] == s.threads[u])
            && (if s.lastTid == 0
                then s'.current == Some(0) && 0 in s'.threads && s'.threads[0].state == Ready && s'.threads[0].priority == 0
                else s'.current == s.current)
  {
    RunStep(ys, acts, levels, i);
    var s := ys[i].s;
    assert s.levels[0] + [0] + [1] == s.levels[0] + [0, 1];
    if s.lastTid == 0 { NobodyYet(s); }
  }

  /** Every mutex_init of every run: one more mutex, free, with nobody waiting, and nothing else changes. */
  lemma InitExactly(ys: seq<Sys>, acts: seq<Action>, levels: nat, i: nat)
    requires 2 <= levels && IsRun(ys, acts, levels) && i + 1 < |ys| && i < |acts| && acts[i].DoMutexInit?
    ensures ys[i + 1].s == ys[i].s.(locks := ys[i].s.locks + [Lock(false, [])])
    ensures ys[i + 1].at == ys[i].at && ys[i + 1].inside == ys[i].inside + [{}]
  {
    RunStep(ys, acts, levels, i);
  }

  /** Every step of a lock attempt: a test leaves the mutex LOCKED and changes nothing else; a move to the wait queue
      takes the caller from the head of the first level to the end of the queue. */
  lemma LockExactly(ys: seq<Sys>, acts: seq<Action>, levels: nat, i: nat, t: nat)
    requires 2 <= levels && IsRun(ys, acts, levels) && i + 1 < |ys| && i < |acts| && ys[i].s.current == Some(t)
    ensures acts[i].DoTest? ==>
              var m, s := acts[i].m, ys[i].s;
              && m < |s.locks| && ys[i + 1].s == s.(locks := s.locks[m := Lock(true, s.locks[m].waiters)])
              && t in ys[i + 1].at && ys[i + 1].at[t] == (if s.locks[m].locked then Failed(m, 0) else Free)
    ensures acts[i].DoBlock? ==>
              var m, s := acts[i].m, ys[i].s;
              && m < |s.locks| && 0 < |s.levels| && s.levels[0] != [] && s.levels[0][0] == t
              && ys[i + 1].s == s.(levels := s.levels[0 := s.levels[0][1..]],
                                   locks := s.locks[m := Lock(s.locks[m].locked, s.locks[m].waiters + [t])])
              && t in ys[i + 1].at && ys[i + 1].at[t] == Retry(m, 0)
  {
    hide Conserved, Tick, CanTick;
    RunStep(ys, acts, levels, i);
    if acts[i].DoBlock? { ActingIsHead(ys[i], t); }
  }

  /** Every end of a thread: exit, or the function's return unless the thread had exited, or its waking from the pause
      after that, makes the current thread TERMINATED with that result, and changes nothing else. */
  lemma EndExactly(ys: seq<Sys>, acts: seq<Action>, levels: nat, i: nat, t: nat)
    requires 2 <= levels && IsRun(ys, acts, levels) && i + 1 < |ys| && i < |acts| && ys[i].s.current == Some(t)
    requires acts[i].DoExit? || acts[i].DoReturn? || acts[i].DoResume?
    ensures t in ys[i].s.threads && (acts[i].DoResume? ==> t in ys[i].returned)
    ensures var s, s' := ys[i].s, ys[i + 1].s;
            if acts[i].DoReturn? && t in ys[i].exited then s' == s
            else var v := if acts[i].DoResume? then ys[i].returned[t] else acts[i].v;
                 s' == s.(threads := s.threads[t := Thread(Terminated, s.threads[t].priority, v)])
  {
    hide Conserved, Tick, CanTick;
    RunStep(ys, acts, levels, i);
    assert ResultRight(ys[i], t);
  }

  // ----- first come, first woken

  /** Thread `t` stands before `u` in the queue of mutex `m`. */
  ghost predicate Ahead(s: Sched, m: nat, t: nat, u: nat) {
    m < |s.locks| && exists i, j :: 0 <= i < j < |s.locks[m].waiters| && s.locks[m].waiters[i] == t && s.locks[m].waiters[j] == u
  }

  /** In one step a mutex's queue stays as it is, gains one thread at its end, or loses its first. */
  lemma QueueSteps(y: Sys, a: Action, y': Sys, m: nat)
    requires Follows(y, a, y') && m < |y.s.locks| && m < |y'.s.locks|
    ensures var ws, ws' := y.s.locks[m].waiters, y'.s.locks[m].waiters;
            ws' == ws || (ws != [] && ws' == ws[1..]) || exists u :: ws' == ws + [u]
  {
    hide Tick, CanTick;
    if a.DoTick? {
      TickKeepsLocks(y.s);
    } else if a.DoBlock? {
      var u := y.s.levels[y.at[y.s.current.value].level][0];
      assert a.m == m ==> y'.s.locks[m].waiters == y.s.locks[m].waiters + [u];
    }
  }

  lemma StepKeepsAhead(y: Sys, a: Action, y': Sys, m: nat, t: nat, u: nat)
    requires Inv(y) && Follows(y, a, y') && Ahead(y.s, m, t, u) && m < |y'.s.locks| && t in y'.s.locks[m].waiters
    ensures Ahead(y'.s, m, t, u)
  {
    hide Inv, Follows, Queues;
    var ws, ws' := y.s.locks[m].waiters, y'.s.locks[m].waiters;
    var i, j :| 0 <= i < j < |ws| && ws[i] == t && ws[j] == u;
    QueueSteps(y, a, y', m);
    if ws' == ws[1..] {
      if i == 0 { OnceWaiting(y.s, m) by { InvQueues(y); } }
      assert ws'[i - 1] == t && ws'[j - 1] == u;
    } else {
      assert ws'[i] == t && ws'[j] == u;
    }
  }

  lemma TickKeepsLocks(s: Sched)
    requires CanTick(s)
    ensures Tick(s).locks == s.locks
  {
    if s.afterUnlock != -1 { YieldAfterUnlockFrame(s); } else { YieldFrame(s); }
  }

  /** A waiter stands in its queue once. */
  lemma OnceWaiting(s: Sched, m: nat)
    requires Queues(s) && m < |s.locks| && s.locks[m].waiters != []
    ensures s.locks[m].waiters[0] !in s.locks[m].waiters[1..]
  {
    var wq := WaitQueues(s.locks);
    BagUpdate(wq, m, []);
    HeadMoves(wq[m]);
    assert Places(s)[wq[m][0]] <= 1;
  }

  /** In every run waiters are woken in the order in which they went to sleep: while the one ahead still waits, so does
      the other. */
  lemma {:induction false} WokenInOrder(ys: seq<Sys>, acts: seq<Action>, levels: nat, i: nat, j: nat, m: nat, t: nat, u: nat)
    requires 2 <= levels && IsRun(ys, acts, levels) && i <= j < |ys| && Ahead(ys[i].s, m, t, u)
    requires forall k :: i <= k <= j ==> m < |ys[k].s.locks| && t in ys[k].s.locks[m].waiters
    ensures Ahead(ys[j].s, m, t, u)
    decreases j
  {
    hide Inv, Follows, Ahead, IsRun;
    if i < j {
      WokenInOrder(ys, acts, levels, i, j - 1, m, t, u);
      RunStep(ys, acts, levels, j - 1);
      StepKeepsAhead(ys[j - 1], acts[j - 1], ys[j], m, t, u);
    }
  }
}
