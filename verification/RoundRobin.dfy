/** The fairness of my_pthread_yield_helper: with no arrivals, unlocks or ended threads, as many ticks
    as there are scheduled threads run every one of them exactly once and restore the queues. */
module RoundRobin {
  import opened SchedulerModel

  /** `n` steps of `f`, with what the steps reported. */
  ghost function Iterate<S, E>(f: S -> (S, Option<E>), s: S, n: nat): (r: (S, seq<E>)) {
    if n == 0 then (s, [])
    else
      var (p, log) := Iterate(f, s, n - 1);
      var (q, e) := f(p);
      (q, if e.Some? then log + [e.value] else log)
  }

  lemma {:induction false} IterateSplit<S, E>(f: S -> (S, Option<E>), s: S, a: nat, b: nat)
    ensures var (p, log) := Iterate(f, s, a);
            Iterate(f, s, a + b) == (Iterate(f, p, b).0, log + Iterate(f, p, b).1)
  {
    var (p, log) := Iterate(f, s, a);
    if b == 0 {
      assert log + [] == log;
    } else {
      IterateSplit(f, s, a, b - 1);
      var (p', log') := Iterate(f, p, b - 1);
      var (q, e) := f(p');
      if e.Some? {
        assert (log + log') + [e.value] == log + (log' + [e.value]);
      }
    }
  }

  /** One tick and the thread it ran. */
  ghost function TickStep(s: Sched): (Sched, Option<nat>) {
    if CanTick(s) then (Tick(s), Tick(s).current) else (s, None)
  }

  /** `n` ticks, with the threads they ran in order. */
  ghost function TickRun(s: Sched, n: nat): (r: (Sched, seq<nat>)) {
    Iterate(TickStep, s, n)
  }

  ghost predicate AllRunnable(s: Sched) {
    forall l, t :: 0 <= l < |s.levels| && t in s.levels[l] ==> Runnable(s.threads, t)
  }

  ghost predicate Healthy(s: Sched) {
    Coherent(s) && AllRunnable(s) && s.afterUnlock == -1
  }

  /** A level has just been entered: its head has had the first of its turns. */
  ghost predicate Entered(s: Sched, l: nat) {
    && Healthy(s)
    && l < |s.levels| && s.levels[l] != []
    && s.current == Some(s.levels[l][0]) && s.hasRun == 1
  }

  /** What a tick does when every scheduled thread is runnable. */
  ghost predicate PlainTick(s: Sched, s': Sched, l: nat, d: nat) {
    && l < |s.levels| && s.levels[l] != [] && d < |s.levels|
    && s'.levels == s.levels[l := s.levels[l][1..] + [s.levels[l][0]]]
    && s'.levels[d] != []
    && s'.current == Some(s'.levels[d][0])
    && s'.hasRun == (if s.hasRun >= |s.levels[l]| then 1 else s.hasRun + 1)
    && s.levels[l][0] in s.threads && s'.current.value in s.threads
    && s'.threads == SetState(SetState(s.threads, s.levels[l][0], Ready), s'.current.value, Running)
    && s'.locks == s.locks && s'.lastTid == s.lastTid
  }

  lemma RequeueHealthy(s: Sched)
    requires CanDequeue(s) && Healthy(s)
    ensures Healthy(Requeue(s))
    ensures Requeue(s).threads == SetState(s.threads, s.levels[CurrentLevel(s)][0], Ready)
    ensures HoldsLive(s, TargetLevel(s))
  {
    RequeueCoherent(s);
    RequeueKeepsLive(s);
    var l := CurrentLevel(s);
    assert s.levels[l][0] in s.levels[l];
    assert Runnable(s.threads, s.levels[l][0]);
    var s1 := Requeue(s);
    forall k, t | 0 <= k < |s1.levels| && t in s1.levels[k] ensures Runnable(s1.threads, t) {
      assert t in s.levels[k];
      assert Runnable(s.threads, t);
    }
    var d := TargetLevel(s);
    NextLevelEmpty(s.levels, l);
    assert s.levels[d][0] in s.levels[d];
    assert Runnable(s.threads, s.levels[d][0]);
  }

  lemma ExamineHealthy(s: Sched, d: nat)
    requires Healthy(s) && d < |s.levels| && s.levels[d] != [] && s.current == Some(s.levels[d][0])
    ensures !Examine(s).1 && Healthy(Examine(s).0)
    ensures Examine(s).0 == s.(threads := SetState(s.threads, s.levels[d][0], Running), hasRun := s.hasRun + 1)
  {
    assert s.levels[d][0] in s.levels[d];
    assert Runnable(s.threads, s.levels[d][0]);
    var s' := Examine(s).0;
    forall k, t | 0 <= k < |s'.levels| && t in s'.levels[k] ensures Runnable(s'.threads, t) {
      assert Runnable(s.threads, t);
    }
  }

  /** With runnable threads only, one pass is the whole helper. */
  lemma OnePass(s: Sched)
    requires CanDequeue(s) && Healthy(s)
    ensures CanTick(s) && Healthy(Tick(s))
    ensures PlainTick(s, Tick(s), CurrentLevel(s), TargetLevel(s))
  {
    var l, d := CurrentLevel(s), TargetLevel(s);
    RequeueHealthy(s);
    SelectedHead(s);
    var s2 := Select(Requeue(s), l);
    assert Healthy(s2);
    ExamineHealthy(s2, d);
    assert YieldOnce(s) == Examine(s2);
  }

  /** Part-way through a level: `i` ticks after it was entered in state `s`. */
  ghost predicate MidLevel(s: Sched, s': Sched, l: nat, i: nat)
    requires l < |s.levels| && i < |s.levels[l]|
  {
    && Healthy(s')
    && s'.levels == s.levels[l := s.levels[l][i..] + s.levels[l][..i]]
    && s'.current == Some(s.levels[l][i]) && s'.hasRun == i + 1
    && SameThreads(s.threads, s'.threads) && s'.locks == s.locks && s'.lastTid == s.lastTid
    && Kept(s, s', l) && ReadyUpTo(s', s.levels[l], i)
  }

  /** Threads outside level `l` are as they were. */
  ghost predicate Kept(s: Sched, s': Sched, l: nat)
    requires l < |s.levels|
  {
    forall t :: t in s.threads && t !in s.levels[l] ==> t in s'.threads && s'.threads[t] == s.threads[t]
  }

  ghost predicate ReadyUpTo(s: Sched, q: seq<nat>, i: nat)
    requires i <= |q|
  {
    forall k :: 0 <= k < i ==> q[k] in s.threads && s.threads[q[k]].state == Ready
  }

  lemma RotateOnce(levels: seq<seq<nat>>, l: nat, i: nat)
    requires l < |levels| && i < |levels[l]|
    ensures var q := levels[l]; var r := q[i..] + q[..i];
            && r[0] == q[i] && levels[l := r][l := r[1..] + [r[0]]] == levels[l := q[i + 1..] + q[..i + 1]]
            && (i + 1 < |q| ==> (r[1..] + [r[0]])[0] == q[i + 1])
  {
    var q := levels[l];
    var r := q[i..] + q[..i];
    assert r[1..] + [r[0]] == q[i + 1..] + q[..i + 1];
  }

  lemma MidLevelStep(s: Sched, p: Sched, s': Sched, l: nat, i: nat)
    requires l < |s.levels| && i + 1 < |s.levels[l]| && Distinct(s.levels[l])
    requires MidLevel(s, p, l, i) && Healthy(s') && PlainTick(p, s', l, l)
    ensures MidLevel(s, s', l, i + 1)
  {
    hide Healthy, SameThreads, Kept, ReadyUpTo, Runnable;
    RotateOnce(s.levels, l, i);
    var q := s.levels[l];
    assert p.levels[l] == q[i..] + q[..i];
    assert p.levels[l][0] == q[i] && p.levels[l][1] == q[i + 1];
    RunnableAt(p, l, 0);
    RunnableAt(p, l, 1);
    assert s'.current.value == q[i + 1];
    MidLevelThreads(s, p, s', l, i);
  }

  lemma MidLevelThreads(s: Sched, p: Sched, s': Sched, l: nat, i: nat)
    requires l < |s.levels| && i + 1 < |s.levels[l]| && Distinct(s.levels[l])
    requires Runnable(p.threads, s.levels[l][i]) && Runnable(p.threads, s.levels[l][i + 1])
    requires s'.threads == SetState(SetState(p.threads, s.levels[l][i], Ready), s.levels[l][i + 1], Running)
    requires SameThreads(s.threads, p.threads) && Kept(s, p, l) && ReadyUpTo(p, s.levels[l], i)
    ensures SameThreads(s.threads, s'.threads) && Kept(s, s', l) && ReadyUpTo(s', s.levels[l], i + 1)
  {
  }

  lemma {:induction false} WithinLevel(s: Sched, l: nat, i: nat)
    requires Entered(s, l) && i < |s.levels[l]| && Distinct(s.levels[l])
    ensures MidLevel(s, TickRun(s, i).0, l, i)
    ensures TickRun(s, i).1 == s.levels[l][1..i + 1]
  {
    hide Kept, ReadyUpTo, SameThreads, Tick, CanTick, AllRunnable, Coherent, TickRun;
    var q := s.levels[l];
    if i == 0 {
      MidLevelStart(s, l);
      TickRunNone(s);
    } else {
      WithinLevel(s, l, i - 1);
      var (p, ran) := TickRun(s, i - 1);
      MidLevelCanDequeue(s, p, l, i - 1);
      OnePass(p);
      MidLevelStep(s, p, Tick(p), l, i - 1);
      TickRunMore(s, i);
      assert q[1..i] + [q[i]] == q[1..i + 1];
    }
  }

  lemma MidLevelStart(s: Sched, l: nat)
    requires Entered(s, l)
    ensures MidLevel(s, s, l, 0)
  {
    var q := s.levels[l];
    assert q[0..] + q[..0] == q;
    assert s.levels[l := q] == s.levels;
  }

  lemma TickRunNone(s: Sched)
    ensures TickRun(s, 0) == (s, [])
  {
  }

  /** One tick more. */
  lemma TickRunMore(s: Sched, n: nat)
    requires 0 < n && CanTick(TickRun(s, n - 1).0) && Tick(TickRun(s, n - 1).0).current.Some?
    ensures var (p, ran) := TickRun(s, n - 1); TickRun(s, n) == (Tick(p), ran + [Tick(p).current.value])
  {
  }

  lemma MidLevelCanDequeue(s: Sched, p: Sched, l: nat, i: nat)
    requires Coherent(s) && l < |s.levels| && i < |s.levels[l]| && MidLevel(s, p, l, i)
    ensures CanDequeue(p) && CurrentLevel(p) == l && |p.levels[l]| == |s.levels[l]|
    ensures i + 1 < |s.levels[l]| ==> TargetLevel(p) == l
    ensures i + 1 == |s.levels[l]| ==> TargetLevel(p) == NextLevel(s.levels, l, 1)
  {
    var q := s.levels[l];
    assert q[i] in q;
    assert |p.levels[l]| == |q|;
    NextLevelSameShape(s.levels, p.levels, l, 1);
  }

  /** A thread has had a turn since: it waits READY, or it is the one now running. */
  ghost predicate Turned(s: Sched, t: nat) {
    t in s.threads && s.current.Some? && s.threads[t].state == (if t == s.current.value then Running else Ready)
  }

  /** The state one level later than `s`. */
  ghost predicate LevelDone(s: Sched, s': Sched, l: nat, d: nat)
    requires l < |s.levels|
  {
    && Entered(s', d) && s'.levels == s.levels
    && SameThreads(s.threads, s'.threads) && s'.locks == s.locks && s'.lastTid == s.lastTid
    && (forall t :: t in s.levels[l] ==> Turned(s', t))
    && (forall t :: t in s.threads && t !in s.levels[l] && s'.current != Some(t) ==> s'.threads[t] == s.threads[t])
    && Turned(s', s'.current.value)
  }

  lemma MidLevelEnd(s: Sched, p: Sched, s': Sched, l: nat, d: nat)
    requires l < |s.levels| && s.levels[l] != [] && Distinct(s.levels[l])
    requires MidLevel(s, p, l, |s.levels[l]| - 1) && Healthy(s') && PlainTick(p, s', l, d)
    ensures LevelDone(s, s', l, d)
  {
    LevelRestored(s, p, s', l, d);
    var q := s.levels[l];
    var h := s'.current.value;
    assert Runnable(s'.threads, h) by { assert h in s'.levels[d]; }
    forall t | t in q ensures Turned(s', t) {
      var k :| 0 <= k < |q| && q[k] == t;
    }
  }

  lemma LevelRestored(s: Sched, p: Sched, s': Sched, l: nat, d: nat)
    requires l < |s.levels| && s.levels[l] != []
    requires MidLevel(s, p, l, |s.levels[l]| - 1) && Healthy(s') && PlainTick(p, s', l, d)
    ensures s'.levels == s.levels && p.levels[l][0] == s.levels[l][|s.levels[l]| - 1]
    ensures SameThreads(p.threads, s'.threads)
  {
    hide MidLevel, Healthy, Coherent, SameThreads, AllRunnable;
    QueueRestored(s, p, s', l, d);
    MidLevelHealthy(s, p, l, |s.levels[l]| - 1);
    SamePlaces(s, p, l, d, s'.levels[d][0]);
    RunnableAt(p, l, 0);
    RunnableIn(p, d, s'.levels[d][0]);
    TwoStates(p.threads, p.levels[l][0], s'.current.value);
  }

  lemma RunnableIn(s: Sched, l: nat, t: nat)
    requires Healthy(s) && l < |s.levels| && t in s.levels[l]
    ensures Runnable(s.threads, t)
  {
  }

  lemma RunnableAt(s: Sched, l: nat, i: nat)
    requires Healthy(s) && l < |s.levels| && i < |s.levels[l]|
    ensures Runnable(s.threads, s.levels[l][i])
  {
  }

  lemma TwoStates(threads: map<nat, Thread>, t: nat, u: nat)
    requires Runnable(threads, t) && Runnable(threads, u)
    ensures SameThreads(threads, SetState(SetState(threads, t, Ready), u, Running))
  {
  }

  lemma MidLevelHealthy(s: Sched, p: Sched, l: nat, i: nat)
    requires l < |s.levels| && i < |s.levels[l]| && MidLevel(s, p, l, i)
    ensures Healthy(p) && |p.levels| == |s.levels|
  {
  }

  lemma QueueRestored(s: Sched, p: Sched, s': Sched, l: nat, d: nat)
    requires l < |s.levels| && s.levels[l] != []
    requires MidLevel(s, p, l, |s.levels[l]| - 1) && PlainTick(p, s', l, d)
    ensures s'.levels == s.levels && p.levels[l][0] == s.levels[l][|s.levels[l]| - 1]
  {
    hide Kept, ReadyUpTo, Coherent, Healthy, SameThreads;
    var q := s.levels[l];
    var n := |q|;
    RotateOnce(s.levels, l, n - 1);
    assert q[n..] + q[..n] == q;
    assert s.levels[l := q] == s.levels;
  }

  lemma SamePlaces(s: Sched, p: Sched, l: nat, d: nat, t: nat)
    requires l < |s.levels| && s.levels[l] != [] && d < |s.levels| && t in s.levels[d]
    requires MidLevel(s, p, l, |s.levels[l]| - 1)
    ensures t in p.levels[d]
  {
  }

  /** From entering a level, as many ticks as it has threads run the rest of it and then the head of the next. */
  lemma WholeLevel(s: Sched, l: nat)
    requires Entered(s, l) && Distinct(s.levels[l])
    ensures var d := NextLevel(s.levels, l, 1); var (s', ran) := TickRun(s, |s.levels[l]|);
            LevelDone(s, s', l, d) && s.levels[d] != [] && ran == s.levels[l][1..] + [s.levels[d][0]]
  {
    hide Kept, ReadyUpTo, SameThreads, Tick, CanTick, AllRunnable, Coherent, TickRun, Turned;
    var q := s.levels[l];
    var n := |q|;
    WithinLevel(s, l, n - 1);
    var (p, ran) := TickRun(s, n - 1);
    MidLevelCanDequeue(s, p, l, n - 1);
    OnePass(p);
    MidLevelEnd(s, p, Tick(p), l, NextLevel(s.levels, l, 1));
    TickRunMore(s, n);
    assert q[1..n] == q[1..];
  }

  // ----- all the levels in turn

  /** The threads of the `j` levels from `l` on, in turn. */
  ghost function Flat(levels: seq<seq<nat>>, l: nat, j: nat): (q: seq<nat>)
    requires l < |levels| && j <= |levels|
  {
    if j == 0 then [] else Flat(levels, l, j - 1) + levels[Around(|levels|, l, j - 1)]
  }

  /** Searching on from the level `j` places along is searching on from the first. */
  lemma {:induction false} NextLevelShift(levels: seq<seq<nat>>, l: nat, j: nat, o: nat)
    requires l < |levels| && levels[l] != [] && 1 <= j < |levels| && 1 <= o && j + o <= |levels|
    ensures NextLevel(levels, Around(|levels|, l, j), o) == NextLevel(levels, l, j + o)
    decreases |levels| - o
  {
    var d := Around(|levels|, l, j);
    assert Around(|levels|, d, o) == Around(|levels|, l, j + o);
    if j + o < |levels| {
      NextLevelShift(levels, l, j, o + 1);
    }
  }

  ghost predicate Proper(s: Sched) {
    forall l :: 0 <= l < |s.levels| ==> Distinct(s.levels[l])
  }

  /** After the first `j` levels: the next nonempty one has been entered, everybody passed has had a turn. */
  ghost predicate LevelsDone(s: Sched, s': Sched, l: nat, j: nat)
    requires l < |s.levels| && 1 <= j <= |s.levels|
  {
    && Entered(s', NextLevel(s.levels, l, j)) && s'.levels == s.levels
    && SameThreads(s.threads, s'.threads) && s'.locks == s.locks && s'.lastTid == s.lastTid
    && (forall t :: t in Flat(s.levels, l, j) ==> Turned(s', t))
    && Turned(s', s'.current.value)
  }

  lemma {:induction false} Levels(s: Sched, l: nat, j: nat)
    requires Entered(s, l) && Proper(s) && 1 <= j <= |s.levels|
    ensures RanThrough(s, l, j)
    decreases j
  {
    var n := |s.levels|;
    if j == 1 {
      assert Flat(s.levels, l, 1) == s.levels[l];
      WholeLevel(s, l);
    } else {
      Levels(s, l, j - 1);
      if s.levels[Around(n, l, j - 1)] == [] {
        EmptyLevelSkipped(s, l, j);
      } else {
        OneMoreLevel(s, l, j);
      }
    }
  }

  ghost predicate RanThrough(s: Sched, l: nat, j: nat)
    requires l < |s.levels| && 1 <= j <= |s.levels|
  {
    var f := Flat(s.levels, l, j);
    var (s', ran) := TickRun(s, |f|);
    && LevelsDone(s, s', l, j) && f != []
    && ran == f[1..] + [s'.levels[NextLevel(s.levels, l, j)][0]]
  }

  lemma EmptyLevelSkipped(s: Sched, l: nat, j: nat)
    requires l < |s.levels| && 2 <= j <= |s.levels|
    requires s.levels[Around(|s.levels|, l, j - 1)] == [] && RanThrough(s, l, j - 1)
    ensures RanThrough(s, l, j)
  {
  }

  lemma OneMoreLevel(s: Sched, l: nat, j: nat)
    requires Entered(s, l) && Proper(s) && 2 <= j <= |s.levels|
    requires s.levels[Around(|s.levels|, l, j - 1)] != []
    requires RanThrough(s, l, j - 1)
    ensures RanThrough(s, l, j)
  {
    hide TickRun, LevelDone, SameThreads, Turned, Healthy;
    var f := Flat(s.levels, l, j - 1);
    var (p, ran) := TickRun(s, |f|);
    var d := Around(|s.levels|, l, j - 1);
    var q := s.levels[d];
    assert p.levels == s.levels && p.current == Some(q[0]);
    WholeLevel(p, d);
    NextLevelShift(s.levels, l, j - 1, 1);
    LevelsStep(s, p, TickRun(p, |q|).0, l, j);
    TickRunSplit(s, f, q, Flat(s.levels, l, j));
    JoinTraces(f, q, [s.levels[NextLevel(s.levels, l, j)][0]]);
  }

  lemma JoinTraces(f: seq<nat>, q: seq<nat>, h: seq<nat>)
    requires f != [] && q != []
    ensures (f[1..] + [q[0]]) + (q[1..] + h) == (f + q)[1..] + h
  {
  }

  lemma TickRunSplit(s: Sched, f: seq<nat>, q: seq<nat>, fq: seq<nat>)
    requires fq == f + q
    ensures var (p, ran) := TickRun(s, |f|);
            TickRun(s, |fq|) == (TickRun(p, |q|).0, ran + TickRun(p, |q|).1)
  {
    IterateSplit(TickStep, s, |f|, |q|);
  }

  lemma LevelsStep(s: Sched, p: Sched, s': Sched, l: nat, j: nat)
    requires l < |s.levels| && 2 <= j <= |s.levels| && LevelsDone(s, p, l, j - 1)
    requires LevelDone(p, s', Around(|s.levels|, l, j - 1), NextLevel(s.levels, l, j))
    requires p.current.value in s.levels[Around(|s.levels|, l, j - 1)]
    ensures LevelsDone(s, s', l, j)
  {
  }

  lemma {:induction false} FlatHolds(levels: seq<seq<nat>>, l: nat, j: nat, t: nat)
    requires l < |levels| && j <= |levels|
    ensures t in Flat(levels, l, j) <==> exists o :: 0 <= o < j && t in levels[Around(|levels|, l, o)]
  {
    if j != 0 {
      FlatHolds(levels, l, j - 1, t);
      assert t in levels[Around(|levels|, l, j - 1)] ==> exists o :: 0 <= o < j && t in levels[Around(|levels|, l, o)];
    }
  }

  lemma OneLevelOnly(s: Sched, t: nat, a: nat, b: nat)
    requires Coherent(s) && a < |s.levels| && b < |s.levels| && t in s.levels[a] && t in s.levels[b]
    ensures a == b
  {
    assert s.threads[t].priority == a && s.threads[t].priority == b;
  }

  lemma {:induction false} FlatDistinct(s: Sched, l: nat, j: nat)
    requires Coherent(s) && Proper(s) && l < |s.levels| && j <= |s.levels|
    ensures Distinct(Flat(s.levels, l, j))
  {
    if j != 0 {
      FlatDistinct(s, l, j - 1);
      var f := Flat(s.levels, l, j - 1);
      var d := Around(|s.levels|, l, j - 1);
      forall t | t in f ensures t !in s.levels[d] {
        FlatHolds(s.levels, l, j - 1, t);
        var o :| 0 <= o < j - 1 && t in s.levels[Around(|s.levels|, l, o)];
        if t in s.levels[d] { OneLevelOnly(s, t, d, Around(|s.levels|, l, o)); }
      }
      assert forall i :: 0 <= i < |f| ==> f[i] in f;
      assert forall i :: 0 <= i < |s.levels[d]| ==> s.levels[d][i] in s.levels[d];
    }
  }

  lemma FlatIsScheduled(levels: seq<seq<nat>>, l: nat, t: nat)
    requires l < |levels|
    ensures t in Flat(levels, l, |levels|) <==> exists k :: 0 <= k < |levels| && t in levels[k]
  {
    FlatHolds(levels, l, |levels|, t);
    forall k | 0 <= k < |levels| && t in levels[k] ensures t in Flat(levels, l, |levels|) {
      var o := if k >= l then k - l else k + |levels| - l;
      assert Around(|levels|, l, o) == k;
    }
  }

  /** A full round. `Flat` lists every scheduled thread once, from the current one on; that many ticks
      run each of them exactly once, the current one last, and bring the queues, `current_tcb` and
      `HAS_RUN` back, with everybody READY but the current thread. */
  lemma FullRound(s: Sched, l: nat)
    requires Entered(s, l) && Proper(s)
    ensures var f := Flat(s.levels, l, |s.levels|); var (s', ran) := TickRun(s, |f|);
            && f != [] && ran == f[1..] + [f[0]] && f[0] == s.current.value
            && Distinct(ran) && (forall t :: t in ran <==> Scheduled(s, t))
            && s' == s.(threads := s'.threads) && SameThreads(s.threads, s'.threads)
            && (forall t :: Scheduled(s, t) ==> Turned(s', t))
  {
    var n := |s.levels|;
    var f := Flat(s.levels, l, n);
    Levels(s, l, n);
    FlatDistinct(s, l, n);
    assert NextLevel(s.levels, l, n) == l;
    FlatStart(s.levels, l, n);
    var ran := TickRun(s, |f|).1;
    assert ran == f[1..] + [f[0]];
    forall t ensures (t in ran <==> Scheduled(s, t)) && (t in f <==> Scheduled(s, t)) {
      FlatIsScheduled(s.levels, l, t);
      assert f == [f[0]] + f[1..];
    }
  }

  lemma {:induction false} FlatStart(levels: seq<seq<nat>>, l: nat, j: nat)
    requires l < |levels| && 1 <= j <= |levels| && levels[l] != []
    ensures Flat(levels, l, j) != [] && Flat(levels, l, j)[0] == levels[l][0]
  {
    if j == 1 {
      assert Flat(levels, l, 1) == levels[l];
    } else {
      FlatStart(levels, l, j - 1);
    }
  }
}
