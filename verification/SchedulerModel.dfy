/** What the scheduler of my_pthread.c computes, as functions on values.

    The class in Scheduler.dfy runs the source's loops over linked queues and is
    proved to produce these states; the lemmas about whole runs are stated here. */
module SchedulerModel {

  datatype Option<+T> = None | Some(value: T)

  datatype ThreadState = Running | Ready | Waiting | Yielding | Terminated

  datatype Thread = Thread(state: ThreadState, priority: int, ret: int)

  datatype Lock = Lock(locked: bool, waiters: seq<nat>)

  /** The library's globals: the multi-level queue, every mutex, every tcb,
      `current_tcb`, `HAS_RUN`, `AFTER_UNLOCK_PRIORITY` and `TID`. */
  datatype Sched = Sched(
    levels: seq<seq<nat>>,
    locks: seq<Lock>,
    threads: map<nat, Thread>,
    current: Option<nat>,
    hasRun: int,
    afterUnlock: int,
    lastTid: nat)

  // ----- well-formed states

  ghost predicate LevelsCoherent(levels: seq<seq<nat>>, threads: map<nat, Thread>) {
    forall l, t :: 0 <= l < |levels| && t in levels[l] ==> t in threads && threads[t].priority == l
  }

  /** A scheduled thread's priority names its level, and `current_tcb` is a known thread. */
  ghost predicate Coherent(s: Sched) {
    && 2 <= |s.levels|
    && LevelsCoherent(s.levels, s.threads)
    && 0 <= s.hasRun
    && (s.current.Some? ==>
          s.current.value in s.threads && 0 <= s.threads[s.current.value].priority < |s.levels|)
  }

  ghost function CurrentLevel(s: Sched): (l: nat)
    requires Coherent(s) && s.current.Some?
  {
    s.threads[s.current.value].priority
  }

  /** The level a tick takes its thread from is not empty. */
  ghost predicate CanDequeue(s: Sched) {
    Coherent(s) && s.current.Some? && s.levels[CurrentLevel(s)] != []
  }

  function SetState(threads: map<nat, Thread>, t: nat, st: ThreadState): map<nat, Thread>
    requires t in threads
  {
    threads[t := threads[t].(state := st)]
  }

  // ----- the level search

  /** The level `o` places after `c`, going round. */
  function Around(n: nat, c: nat, o: nat): (d: nat)
    requires c < n && o <= n
    ensures d < n
  {
    if c + o < n then c + o else c + o - n
  }

  /** The first nonempty level at `o` or more places after `c`, and `c` itself when there is none. */
  function NextLevel(levels: seq<seq<nat>>, c: nat, o: nat): (d: nat)
    requires c < |levels| && 1 <= o <= |levels|
    ensures d < |levels|
    decreases |levels| - o
  {
    var d := Around(|levels|, c, o);
    if o == |levels| || levels[d] != [] then d else NextLevel(levels, c, o + 1)
  }

  function Peek(levels: seq<seq<nat>>, l: nat): Option<nat>
    requires l < |levels|
  {
    if levels[l] == [] then None else Some(levels[l][0])
  }

  /** Independent reading of the search: the chosen level lies some places further on, everything
      in between is empty, and it is nonempty unless the search came all the way round. */
  ghost predicate FirstNonemptyAfter(levels: seq<seq<nat>>, c: nat, d: nat) {
    c < |levels| &&
    exists o :: 1 <= o <= |levels| && FoundAt(levels, c, d, o)
  }

  ghost predicate FoundAt(levels: seq<seq<nat>>, c: nat, d: nat, o: nat)
    requires c < |levels| && 1 <= o <= |levels|
  {
    && d == Around(|levels|, c, o)
    && (forall i :: 1 <= i < o ==> levels[Around(|levels|, c, i)] == [])
    && (o < |levels| ==> levels[d] != [])
  }

  lemma {:induction false} NextLevelFound(levels: seq<seq<nat>>, c: nat, o: nat)
    requires c < |levels| && 1 <= o <= |levels|
    requires forall i :: 1 <= i < o ==> levels[Around(|levels|, c, i)] == []
    ensures FirstNonemptyAfter(levels, c, NextLevel(levels, c, o))
    decreases |levels| - o
  {
    var d := Around(|levels|, c, o);
    if o == |levels| || levels[d] != [] {
      assert FoundAt(levels, c, d, o);
    } else {
      NextLevelFound(levels, c, o + 1);
    }
  }

  /** The search chooses exactly the level that the reading above describes. */
  lemma NextLevelIsFirst(levels: seq<seq<nat>>, c: nat, d: nat)
    requires c < |levels|
    ensures FirstNonemptyAfter(levels, c, d) <==> d == NextLevel(levels, c, 1)
  {
    NextLevelFound(levels, c, 1);
    var e := NextLevel(levels, c, 1);
    if FirstNonemptyAfter(levels, c, d) {
      var o :| 1 <= o <= |levels| && FoundAt(levels, c, d, o);
      var p :| 1 <= p <= |levels| && FoundAt(levels, c, e, p);
      assert o == p;
    }
  }

  /** The chosen level is empty only when every level is. */
  lemma NextLevelEmpty(levels: seq<seq<nat>>, c: nat)
    requires c < |levels|
    ensures levels[NextLevel(levels, c, 1)] == [] <==> forall l :: 0 <= l < |levels| ==> levels[l] == []
  {
    NextLevelFound(levels, c, 1);
    var d := NextLevel(levels, c, 1);
    if levels[d] == [] {
      forall l | 0 <= l < |levels| ensures levels[l] == [] {
        var o := if l > c then l - c else l + |levels| - c;
        assert l == Around(|levels|, c, o);
      }
    }
  }

  // ----- one pass of my_pthread_yield_helper

  /** Lines 572-577: the head of the current level goes to its tail, READY unless TERMINATED. */
  ghost function Requeue(s: Sched): Sched
    requires CanDequeue(s)
  {
    var l := CurrentLevel(s);
    var q := s.levels[l];
    s.(levels := s.levels[l := q[1..] + [q[0]]],
       threads := if s.threads[q[0]].state == Terminated then s.threads
                  else SetState(s.threads, q[0], Ready))
  }

  /** Lines 579-616 and 638-675: stay on level `l`, or move on when it has had its turns. */
  function Select(s: Sched, l: nat): Sched
    requires l < |s.levels| && 0 <= s.hasRun
  {
    if s.hasRun >= |s.levels[l]|
    then s.(hasRun := 0, current := Peek(s.levels, NextLevel(s.levels, l, 1)))
    else s.(current := Some(s.levels[l][0]))
  }

  /** Lines 617-630 and 676-688: run the selected thread, or ask for another pass. */
  function Examine(s: Sched): (r: (Sched, bool))
    requires s.current.Some? && s.current.value in s.threads
  {
    var t := s.current.value;
    match s.threads[t].state
    case Yielding => (s.(threads := SetState(s.threads, t, Ready)), true)
    case Terminated => (s, true)
    case _ => (s.(threads := SetState(s.threads, t, Running), hasRun := s.hasRun + 1), false)
  }

  /** The level the next pass selects from. */
  ghost function TargetLevel(s: Sched): (l: nat)
    requires CanDequeue(s)
    ensures l < |s.levels|
  {
    var l := CurrentLevel(s);
    if s.hasRun >= |s.levels[l]| then NextLevel(s.levels, l, 1) else l
  }

  ghost predicate HoldsLive(s: Sched, l: nat) {
    l < |s.levels| && exists t :: t in s.levels[l] && t in s.threads && s.threads[t].state != Terminated
  }

  lemma RequeueCoherent(s: Sched)
    requires CanDequeue(s)
    ensures Coherent(Requeue(s))
    ensures multiset(Requeue(s).levels[CurrentLevel(s)]) == multiset(s.levels[CurrentLevel(s)])
  {
    var l := CurrentLevel(s);
    var q := s.levels[l];
    assert q == [q[0]] + q[1..];
    var q' := q[1..] + [q[0]];
    assert multiset(q') == multiset(q);
    assert forall t :: t in q' ==> t in q;
  }

  lemma SelectCoherent(s: Sched, l: nat)
    requires Coherent(s) && l < |s.levels|
    ensures Coherent(Select(s, l))
  {
  }

  /** Emptiness is all the search looks at. */
  lemma {:induction false} NextLevelSameShape(a: seq<seq<nat>>, b: seq<seq<nat>>, c: nat, o: nat)
    requires |a| == |b| && c < |a| && 1 <= o <= |a|
    requires forall l :: 0 <= l < |a| ==> (a[l] == [] <==> b[l] == [])
    ensures NextLevel(a, c, o) == NextLevel(b, c, o)
    decreases |a| - o
  {
    if !(o == |a| || a[Around(|a|, c, o)] != []) {
      NextLevelSameShape(a, b, c, o + 1);
    }
  }

  /** What the search selects after the requeueing: the head of the target level. */
  lemma SelectedHead(s: Sched)
    requires CanDequeue(s)
    ensures var s2 := Select(Requeue(s), CurrentLevel(s)); var d := TargetLevel(s);
            && Coherent(s2) && s2.levels == Requeue(s).levels && s2.levels[d] != []
            && s2.current == Some(s2.levels[d][0]) && CurrentLevel(s2) == d
  {
    var l := CurrentLevel(s);
    RequeueCoherent(s);
    NextLevelSameShape(s.levels, Requeue(s).levels, l, 1);
    NextLevelEmpty(Requeue(s).levels, l);
    SelectCoherent(Requeue(s), l);
  }

  lemma ExamineCoherent(s: Sched)
    requires Coherent(s) && s.current.Some?
    ensures Coherent(Examine(s).0) && Examine(s).0.current == s.current && Examine(s).0.levels == s.levels
    ensures CurrentLevel(Examine(s).0) == CurrentLevel(s)
  {
  }

  /** One call of the helper up to where it either runs a thread or calls itself again. */
  ghost function YieldOnce(s: Sched): (r: (Sched, bool))
    requires CanDequeue(s)
    ensures Coherent(r.0) && r.0.current.Some?
    ensures CurrentLevel(r.0) == TargetLevel(s)
    ensures r.0.levels == Requeue(s).levels
    ensures r.0.levels[TargetLevel(s)] != [] && r.0.current == Some(r.0.levels[TargetLevel(s)][0])
  {
    SelectedHead(s);
    var s2 := Select(Requeue(s), CurrentLevel(s));
    ExamineCoherent(s2);
    Examine(s2)
  }

  // ----- the helper's recursion

  /** How many threads of a level are in state `st`. */
  ghost function CountState(q: seq<nat>, threads: map<nat, Thread>, st: ThreadState): nat {
    if q == [] then 0
    else (if q[0] in threads && threads[q[0]].state == st then 1 else 0) + CountState(q[1..], threads, st)
  }

  ghost predicate LiveIn(threads: map<nat, Thread>, t: nat) {
    t in threads && threads[t].state != Terminated
  }

  ghost predicate Runnable(threads: map<nat, Thread>, t: nat) {
    t in threads && threads[t].state != Terminated && threads[t].state != Yielding
  }

  ghost predicate Distinct(q: seq<nat>) {
    forall i, j :: 0 <= i < j < |q| ==> q[i] != q[j]
  }

  /** The place of the first live thread, at or after place `i`. */
  ghost function FirstLive(q: seq<nat>, threads: map<nat, Thread>, i: nat): (d: nat)
    requires i <= |q|
    ensures i <= d <= |q|
    ensures d < |q| ==> LiveIn(threads, q[d])
    ensures forall k :: i <= k < d ==> !LiveIn(threads, q[k])
    decreases |q| - i
  {
    if i == |q| || LiveIn(threads, q[i]) then i else FirstLive(q, threads, i + 1)
  }

  /** The next pass leaves the current level. */
  ghost predicate Leaving(s: Sched)
    requires CanDequeue(s)
  {
    s.hasRun >= |s.levels[CurrentLevel(s)]|
  }

  /** A state from which the helper gets to run some thread. */
  ghost predicate CanYield(s: Sched) {
    CanDequeue(s) && HoldsLive(s, TargetLevel(s))
  }

  ghost function YieldingLeft(s: Sched): nat
    requires CanDequeue(s)
  {
    if Leaving(s) then 0 else CountState(s.levels[CurrentLevel(s)], s.threads, Yielding)
  }

  /** Passes until a live thread is at the head of the level being rotated. */
  ghost function LiveDistance(s: Sched): nat
    requires CanDequeue(s)
  {
    if Leaving(s) then 0 else FirstLive(Requeue(s).levels[CurrentLevel(s)], s.threads, 0)
  }

  lemma {:induction false} CountStateAppend(a: seq<nat>, b: seq<nat>, threads: map<nat, Thread>, st: ThreadState)
    ensures CountState(a + b, threads, st) == CountState(a, threads, st) + CountState(b, threads, st)
  {
    if a == [] {
      assert a + b == b;
    } else {
      assert (a + b)[1..] == a[1..] + b;
      CountStateAppend(a[1..], b, threads, st);
    }
  }

  /** Taking threads out of a state can only lower the count, and strictly so for a thread that is there. */
  lemma {:induction false} CountStateFalls(q: seq<nat>, a: map<nat, Thread>, b: map<nat, Thread>, st: ThreadState)
    requires forall t :: t in b && b[t].state == st ==> t in a && a[t].state == st
    ensures CountState(q, b, st) <= CountState(q, a, st)
    ensures (exists t :: t in q && t in a && a[t].state == st && !(t in b && b[t].state == st)) ==>
              CountState(q, b, st) < CountState(q, a, st)
  {
    if q != [] {
      CountStateFalls(q[1..], a, b, st);
      assert forall t :: t in q ==> t == q[0] || t in q[1..];
    }
  }

  lemma RequeueKeepsLive(s: Sched)
    requires CanDequeue(s)
    ensures forall t :: LiveIn(Requeue(s).threads, t) <==> LiveIn(s.threads, t)
    ensures forall l :: 0 <= l < |s.levels| ==> forall t :: t in Requeue(s).levels[l] <==> t in s.levels[l]
  {
  }

  /** After a pass that asks for another, the level is settled, its threads are those it had, and the same
      threads are live. */
  lemma PassKeepsTarget(s: Sched)
    requires CanDequeue(s) && YieldOnce(s).1
    ensures var s' := YieldOnce(s).0;
            && CanDequeue(s') && !Leaving(s') && TargetLevel(s') == TargetLevel(s)
            && (forall t :: t in s'.levels[TargetLevel(s)] <==> t in s.levels[TargetLevel(s)])
            && (forall t :: LiveIn(s'.threads, t) <==> LiveIn(s.threads, t))
            && (HoldsLive(s', TargetLevel(s')) <==> HoldsLive(s, TargetLevel(s)))
  {
    RequeueKeepsLive(s);
    var s', d := YieldOnce(s).0, TargetLevel(s);
    assert HoldsLive(s, d) <==> exists t :: t in s.levels[d] && LiveIn(s.threads, t);
    assert HoldsLive(s', d) <==> exists t :: t in s'.levels[d] && LiveIn(s'.threads, t);
  }

  /** The measure of the recursion: at most one pass moves to another level; after that every pass
      either wakes a YIELD thread for good or brings the first live thread one place nearer the head. */
  lemma PassProgress(s: Sched)
    requires CanYield(s) && YieldOnce(s).1 && !Leaving(s)
    ensures CanDequeue(YieldOnce(s).0)
    ensures var s' := YieldOnce(s).0;
            || YieldingLeft(s') < YieldingLeft(s)
            || (YieldingLeft(s') == YieldingLeft(s) && LiveDistance(s') < LiveDistance(s))
  {
    PassKeepsTarget(s);
    RequeueKeepsLive(s);
    var s', r := YieldOnce(s).0, YieldOnce(s).0.levels[CurrentLevel(s)];
    YieldingFalls(s, s', r);
    if s.threads[r[0]].state != Yielding {
      LiveDistanceFalls(s, s', r);
    }
  }

  /** A pass that wakes a YIELD thread leaves fewer; one that wakes none has met a TERMINATED thread. */
  lemma YieldingFalls(s: Sched, s': Sched, r: seq<nat>)
    requires CanYield(s) && YieldOnce(s) == (s', true) && !Leaving(s)
    requires CanDequeue(s') && !Leaving(s') && CurrentLevel(s') == CurrentLevel(s)
    requires r == Requeue(s).levels[CurrentLevel(s)] == s'.levels[CurrentLevel(s)]
    ensures r != [] && r[0] in s.threads
    ensures s.threads[r[0]].state == Yielding ==> YieldingLeft(s') < YieldingLeft(s)
    ensures YieldingLeft(s') <= YieldingLeft(s)
    ensures s.threads[r[0]].state != Yielding ==> !LiveIn(s.threads, r[0])
  {
    hide LiveDistance, HoldsLive;
    var q := s.levels[CurrentLevel(s)];
    assert q == [q[0]] + q[1..] && r == q[1..] + [q[0]];
    CountStateAppend([q[0]], q[1..], s.threads, Yielding);
    CountStateAppend(q[1..], [q[0]], s.threads, Yielding);
    CountStateFalls(r, s.threads, s'.threads, Yielding);
    assert r[0] in r && r[0] in q;
  }

  lemma LiveDistanceFalls(s: Sched, s': Sched, r: seq<nat>)
    requires CanYield(s) && CanDequeue(s') && !Leaving(s) && !Leaving(s')
    requires CurrentLevel(s') == CurrentLevel(s)
    requires r == Requeue(s).levels[CurrentLevel(s)] == s'.levels[CurrentLevel(s)]
    requires forall t :: LiveIn(s'.threads, t) <==> LiveIn(s.threads, t)
    requires forall t :: t in r <==> t in s.levels[CurrentLevel(s)]
    requires !LiveIn(s.threads, r[0])
    ensures LiveDistance(s') < LiveDistance(s)
  {
    var r' := Requeue(s').levels[CurrentLevel(s')];
    assert r' == r[1..] + [r[0]];
    var t :| t in s.levels[CurrentLevel(s)] && LiveIn(s.threads, t);
    var d := FirstLive(r, s.threads, 0);
    var k :| 0 <= k < |r| && r[k] == t;
    assert d < |r| && d > 0;
    assert r'[d - 1] == r[d];
    var d' := FirstLive(r', s'.threads, 0);
    assert d' <= d - 1;
  }

  /** The whole helper: passes until one runs a thread. */
  ghost function Yield(s: Sched): (r: Sched)
    requires CanYield(s)
    decreases if Leaving(s) then 1 else 0, YieldingLeft(s), LiveDistance(s)
  {
    var (s', again) := YieldOnce(s);
    if !again then s'
    else
      PassKeepsTarget(s);
      if Leaving(s) then Yield(s') else
        PassProgress(s);
        Yield(s')
  }

  /** The helper's measure goes down from one pass to the next. */
  ghost predicate Nearer(s: Sched, s': Sched)
    requires CanDequeue(s) && CanDequeue(s')
  {
    || (Leaving(s) && !Leaving(s'))
    || (Leaving(s) == Leaving(s')
        && (YieldingLeft(s') < YieldingLeft(s)
            || (YieldingLeft(s') == YieldingLeft(s) && LiveDistance(s') < LiveDistance(s))))
  }

  /** One pass of the helper in terms of its parts. */
  lemma YieldUnfold(s: Sched)
    requires CanYield(s)
    ensures CanDequeue(s)
    ensures Select(Requeue(s), CurrentLevel(s)).current.Some? && Coherent(Select(Requeue(s), CurrentLevel(s)))
    ensures YieldOnce(s) == Examine(Select(Requeue(s), CurrentLevel(s)))
    ensures !YieldOnce(s).1 ==> Yield(s) == YieldOnce(s).0
    ensures YieldOnce(s).1 ==> CanYield(YieldOnce(s).0) && Yield(s) == Yield(YieldOnce(s).0) && Nearer(s, YieldOnce(s).0)
  {
    SelectedHead(s);
    if YieldOnce(s).1 {
      PassKeepsTarget(s);
      if !Leaving(s) { PassProgress(s); }
    }
  }

  /** At most `n` passes; the flag says that the last of them still asked for another. */
  ghost function Passes(s: Sched, n: nat): (r: (Sched, bool))
    requires CanDequeue(s)
    decreases n
  {
    if n == 0 then (s, true)
    else
      var (s', again) := YieldOnce(s);
      if !again then (s', false) else
        PassKeepsTarget(s);
        Passes(s', n - 1)
  }

  ghost predicate Halts(s: Sched)
    requires CanDequeue(s)
  {
    exists n: nat :: !Passes(s, n).1
  }

  lemma {:induction false} YieldHalts(s: Sched)
    requires CanYield(s)
    ensures Halts(s)
    ensures exists n: nat :: Passes(s, n) == (Yield(s), false)
    decreases if Leaving(s) then 1 else 0, YieldingLeft(s), LiveDistance(s)
  {
    var (s', again) := YieldOnce(s);
    if !again {
      assert Passes(s, 1) == (Yield(s), false);
    } else {
      PassKeepsTarget(s);
      if !Leaving(s) { PassProgress(s); }
      YieldHalts(s');
      var n: nat :| Passes(s', n) == (Yield(s'), false);
      assert Passes(s, n + 1) == (Yield(s), false);
    }
  }

  lemma {:induction false} DeadLevelNeverHalts(s: Sched, n: nat)
    requires CanDequeue(s) && !HoldsLive(s, TargetLevel(s))
    ensures Passes(s, n).1
    decreases n
  {
    if n != 0 {
      var (s', again) := YieldOnce(s);
      RequeueKeepsLive(s);
      var d := TargetLevel(s);
      var t := s'.current.value;
      assert t in s.levels[d];
      assert !LiveIn(s.threads, t);
      assert again;
      PassKeepsTarget(s);
      DeadLevelNeverHalts(s', n - 1);
    }
  }

  /** The helper returns exactly when the level it selects from holds a thread that is not TERMINATED. */
  lemma HaltsExactlyWhenTargetLive(s: Sched)
    requires CanDequeue(s)
    ensures Halts(s) <==> HoldsLive(s, TargetLevel(s))
  {
    if HoldsLive(s, TargetLevel(s)) {
      YieldHalts(s);
    } else {
      forall n: nat ensures Passes(s, n).1 {
        DeadLevelNeverHalts(s, n);
      }
    }
  }

  // ----- what a tick leaves alone

  ghost predicate SameThreads(a: map<nat, Thread>, b: map<nat, Thread>) {
    && a.Keys == b.Keys
    && forall t :: t in a ==>
                     && a[t].priority == b[t].priority && a[t].ret == b[t].ret
                     && (a[t].state == Terminated <==> b[t].state == Terminated)
  }

  /** Every level holds the threads it held, in some order. */
  ghost predicate SameQueues(a: seq<seq<nat>>, b: seq<seq<nat>>) {
    |a| == |b| && forall l :: 0 <= l < |a| ==> multiset(a[l]) == multiset(b[l])
  }

  ghost predicate OnlyRotated(s: Sched, s': Sched) {
    && SameQueues(s.levels, s'.levels)
    && SameThreads(s.threads, s'.threads)
    && s'.locks == s.locks && s'.lastTid == s.lastTid
  }

  /** The current thread is RUNNING at the head of level `l`. */
  ghost predicate RunsHeadOf(s: Sched, l: nat) {
    && l < |s.levels| && s.levels[l] != []
    && s.current == Some(s.levels[l][0])
    && s.levels[l][0] in s.threads
    && s.threads[s.levels[l][0]].state == Running
    && s.threads[s.levels[l][0]].priority == l
    && 1 <= s.hasRun
  }

  lemma RotatedTrans(a: Sched, b: Sched, c: Sched)
    requires OnlyRotated(a, b) && OnlyRotated(b, c)
    ensures OnlyRotated(a, c)
  {
  }

  lemma RequeueFrame(s: Sched)
    requires CanDequeue(s)
    ensures OnlyRotated(s, Requeue(s))
  {
    RequeueCoherent(s);
  }

  lemma ExamineFrame(s: Sched)
    requires s.current.Some? && s.current.value in s.threads
    ensures OnlyRotated(s, Examine(s).0) && Examine(s).0.current == s.current
    ensures Examine(s).0.afterUnlock == s.afterUnlock
    ensures Coherent(s) ==> Coherent(Examine(s).0)
    ensures forall t :: LiveIn(s.threads, t) <==> LiveIn(Examine(s).0.threads, t)
  {
  }

  lemma ExamineRuns(s: Sched, l: nat)
    requires Coherent(s) && l < |s.levels| && s.levels[l] != []
    requires s.current == Some(s.levels[l][0]) && !Examine(s).1
    ensures RunsHeadOf(Examine(s).0, l) && LiveIn(s.threads, s.current.value)
  {
  }

  lemma YieldOnceFrame(s: Sched)
    requires CanDequeue(s)
    ensures OnlyRotated(s, YieldOnce(s).0)
    ensures YieldOnce(s).0.afterUnlock == s.afterUnlock
    ensures !YieldOnce(s).1 ==> RunsHeadOf(YieldOnce(s).0, TargetLevel(s)) && LiveIn(s.threads, YieldOnce(s).0.current.value)
  {
    var l := CurrentLevel(s);
    var s1 := Requeue(s);
    RequeueFrame(s);
    SelectedHead(s);
    var s2 := Select(s1, l);
    assert OnlyRotated(s, s2);
    ExamineFrame(s2);
    RotatedTrans(s, s2, YieldOnce(s).0);
    if !YieldOnce(s).1 {
      ExamineRuns(s2, TargetLevel(s));
      RequeueKeepsLive(s);
    }
  }

  /** A tick moves no thread to another level, changes no priority, result or mutex, neither ends nor
      revives a thread, and runs the head of the level it set out for, which was not TERMINATED. */
  lemma {:induction false} YieldFrame(s: Sched)
    requires CanYield(s)
    ensures OnlyRotated(s, Yield(s)) && Coherent(Yield(s)) && Yield(s).afterUnlock == s.afterUnlock
    ensures RunsHeadOf(Yield(s), TargetLevel(s)) && LiveIn(s.threads, Yield(s).current.value)
    decreases if Leaving(s) then 1 else 0, YieldingLeft(s), LiveDistance(s)
  {
    var (s', again) := YieldOnce(s);
    YieldOnceFrame(s);
    if again {
      PassKeepsTarget(s);
      if !Leaving(s) { PassProgress(s); }
      YieldFrame(s');
      RotatedTrans(s, s', Yield(s));
    }
  }

  // ----- my_pthread_yield_after_unlock_helper

  /** Where the helper for a tick after an unlock looks: at the recorded level, not at the current thread. */
  ghost function AfterUnlockTarget(s: Sched): (l: nat)
    requires Coherent(s) && 0 <= s.afterUnlock < |s.levels|
    ensures l < |s.levels|
  {
    if s.hasRun >= |s.levels[s.afterUnlock]| then NextLevel(s.levels, s.afterUnlock, 1) else s.afterUnlock
  }

  /** Either no thread is scheduled anywhere or the selected level holds one that is not TERMINATED. */
  ghost predicate CanYieldAfterUnlock(s: Sched) {
    && Coherent(s) && 0 <= s.afterUnlock < |s.levels|
    && (s.levels[AfterUnlockTarget(s)] == [] || HoldsLive(s, AfterUnlockTarget(s)))
  }

  ghost function YieldAfterUnlock(s: Sched): (r: Sched)
    requires CanYieldAfterUnlock(s)
  {
    var l := s.afterUnlock;
    var s1 := Select(s.(afterUnlock := -1), l);
    if s1.current.None? then s1
    else
      var (s2, again) := Examine(s1);
      if !again then s2 else
        SelectedCanYield(s);
        Yield(s2)
  }

  lemma SelectedCanYield(s: Sched)
    requires CanYieldAfterUnlock(s)
    requires Select(s.(afterUnlock := -1), s.afterUnlock).current.Some?
    ensures var s1 := Select(s.(afterUnlock := -1), s.afterUnlock);
            && Coherent(s1) && CurrentLevel(s1) == AfterUnlockTarget(s)
            && s1.current == Some(s.levels[AfterUnlockTarget(s)][0])
            && (Examine(s1).1 ==> CanYield(Examine(s1).0) && TargetLevel(Examine(s1).0) == AfterUnlockTarget(s))
  {
  }

  lemma YieldAfterUnlockFrame(s: Sched)
    requires CanYieldAfterUnlock(s)
    ensures var s' := YieldAfterUnlock(s);
            && OnlyRotated(s, s') && Coherent(s') && s'.afterUnlock == -1
            && (s'.current.None? <==> forall l :: 0 <= l < |s.levels| ==> s.levels[l] == [])
            && (s'.current.Some? ==> RunsHeadOf(s', AfterUnlockTarget(s)) && LiveIn(s.threads, s'.current.value))
  {
    var s1 := Select(s.(afterUnlock := -1), s.afterUnlock);
    NextLevelEmpty(s.levels, s.afterUnlock);
    if s1.current.Some? {
      SelectedCanYield(s);
      var (s2, again) := Examine(s1);
      ExamineFrame(s1);
      assert OnlyRotated(s, s1);
      RotatedTrans(s, s1, s2);
      if again {
        YieldFrame(s2);
        RotatedTrans(s, s2, Yield(s2));
      } else {
        ExamineRuns(s1, AfterUnlockTarget(s));
      }
    }
  }

  // ----- the signal handler

  /** A tick that finds the time slice used up returns. */
  ghost predicate CanTick(s: Sched) {
    s.current.Some? && if s.afterUnlock != -1 then CanYieldAfterUnlock(s) else CanYield(s)
  }

  ghost function Tick(s: Sched): Sched
    requires CanTick(s)
  {
    if s.afterUnlock != -1 then YieldAfterUnlock(s) else Yield(s)
  }

  /** The helper for a tick after an unlock returns: it selects nobody, or a thread it can run, or its call
      of the other helper returns. */
  ghost predicate ReturnsAfterUnlock(s: Sched)
    requires Coherent(s) && 0 <= s.afterUnlock < |s.levels|
  {
    var s1 := Select(s.(afterUnlock := -1), s.afterUnlock);
    s1.current.Some? ==>
      && s1.current.value in s1.threads
      && (Examine(s1).1 ==> CanDequeue(Examine(s1).0) && Halts(Examine(s1).0))
  }

  lemma ReturnsAfterUnlockExactly(s: Sched)
    requires Coherent(s) && 0 <= s.afterUnlock < |s.levels|
    ensures ReturnsAfterUnlock(s) <==> CanYieldAfterUnlock(s)
  {
    var s1 := Select(s.(afterUnlock := -1), s.afterUnlock);
    var d := AfterUnlockTarget(s);
    if CanYieldAfterUnlock(s) {
      if s1.current.Some? {
        SelectedCanYield(s);
        if Examine(s1).1 { HaltsExactlyWhenTargetLive(Examine(s1).0); }
      }
    } else {
      SelectCoherent(s.(afterUnlock := -1), s.afterUnlock);
      assert s.levels[d][0] in s.levels[d];
      assert s1.current == Some(s.levels[d][0]) && CurrentLevel(s1) == d && Examine(s1) == (s1, true);
      assert !HoldsLive(s1, TargetLevel(s1));
      HaltsExactlyWhenTargetLive(s1);
    }
  }

  /** A tick neither dereferences a null tcb nor goes on for ever. */
  ghost predicate TickEnds(s: Sched)
    requires Coherent(s)
  {
    && s.current.Some?
    && (if s.afterUnlock != -1 then 0 <= s.afterUnlock < |s.levels| && ReturnsAfterUnlock(s)
        else CanDequeue(s) && Halts(s))
  }

  lemma TickEndsExactly(s: Sched)
    requires Coherent(s)
    ensures TickEnds(s) <==> CanTick(s)
  {
    if 0 <= s.afterUnlock < |s.levels| { ReturnsAfterUnlockExactly(s); }
    if CanDequeue(s) { HaltsExactlyWhenTargetLive(s); }
  }

  // ----- the calls a running thread makes

  /** The test-and-set of my_pthread_mutex_lock: the mutex is LOCKED afterwards, whatever it was. */
  function TestAndSet(s: Sched, m: nat): Sched
    requires m < |s.locks|
  {
    s.(locks := s.locks[m := s.locks[m].(locked := true)])
  }

  /** What follows a failed test-and-set: the head of level `level` moves to the mutex's queue. */
  function Block(s: Sched, m: nat, level: nat): Sched
    requires m < |s.locks| && level < |s.levels| && s.levels[level] != []
  {
    var q := s.levels[level];
    s.(levels := s.levels[level := q[1..]],
       locks := s.locks[m := s.locks[m].(waiters := s.locks[m].waiters + [q[0]])])
  }

  /** One uninterrupted round of the loop of my_pthread_mutex_lock. */
  function LockAttempt(s: Sched, m: nat, level: nat): Sched
    requires m < |s.locks| && level < |s.levels|
    requires s.locks[m].locked ==> s.levels[level] != []
  {
    if !s.locks[m].locked then TestAndSet(s, m) else Block(s, m, level)
  }

  /** schedule_thread for a valid priority. */
  function Schedule(s: Sched, t: nat, level: nat): Sched
    requires t in s.threads && level < |s.levels|
  {
    s.(levels := s.levels[level := s.levels[level] + [t]],
       threads := s.threads[t := s.threads[t].(priority := level)])
  }

  /** A thread that stands nowhere and is scheduled on a level carries that level as its priority. */
  lemma ScheduleRecordsLevel(s: Sched, t: nat, level: nat)
    requires Coherent(s) && t in s.threads && level < |s.levels| && s.current != Some(t)
    requires forall l :: 0 <= l < |s.levels| ==> t !in s.levels[l]
    ensures Coherent(Schedule(s, t, level)) && Schedule(s, t, level).threads[t].priority == level
  {
  }

  /** my_pthread_mutex_unlock: release, then put the longest waiter back on the first level. */
  function Unlock(s: Sched, m: nat): Sched
    requires m < |s.locks| && 0 < |s.levels|
    requires s.current.Some? && s.current.value in s.threads
    requires s.locks[m].waiters != [] ==> s.locks[m].waiters[0] in s.threads
  {
    var ws := s.locks[m].waiters;
    var s1 := s.(locks := s.locks[m := Lock(false, if ws == [] then [] else ws[1..])]);
    var s2 := if ws == [] then s1 else Schedule(s1, ws[0], 0);
    s2.(afterUnlock := s2.threads[s.current.value].priority)
  }

  /** my_pthread_exit and the end of thread_function_wrapper: publish a result and terminate. */
  function Publish(s: Sched, v: int): Sched
    requires s.current.Some? && s.current.value in s.threads
  {
    var t := s.current.value;
    s.(threads := s.threads[t := s.threads[t].(state := Terminated, ret := v)])
  }

  /** The end of thread_function_wrapper: a thread that called exit pauses there and keeps its result. */
  function WrapperReturn(s: Sched, v: int): Sched
    requires s.current.Some? && s.current.value in s.threads
  {
    if s.threads[s.current.value].state == Terminated then s else Publish(s, v)
  }

  /** my_pthread_create: the first call also schedules the caller as thread 0 and makes it current. */
  function Create(s: Sched): Sched
    requires 0 < |s.levels|
  {
    var s1 := if s.lastTid != 0 then s
              else s.(levels := s.levels[0 := s.levels[0] + [0]],
                      threads := s.threads[0 := Thread(Ready, 0, 0)],
                      current := Some(0));
    var t := s1.lastTid + 1;
    s1.(levels := s1.levels[0 := s1.levels[0] + [t]],
        threads := s1.threads[t := Thread(Ready, 0, 0)],
        lastTid := t)
  }

  /** my_pthread_mutex_init. */
  function MutexInit(s: Sched): Sched {
    s.(locks := s.locks + [Lock(false, [])])
  }

  /** What get_tcb finds for my_pthread_join: a thread waiting for a mutex is not found. */
  ghost predicate Scheduled(s: Sched, t: nat) {
    exists l :: 0 <= l < |s.levels| && t in s.levels[l]
  }

  /** What the loop of my_pthread_join reads off the tcb it has found: nothing until the thread has ended. */
  function Outcome(s: Sched, t: nat): Option<int> {
    if t in s.threads && s.threads[t].state == Terminated then Some(s.threads[t].ret) else None
  }
}
