/** Three short runs of two threads in which something goes wrong: a wake-up is lost, a tick goes on for ever,
    a result is overwritten. */
module Scenarios {
  import opened SchedulerModel
  import opened Runs
  import opened RunSteps
  import opened Reachable

  /** The main thread and thread 1 share the first of two levels; `a` is current, `b` is next. */
  ghost predicate Pair(y: Sys, a: nat, b: nat, hasRun: nat) {
    && {a, b} == {0, 1} && a != b && y.s.lastTid == 1
    && y.s.levels == [[a, b], []] && y.s.current == Some(a) && y.s.hasRun == hasRun
    && (forall t :: t in y.s.threads <==> t == 0 || t == 1) && y.s.threads[0].priority == y.s.threads[1].priority == 0
    && y.at.Keys == {0, 1} && (forall k :: 0 <= k < |y.s.locks| ==> y.s.locks[k].waiters == [])
  }

  ghost predicate CanRun(y: Sys, t: nat) {
    t in y.s.threads && y.s.threads[t].state != Terminated && y.s.threads[t].state != Yielding
  }

  lemma PairStart() returns (y: Sys)
    ensures Follows(Start(2), DoCreate, y) && Pair(y, 0, 1, 0) && CanRun(y, 0) && CanRun(y, 1)
    ensures y.s.locks == [] && y.inside == [] && y.at == map[0 := Free, 1 := Free] && y.s.afterUnlock == -1
    ensures y.exited == map[] && y.returned == map[]
  {
    hide Tick, CanTick;
    y := CreateStep(Start(2));
    assert Start(2).s.levels == [[], []] && Start(2).s.levels[0] == [];
    assert [] + [0] + [1] == [0, 1];
    assert y.s.levels == [[0, 1], []] by { assert y.s.levels[0] == [0, 1] && y.s.levels[1] == []; }
    assert y.at == map[0 := Free, 1 := Free];
  }

  lemma PairActs(y: Sys, a: nat, b: nat, hasRun: nat)
    requires Pair(y, a, b, hasRun)
    ensures Acting(y, a)
  {
    assert a in {a, b};
  }

  /** What a tick leaves as it was. */
  ghost predicate Rest(y: Sys, z: Sys) {
    && z.s.locks == y.s.locks && z.inside == y.inside && z.at == y.at
    && z.exited == y.exited && z.returned == y.returned && z.s.afterUnlock == -1
    && (forall t :: t in y.s.threads && t in z.s.threads ==>
                      (y.s.threads[t].state == Terminated <==> z.s.threads[t].state == Terminated)
                      && z.s.threads[t].ret == y.s.threads[t].ret)
  }

  /** A tick while the level has turns left goes to the other thread. */
  lemma PairTick(y: Sys, a: nat, b: nat, hasRun: nat) returns (z: Sys)
    requires Pair(y, a, b, hasRun) && hasRun < 2 && y.s.afterUnlock == -1 && CanRun(y, b)
    ensures Follows(y, DoTick, z) && Pair(z, b, a, hasRun + 1) && Rest(y, z) && CanRun(z, b) && (CanRun(y, a) ==> CanRun(z, a))
  {
    hide Tick, CanTick;
    TickTurns(y.s, a, b);
    z := Step(y, DoTick);
  }

  lemma TickTurns(s: Sched, a: nat, b: nat)
    requires a != b && s.levels == [[a, b], []] && s.current == Some(a) && 0 <= s.hasRun < 2 && s.afterUnlock == -1
    requires a in s.threads && b in s.threads && s.threads[a].priority == s.threads[b].priority == 0
    requires s.threads[b].state != Terminated && s.threads[b].state != Yielding
    ensures CanTick(s)
    ensures Tick(s) == s.(levels := [[b, a], []], current := Some(b), hasRun := s.hasRun + 1,
                          threads := s.threads[a := s.threads[a].(state := if s.threads[a].state == Terminated then Terminated else Ready)]
                                              [b := s.threads[b].(state := Running)])
  {
    assert b in s.levels[0];
    YieldUnfold(s);
    var s1 := Requeue(s);
    assert CurrentLevel(s) == 0 && [a, b][1..] + [a] == [b, a];
    assert s1.levels == [[b, a], []] by { assert s1.levels[0] == [b, a]; }
    assert Select(s1, 0) == s1.(current := Some(b));
    assert s.threads[a := s.threads[a]] == s.threads;
  }

  /** The first tick after an unlock moves no queue: here it runs the unlocker again. */
  lemma PairTickAfterUnlock(y: Sys, a: nat, b: nat) returns (z: Sys)
    requires Pair(y, a, b, 2) && y.s.afterUnlock == 0 && CanRun(y, a) && CanRun(y, b)
    ensures Follows(y, DoTick, z) && Pair(z, a, b, 1) && Rest(y, z) && CanRun(z, a) && CanRun(z, b)
  {
    assert NextLevel(y.s.levels, 0, 1) == 0;
    assert a in y.s.levels[0];
    z := Step(y, DoTick);
  }

  // ----- a wake-up lost

  lemma PairMutex(y: Sys) returns (z: Sys)
    requires Pair(y, 0, 1, 0) && CanRun(y, 0) && CanRun(y, 1) && y.s.afterUnlock == -1
    requires y.s.locks == [] && y.inside == [] && y.at == map[0 := Free, 1 := Free]
    ensures Follows(y, DoMutexInit, z) && Pair(z, 0, 1, 0) && CanRun(z, 0) && CanRun(z, 1) && z.s.afterUnlock == -1
    ensures z.s.locks == [Lock(false, [])] && z.inside == [{}] && z.at == y.at
  {
    hide Tick, CanTick;
    PairActs(y, 0, 1, 0);
    z := Step(y, DoMutexInit);
  }

  lemma PairTest(y: Sys, a: nat, b: nat, hasRun: nat, holders: set<nat>) returns (z: Sys)
    requires Pair(y, a, b, hasRun) && CanRun(y, a) && CanRun(y, b) && y.s.afterUnlock == -1 && y.at[a] == Free
    requires y.s.locks == [Lock(holders != {}, [])] && y.inside == [holders]
    ensures Follows(y, DoTest(0), z) && Pair(z, a, b, hasRun) && CanRun(z, a) && CanRun(z, b) && z.s.afterUnlock == -1
    ensures z.s.locks == [Lock(true, [])] && z.inside == [if holders == {} then {a} else holders]
    ensures z.at == y.at[a := if holders == {} then Free else Failed(0, 0)]
  {
    hide Tick, CanTick;
    PairActs(y, a, b, hasRun);
    z := Step(y, DoTest(0));
    assert z.inside[0] == if holders == {} then {a} else holders;
  }

  lemma PairUnlock(y: Sys, a: nat, b: nat, hasRun: nat) returns (z: Sys)
    requires Pair(y, a, b, hasRun) && CanRun(y, a) && CanRun(y, b) && y.s.afterUnlock == -1 && y.at[a] == Free
    requires y.s.locks == [Lock(true, [])] && y.inside == [{a}]
    ensures Follows(y, DoUnlock(0), z) && Pair(z, a, b, hasRun) && CanRun(z, a) && CanRun(z, b) && z.s.afterUnlock == 0
    ensures z.s.locks == [Lock(false, [])] && z.inside == [{}] && z.at == y.at
  {
    hide Tick, CanTick;
    PairActs(y, a, b, hasRun);
    assert a in y.inside[0];
    z := Step(y, DoUnlock(0));
    assert z.inside[0] == {};
  }

  lemma PairBlock(y: Sys, a: nat, b: nat, hasRun: nat) returns (z: Sys)
    requires Pair(y, a, b, hasRun) && y.at[a] == Failed(0, 0) && y.at[b] == Free && y.s.locks == [Lock(false, [])]
    ensures Follows(y, DoBlock(0), z) && z.s.levels == [[b], []] && z.s.locks == [Lock(false, [a])]
    ensures !NobodyStranded(z)
  {
    hide Tick, CanTick;
    PairActs(y, a, b, hasRun);
    z := Step(y, DoBlock(0));
    assert [] + [a] == [a] && z.s.locks[0] == Lock(false, [a]);
    assert z.s.levels[0] == [b] && z.s.levels[1] == [];
    assert forall u :: !Retrier(z, 0, u);
    assert z.s.locks[0].waiters != [];
  }

  /** Thread 1 finds the mutex LOCKED and is interrupted, thread 0 unlocks and wakes nobody, and then thread 1
      goes to sleep on a free mutex. */
  lemma LostWakeUp() returns (ys: seq<Sys>, acts: seq<Action>)
    ensures acts == [DoCreate, DoMutexInit, DoTest(0), DoTick, DoTest(0), DoTick, DoUnlock(0), DoTick, DoTick, DoBlock(0)]
    ensures IsRun(ys, acts, 2)
    ensures ys[10].s.levels == [[0], []] && ys[10].s.locks == [Lock(false, [1])] && !NobodyStranded(ys[10])
  {
    hide Follows, Pair, NobodyStranded, CanRun;
    acts := [DoCreate, DoMutexInit, DoTest(0), DoTick, DoTest(0), DoTick, DoUnlock(0), DoTick, DoTick, DoBlock(0)];
    var y1 := PairStart();
    var y2 := PairMutex(y1);
    var y3 := PairTest(y2, 0, 1, 0, {});
    var y4 := PairTick(y3, 0, 1, 0);
    var y5 := PairTest(y4, 1, 0, 1, {0});
    var y6 := PairTick(y5, 1, 0, 1);
    var y7 := PairUnlock(y6, 0, 1, 2);
    var y8 := PairTickAfterUnlock(y7, 0, 1);
    var y9 := PairTick(y8, 0, 1, 1);
    var y10 := PairBlock(y9, 1, 0, 2);
    ys := [Start(2), y1, y2, y3, y4, y5, y6, y7, y8, y9, y10];
  }

  // ----- a tick without end, a result overwritten

  lemma PairExit(y: Sys, a: nat, b: nat, hasRun: nat, v: int) returns (z: Sys)
    requires Pair(y, a, b, hasRun) && y.s.afterUnlock == -1 && y.at[a] == Free && a !in y.exited
    ensures Follows(y, DoExit(v), z) && Pair(z, a, b, hasRun) && z.s.afterUnlock == -1 && z.at == y.at
    ensures z.exited == y.exited[a := v] && z.returned == y.returned && (CanRun(y, b) ==> CanRun(z, b))
    ensures z.s.threads == y.s.threads[a := y.s.threads[a].(state := Terminated, ret := v)]
  {
    hide Tick, CanTick;
    PairActs(y, a, b, hasRun);
    z := Step(y, DoExit(v));
  }

  /** Both threads exit: the next tick looks for a thread to run for ever. */
  lemma TickWithoutEnd() returns (ys: seq<Sys>, acts: seq<Action>)
    ensures acts == [DoCreate, DoExit(5), DoTick, DoExit(6)] && IsRun(ys, acts, 2)
    ensures Allowed(ys[4], DoTick) && Coherent(ys[4].s) && CanDequeue(ys[4].s) && !Halts(ys[4].s) && !TickEnds(ys[4].s)
  {
    hide Follows, Tick, CanTick;
    acts := [DoCreate, DoExit(5), DoTick, DoExit(6)];
    var y1 := PairStart();
    var y2 := PairExit(y1, 0, 1, 0, 5);
    var y3 := PairTick(y2, 0, 1, 0);
    var y4 := PairExit(y3, 1, 0, 1, 6);
    ys := [Start(2), y1, y2, y3, y4];
    TickFaults(ys, acts, 2, 4);
  }

  /** Thread 1 exits with 7, its function returns 8, and a signal ends its pause: whoever joins it gets 8. */
  lemma ResultOverwritten() returns (ys: seq<Sys>, acts: seq<Action>)
    ensures acts == [DoCreate, DoTick, DoExit(7), DoReturn(8), DoResume] && IsRun(ys, acts, 2)
    ensures 1 in ys[5].exited && ys[5].exited[1] == 7 && Overwritten(ys[5], 1) && Outcome(ys[5].s, 1) == Some(8)
  {
    hide Tick, CanTick;
    acts := [DoCreate, DoTick, DoExit(7), DoReturn(8), DoResume];
    var y1 := PairStart();
    var y2 := PairTick(y1, 0, 1, 0);
    var y3 := PairExit(y2, 1, 0, 1, 7);
    PairActs(y3, 1, 0, 1);
    var y4 := Step(y3, DoReturn(8));
    PairActs(y4, 1, 0, 1);
    var y5 := Step(y4, DoResume);
    ys := [Start(2), y1, y2, y3, y4, y5];
  }
}
