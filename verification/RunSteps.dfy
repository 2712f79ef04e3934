/** Every step of a run keeps what Runs says of reachable states, call by call. */
module RunSteps {
  import opened SchedulerModel
  import opened Bags
  import opened Runs

  // ----- consequences of the queue invariant

  lemma PlacesOf(s: Sched, t: nat)
    requires 0 < |s.levels|
    requires forall l :: 0 < l < |s.levels| ==> s.levels[l] == []
    ensures multiset(s.levels[0]) + Bag(WaitQueues(s.locks)) <= Places(s)
    ensures InWaitQueue(s, t) ==> t in Bag(WaitQueues(s.locks))
  {
    BagUpdate(s.levels, 0, []);
    if InWaitQueue(s, t) {
      var m :| 0 <= m < |s.locks| && t in s.locks[m].waiters;
      BagUpdate(WaitQueues(s.locks), m, []);
      assert WaitQueues(s.locks)[m] == s.locks[m].waiters;
    }
  }

  lemma StandsTwice(qs: seq<seq<nat>>, m: nat, k: nat, t: nat)
    requires m < |qs| && k < |qs| && m != k && t in qs[m] && t in qs[k]
    ensures Bag(qs)[t] >= 2
  {
    BagPair(qs, m, k);
    assert multiset(qs[m])[t] >= 1 && multiset(qs[k])[t] >= 1;
    assert (multiset(qs[m]) + multiset(qs[k]))[t] >= 2;
  }

  /** A thread in a mutex's queue is in no level and in no other queue. */
  lemma OnePlace(s: Sched, t: nat)
    requires Queues(s)
    ensures InWaitQueue(s, t) ==> t !in s.levels[0]
    ensures forall m, k :: 0 <= m < |s.locks| && 0 <= k < |s.locks| && t in s.locks[m].waiters && t in s.locks[k].waiters ==> m == k
    ensures InWaitQueue(s, t) || t in s.levels[0] <==> t in s.threads
  {
    PlacesOf(s, t);
    assert Places(s)[t] <= 1;
    var wq := WaitQueues(s.locks);
    forall m, k | 0 <= m < |s.locks| && 0 <= k < |s.locks| && t in s.locks[m].waiters && t in s.locks[k].waiters
      ensures m == k
    {
      if m != k {
        assert wq[m] == s.locks[m].waiters && wq[k] == s.locks[k].waiters;
        StandsTwice(wq, m, k, t);
      }
    }
    if t in s.threads {
      assert t in Places(s);
      if t in Bag(s.levels) {
        var l := BagMember(s.levels, t);
      } else {
        var m := BagMember(wq, t);
        assert t in s.locks[m].waiters;
      }
    }
    if t in s.levels[0] {
      assert multiset(s.levels[0])[t] >= 1;
    }
  }

  lemma QueuesCoherent(s: Sched)
    requires Queues(s) && CurrentPlaced(s)
    ensures Coherent(s)
  {
  }

  // ----- the queues through each action

  lemma WaitQueuesUpdate(locks: seq<Lock>, m: nat, lock: Lock)
    requires m < |locks|
    ensures WaitQueues(locks[m := lock]) == WaitQueues(locks)[m := lock.waiters]
    ensures WaitQueues(locks)[m] == locks[m].waiters
  {
  }

  lemma HeadMoves(q: seq<nat>)
    requires q != []
    ensures multiset(q) == multiset([q[0]]) + multiset(q[1..])
    ensures forall t :: t in q <==> t == q[0] || t in q[1..]
  {
    assert q == [q[0]] + q[1..];
  }

  lemma AppendMember(q: seq<nat>, t: nat)
    ensures multiset(q + [t]) == multiset(q) + multiset([t])
    ensures forall u :: u in q + [t] <==> u in q || u == t
  {
  }

  /** The thread that is executing is at the head of the first level. */
  lemma ActingIsHead(y: Sys, t: nat)
    requires Queues(y.s) && CurrentPlaced(y.s) && Acting(y, t)
    ensures HeadOfFirst(y.s, t)
  {
  }

  ghost predicate HeadOfFirst(s: Sched, t: nat) {
    0 < |s.levels| && s.levels[0] != [] && s.levels[0][0] == t && s.current == Some(t) && Created(s, t)
  }

  lemma BagMove(a: seq<seq<nat>>, b: seq<seq<nat>>, i: nat, j: nat, p: seq<nat>, q: seq<nat>)
    requires i < |a| && j < |b|
    requires multiset(a[i]) + multiset(b[j]) == multiset(p) + multiset(q)
    ensures Bag(a[i := p]) + Bag(b[j := q]) == Bag(a) + Bag(b)
  {
    BagSplit(a, i, p);
    BagSplit(a, i, a[i]);
    BagSplit(b, j, q);
    BagSplit(b, j, b[j]);
    assert a[i := a[i]] == a && b[j := b[j]] == b;
    var x, y := Bag(a[i := []]), Bag(b[j := []]);
    assert (x + multiset(p)) + (y + multiset(q)) == (x + y) + (multiset(p) + multiset(q));
    assert (x + multiset(a[i])) + (y + multiset(b[j])) == (x + y) + (multiset(a[i]) + multiset(b[j]));
  }

  lemma TestQueues(s: Sched, m: nat)
    requires Queues(s) && CurrentPlaced(s) && m < |s.locks|
    ensures Queues(TestAndSet(s, m)) && CurrentPlaced(TestAndSet(s, m))
  {
    var s' := TestAndSet(s, m);
    assert WaitQueues(s'.locks) == WaitQueues(s.locks);
    assert Places(s') == Places(s);
    hide Places, WaitQueues;
    if s.current.Some? && InWaitQueue(s, s.current.value) {
      var k :| 0 <= k < |s.locks| && s.current.value in s.locks[k].waiters;
      assert s.current.value in s'.locks[k].waiters;
    }
  }

  lemma BlockPlaces(s: Sched, m: nat)
    requires 0 < |s.levels| && m < |s.locks| && s.levels[0] != []
    ensures Places(Block(s, m, 0)) == Places(s)
  {
    var s' := Block(s, m, 0);
    WaitQueuesUpdate(s.locks, m, s'.locks[m]);
    var wq := WaitQueues(s.locks);
    var q := s.levels[0];
    HeadMoves(q);
    AppendMember(wq[m], q[0]);
    BagMove(s.levels, wq, 0, m, q[1..], wq[m] + [q[0]]);
  }

  lemma BlockQueues(s: Sched, m: nat, t: nat)
    requires Queues(s) && m < |s.locks| && HeadOfFirst(s, t)
    ensures Queues(Block(s, m, 0)) && CurrentPlaced(Block(s, m, 0))
  {
    BlockPlaces(s, m);
    var s' := Block(s, m, 0);
    assert t in s'.locks[m].waiters;
  }

  lemma UnlockPlaces(s: Sched, m: nat)
    requires 0 < |s.levels| && m < |s.locks| && s.current.Some? && s.current.value in s.threads
    requires s.locks[m].waiters != [] ==> s.locks[m].waiters[0] in s.threads
    ensures Places(Unlock(s, m)) == Places(s)
  {
    var s' := Unlock(s, m);
    WaitQueuesUpdate(s.locks, m, s'.locks[m]);
    var wq := WaitQueues(s.locks);
    assert WaitQueues(s'.locks) == wq[m := s'.locks[m].waiters];
    var q, ws := s.levels[0], wq[m];
    if ws != [] {
      HeadMoves(ws);
      AppendMember(q, ws[0]);
      BagMove(s.levels, wq, 0, m, q + [ws[0]], ws[1..]);
    } else {
      BagMove(s.levels, wq, 0, m, q, ws);
      assert s.levels[0 := q] == s.levels;
    }
  }

  lemma FirstWaiterKnown(s: Sched, m: nat)
    requires Queues(s) && m < |s.locks| && s.locks[m].waiters != []
    ensures s.locks[m].waiters[0] in s.threads
  {
    var t := s.locks[m].waiters[0];
    assert t in s.locks[m].waiters;
    assert InWaitQueue(s, t);
    OnePlace(s, t);
  }

  lemma UnlockQueues(s: Sched, m: nat, t: nat)
    requires Queues(s) && m < |s.locks| && HeadOfFirst(s, t)
    requires s.locks[m].waiters != [] ==> s.locks[m].waiters[0] in s.threads
    ensures Queues(Unlock(s, m)) && CurrentPlaced(Unlock(s, m))
  {
    hide Conserved;
    UnlockConserved(s, m);
    UnlockCurrent(s, m, t);
    hide CurrentPlaced;
    if s.locks[m].waiters != [] { FirstWaiterKnown(s, m); }
  }

  lemma UnlockConserved(s: Sched, m: nat)
    requires Queues(s) && m < |s.locks| && s.current.Some? && s.current.value in s.threads
    requires s.locks[m].waiters != [] ==> s.locks[m].waiters[0] in s.threads
    ensures Conserved(Unlock(s, m))
  {
    UnlockPlaces(s, m);
    hide Places;
  }

  lemma UnlockCurrent(s: Sched, m: nat, t: nat)
    requires Queues(s) && m < |s.locks| && HeadOfFirst(s, t)
    requires s.locks[m].waiters != [] ==> s.locks[m].waiters[0] in s.threads
    ensures CurrentPlaced(Unlock(s, m))
  {
    hide Conserved;
  }

  lemma SameBagSameMembers(a: seq<nat>, b: seq<nat>)
    requires multiset(a) == multiset(b)
    ensures |a| == |b| && forall t :: t in a <==> t in b
  {
    assert |a| == |multiset(a)| && |b| == |multiset(b)|;
    forall t ensures t in a <==> t in b {
      CountIsMember(a, t);
      CountIsMember(b, t);
    }
  }

  lemma RotatedQueues(s: Sched, s': Sched)
    requires Queues(s) && OnlyRotated(s, s') && 0 <= s'.hasRun && (s'.afterUnlock == -1 || s'.afterUnlock == 0)
    ensures Queues(s')
    ensures forall l, t :: 0 <= l < |s.levels| ==> (t in s.levels[l] <==> t in s'.levels[l])
    ensures forall l :: 0 <= l < |s.levels| ==> (s.levels[l] == [] <==> s'.levels[l] == [])
  {
    BagSame(s.levels, s'.levels);
    assert Places(s') == Places(s);
    forall l | 0 <= l < |s.levels|
      ensures |s.levels[l]| == |s'.levels[l]| && forall t :: t in s.levels[l] <==> t in s'.levels[l]
    {
      SameBagSameMembers(s.levels[l], s'.levels[l]);
    }
  }

  lemma TickQueues(s: Sched)
    requires Queues(s) && CurrentPlaced(s) && CanTick(s)
    ensures OnlyRotated(s, Tick(s)) && Queues(Tick(s)) && CurrentPlaced(Tick(s))
    ensures forall l, t :: 0 <= l < |s.levels| ==> (t in s.levels[l] <==> t in Tick(s).levels[l])
    ensures Tick(s).current.Some? ==> LiveIn(s.threads, Tick(s).current.value) && RunsHeadOf(Tick(s), 0)
  {
    var s' := Tick(s);
    var l := if s.afterUnlock != -1 then AfterUnlockTarget(s) else TargetLevel(s);
    assert OnlyRotated(s, s') && 0 <= s'.hasRun && (s'.current.Some? ==> RunsHeadOf(s', l) && LiveIn(s.threads, s'.current.value))
           && (s'.current.None? ==> forall k :: 0 <= k < |s.levels| ==> s.levels[k] == [])
           && (s'.afterUnlock == -1 || s'.afterUnlock == s.afterUnlock)
    by {
      if s.afterUnlock != -1 { YieldAfterUnlockFrame(s); } else { YieldFrame(s); }
    }
    RotatedQueues(s, s');
    if s'.current.Some? {
      assert s'.current.value in s'.threads;
    }
  }

  lemma CreateQueues(s: Sched)
    requires Queues(s) && CurrentPlaced(s) && (s.lastTid == 0 || s.current.Some?)
    ensures Queues(Create(s)) && CurrentPlaced(Create(s))
  {
    hide Conserved, CurrentPlaced, Created;
    CreateConserved(s);
    CreateCurrent(s);
    CreateTcbs(s);
  }

  lemma CreateTcbs(s: Sched)
    requires Queues(s)
    ensures forall t :: t in Create(s).threads <==> Created(Create(s), t)
    ensures forall t :: t in Create(s).threads ==> Create(s).threads[t].priority == 0
  {
    hide Conserved;
  }

  lemma CreateConserved(s: Sched)
    requires Queues(s) && CurrentPlaced(s) && (s.lastTid == 0 || s.current.Some?)
    ensures Conserved(Create(s))
  {
    CreatePlaces(s);
    OneMorePlace(s, Create(s));
  }

  lemma OneMorePlace(s: Sched, s': Sched)
    requires Conserved(s) && s'.lastTid == s.lastTid + 1
    requires Places(s') == Places(s) + if s.lastTid == 0 then multiset{0, 1} else multiset{s'.lastTid}
    ensures Conserved(s')
  {
    hide Places;
    forall t: nat ensures Places(s')[t] == if Created(s', t) then 1 else 0 {
      assert Places(s)[t] == if Created(s, t) then 1 else 0;
    }
  }

  lemma CreatePlaces(s: Sched)
    requires 0 < |s.levels|
    ensures Places(Create(s)) == Places(s) + if s.lastTid == 0 then multiset{0, 1} else multiset{s.lastTid + 1}
  {
    var more := if s.lastTid == 0 then [0, 1] else [s.lastTid + 1];
    assert s.levels[0] + [0] + [1] == s.levels[0] + [0, 1];
    assert Create(s).levels == s.levels[0 := s.levels[0] + more];
    LevelGrows(s.levels, more);
    assert multiset(more) == if s.lastTid == 0 then multiset{0, 1} else multiset{s.lastTid + 1};
  }

  lemma LevelGrows(levels: seq<seq<nat>>, more: seq<nat>)
    requires 0 < |levels|
    ensures Bag(levels[0 := levels[0] + more]) == Bag(levels) + multiset(more)
  {
    BagSplit(levels, 0, levels[0] + more);
    BagSplit(levels, 0, levels[0]);
    assert levels[0 := levels[0]] == levels;
    assert multiset(levels[0] + more) == multiset(levels[0]) + multiset(more);
  }

  lemma CreateCurrent(s: Sched)
    requires Queues(s) && CurrentPlaced(s) && (s.lastTid == 0 || s.current.Some?)
    ensures CurrentPlaced(Create(s))
  {
  }

  /** A state before the first create. */
  lemma NobodyYet(s: Sched)
    requires Queues(s) && CurrentPlaced(s) && s.lastTid == 0
    ensures s.threads == map[] && s.current.None? && s.levels[0] == []
  {
  }

  // ----- the rest of the invariant through each action

  ghost predicate OneHolder(locked: bool, inside: set<nat>) {
    if locked then exists t :: inside == {t} else inside == {}
  }

  lemma TestExclusive(y: Sys, m: nat, t: nat)
    requires Exclusive(y) && m < |y.s.locks| && t in y.s.threads && t in y.at
    ensures Exclusive(TestStep(y, m, t))
  {
    var y' := TestStep(y, m, t);
    forall k | 0 <= k < |y'.inside| ensures OneHolder(y'.s.locks[k].locked, y'.inside[k]) {
      assert OneHolder(y.s.locks[k].locked, y.inside[k]);
    }
  }

  lemma TestAgree(y: Sys, m: nat, t: nat)
    requires PlacesAgree(y) && m < |y.s.locks| && m < |y.inside| && t in y.s.threads && t in y.at
    requires y.s.threads[t].priority == 0 && !InWaitQueue(y.s, t)
    ensures PlacesAgree(TestStep(y, m, t))
  {
    var y' := TestStep(y, m, t);
    forall k, u | 0 <= k < |y'.s.locks| && u in y'.s.locks[k].waiters
      ensures u in y'.at && y'.at[u] == Retry(k, 0)
    {
      assert u in y.s.locks[k].waiters && u != t;
    }
  }

  lemma TestResults(y: Sys, m: nat, t: nat)
    requires ResultsPublished(y) && m < |y.s.locks| && m < |y.inside| && t in y.s.threads
    requires t in y.at && (y.at[t] == Free || y.at[t].Retry?)
    ensures ResultsPublished(TestStep(y, m, t))
  {
    var y' := TestStep(y, m, t);
    forall u: nat ensures ResultRight(y', u) { assert ResultRight(y, u); }
  }

  /** A test-and-set strands nobody, whoever barges in: the mutex is LOCKED afterwards. */
  lemma TestStrandsNobody(y: Sys, m: nat, t: nat)
    requires NobodyStranded(y) && m < |y.s.locks| && m < |y.inside| && t in y.s.threads
    requires t in y.at && (y.at[t].Retry? ==> y.at[t].lock == m)
    ensures NobodyStranded(TestStep(y, m, t))
  {
    var y' := TestStep(y, m, t);
    forall k | 0 <= k < |y'.s.locks| && y'.s.locks[k].waiters != []
      ensures y'.s.locks[k].locked || exists u :: Retrier(y', k, u)
    {
      if k != m && !y'.s.locks[k].locked {
        var u :| Retrier(y, k, u);
        assert Retrier(y', k, u);
      }
    }
  }

  lemma TestKeeps(y: Sys, m: nat)
    requires Inv(y) && Allowed(y, DoTest(m)) && 0 < y.s.lastTid
    ensures Safe(y, DoTest(m)) && Inv(Step(y, DoTest(m)))
    ensures NobodyStranded(y) ==> NobodyStranded(Step(y, DoTest(m)))
  {
    var t := y.s.current.value;
    TestQueues(y.s, m);
    TestExclusive(y, m, t);
    TestAgree(y, m, t);
    TestResults(y, m, t);
    if NobodyStranded(y) { TestStrandsNobody(y, m, t); }
  }

  /** Thread `t` is executing and has still to move to the queue of mutex `m`. */
  ghost predicate Blocking(y: Sys, m: nat, t: nat) {
    Acting(y, t) && m < |y.s.locks| && y.at[t] == Failed(m, 0)
  }

  lemma BlockExclusive(y: Sys, m: nat, t: nat)
    requires Exclusive(y) && m < |y.s.locks| && HeadOfFirst(y.s, t)
    ensures Exclusive(BlockStep(y, m, t, 0))
  {
    var y' := BlockStep(y, m, t, 0);
    forall k | 0 <= k < |y'.inside| ensures OneHolder(y'.s.locks[k].locked, y'.inside[k]) {
      assert OneHolder(y.s.locks[k].locked, y.inside[k]);
    }
  }

  lemma BlockAgree(y: Sys, m: nat, t: nat)
    requires PlacesAgree(y) && Blocking(y, m, t) && HeadOfFirst(y.s, t)
    ensures PlacesAgree(BlockStep(y, m, t, 0))
  {
    var y' := BlockStep(y, m, t, 0);
    AppendMember(y.s.locks[m].waiters, t);
    forall k, u | 0 <= k < |y'.s.locks| && u in y'.s.locks[k].waiters
      ensures u in y'.at && y'.at[u] == Retry(k, 0)
    {
      if u in y.s.locks[k].waiters {
        assert u != t;
      }
    }
  }

  lemma BlockResults(y: Sys, m: nat, t: nat)
    requires ResultsPublished(y) && Blocking(y, m, t) && HeadOfFirst(y.s, t)
    ensures ResultsPublished(BlockStep(y, m, t, 0))
  {
    var y' := BlockStep(y, m, t, 0);
    forall u: nat ensures ResultRight(y', u) { assert ResultRight(y, u); }
  }

  /** A scheduled thread stands in the first level once, and then in no mutex's queue. */
  lemma HeadOnce(s: Sched)
    requires Queues(s) && s.levels[0] != []
    ensures s.levels[0][0] !in s.levels[0][1..] && !InWaitQueue(s, s.levels[0][0])
  {
    PlacesOf(s, s.levels[0][0]);
    HeadMoves(s.levels[0]);
    assert Places(s)[s.levels[0][0]] <= 1;
  }

  /** The woken threads afterwards are those of before. */
  lemma OthersRetry(y: Sys, m: nat, t: nat, k: nat, u: nat)
    requires Queues(y.s) && Blocking(y, m, t) && HeadOfFirst(y.s, t)
    ensures Retrier(BlockStep(y, m, t, 0), k, u) <==> Retrier(y, k, u)
  {
    var y' := BlockStep(y, m, t, 0);
    HeadMoves(y.s.levels[0]);
    HeadOnce(y.s);
    assert forall l :: 0 <= l < |y.s.levels| ==> (u in y'.s.levels[l] <==> u in y.s.levels[l] && u != t);
  }

  /** A move to the wait queue strands nobody exactly when it comes in time. */
  lemma BlockStrandsExactly(y: Sys, m: nat, t: nat)
    requires Queues(y.s) && Blocking(y, m, t) && HeadOfFirst(y.s, t) && NobodyStranded(y)
    ensures NobodyStranded(BlockStep(y, m, t, 0)) <==> InTime(y, DoBlock(m))
  {
    var y' := BlockStep(y, m, t, 0);
    forall k: nat, u | k < |y.s.locks| ensures Retrier(y', k, u) <==> Retrier(y, k, u) { OthersRetry(y, m, t, k, u); }
    assert y'.s.locks[m].waiters != [];
    if InTime(y, DoBlock(m)) {
      forall k | 0 <= k < |y'.s.locks| && y'.s.locks[k].waiters != []
        ensures y'.s.locks[k].locked || exists u :: Retrier(y', k, u)
      {
        if k != m && !y.s.locks[k].locked {
          assert y'.s.locks[k] == y.s.locks[k];
          var u :| Retrier(y, k, u);
          assert Retrier(y', k, u);
        }
      }
    }
  }

  lemma BlockKeeps(y: Sys, m: nat)
    requires Inv(y) && Allowed(y, DoBlock(m))
    ensures Safe(y, DoBlock(m)) && Inv(Step(y, DoBlock(m)))
    ensures NobodyStranded(y) ==> (NobodyStranded(Step(y, DoBlock(m))) <==> InTime(y, DoBlock(m)))
  {
    var t := y.s.current.value;
    ActingIsHead(y, t);
    BlockQueues(y.s, m, t);
    BlockExclusive(y, m, t);
    BlockAgree(y, m, t);
    BlockResults(y, m, t);
    if NobodyStranded(y) { BlockStrandsExactly(y, m, t); }
  }

  ghost predicate UnlockReady(y: Sys, m: nat, t: nat) {
    && m < |y.s.locks| && m < |y.inside| && t in y.s.threads && HeadOfFirst(y.s, t)
    && (y.s.locks[m].waiters != [] ==> y.s.locks[m].waiters[0] in y.s.threads)
  }

  lemma UnlockExclusive(y: Sys, m: nat, t: nat)
    requires Exclusive(y) && UnlockReady(y, m, t) && t in y.inside[m]
    ensures Exclusive(UnlockStep(y, m, t))
  {
  }

  lemma UnlockAgree(y: Sys, m: nat, t: nat)
    requires PlacesAgree(y) && UnlockReady(y, m, t)
    ensures PlacesAgree(UnlockStep(y, m, t))
  {
  }

  lemma UnlockResults(y: Sys, m: nat, t: nat)
    requires ResultsPublished(y) && UnlockReady(y, m, t)
    ensures ResultsPublished(UnlockStep(y, m, t))
  {
    var y' := UnlockStep(y, m, t);
    forall u: nat ensures ResultRight(y', u) { assert ResultRight(y, u); }
  }

  /** An unlock that leaves waiters behind has just woken one of them. */
  lemma UnlockStrandsNobody(y: Sys, m: nat, t: nat)
    requires NobodyStranded(y) && PlacesAgree(y) && UnlockReady(y, m, t)
    ensures NobodyStranded(UnlockStep(y, m, t))
  {
    var y' := UnlockStep(y, m, t);
    var ws := y.s.locks[m].waiters;
    if ws != [] {
      assert ws[0] in ws;
      AppendMember(y.s.levels[0], ws[0]);
    }
    forall k | 0 <= k < |y'.s.locks| && y'.s.locks[k].waiters != []
      ensures y'.s.locks[k].locked || exists u :: Retrier(y', k, u)
    {
      if k == m {
        assert ws[0] in y'.s.levels[0];
        assert Retrier(y', m, ws[0]);
      } else if !y'.s.locks[k].locked {
        assert y'.s.locks[k] == y.s.locks[k];
        var u :| Retrier(y, k, u);
        var l :| 0 <= l < |y.s.levels| && u in y.s.levels[l];
        assert u in y'.s.levels[l];
        assert Retrier(y', k, u);
      }
    }
  }

  lemma UnlockKeeps(y: Sys, m: nat)
    requires Inv(y) && Allowed(y, DoUnlock(m))
    ensures Safe(y, DoUnlock(m)) && Inv(Step(y, DoUnlock(m)))
    ensures NobodyStranded(y) ==> NobodyStranded(Step(y, DoUnlock(m)))
  {
    var t := y.s.current.value;
    ActingIsHead(y, t);
    if y.s.locks[m].waiters != [] { FirstWaiterKnown(y.s, m); }
    UnlockQueues(y.s, m, t);
    UnlockExclusive(y, m, t);
    UnlockAgree(y, m, t);
    UnlockResults(y, m, t);
    if NobodyStranded(y) { UnlockStrandsNobody(y, m, t); }
  }

  /** The rest of the invariant looks at the queues' members, the mutexes, and who has ended with what. */
  ghost predicate Similar(y: Sys, y': Sys) {
    && y'.s.locks == y.s.locks && y'.inside == y.inside
    && |y'.s.levels| == |y.s.levels|
    && (forall l, t :: 0 <= l < |y.s.levels| && t in y.s.levels[l] ==> t in y'.s.levels[l])
    && (forall t :: t in y.at && y.at[t].Retry? ==> t in y'.at && y'.at[t] == y.at[t])
  }

  lemma SimilarStrandsNobody(y: Sys, y': Sys)
    requires NobodyStranded(y) && Similar(y, y')
    ensures NobodyStranded(y')
  {
    forall k | 0 <= k < |y'.s.locks| && y'.s.locks[k].waiters != []
      ensures y'.s.locks[k].locked || exists u :: Retrier(y', k, u)
    {
      if !y'.s.locks[k].locked {
        var u :| Retrier(y, k, u);
        assert Retrier(y', k, u);
      }
    }
  }

  lemma SimilarExclusive(y: Sys, y': Sys)
    requires Exclusive(y) && y'.s.locks == y.s.locks && y'.inside == y.inside
    requires y.s.threads.Keys <= y'.s.threads.Keys
    ensures Exclusive(y')
  {
  }

  lemma TickKeeps(y: Sys)
    requires Inv(y) && CanTick(y.s)
    ensures Inv(y.(s := Tick(y.s)))
    ensures NobodyStranded(y) ==> NobodyStranded(y.(s := Tick(y.s)))
  {
    TickQueues(y.s);
    var s' := Tick(y.s);
    RotatedRest(y, s');
  }

  lemma RotatedRest(y: Sys, s': Sched)
    requires Exclusive(y) && PlacesAgree(y) && ResultsPublished(y)
    requires OnlyRotated(y.s, s')
    requires forall l, t :: 0 <= l < |y.s.levels| ==> (t in y.s.levels[l] <==> t in s'.levels[l])
    ensures var y' := y.(s := s'); Exclusive(y') && PlacesAgree(y') && ResultsPublished(y') && (NobodyStranded(y) ==> NobodyStranded(y'))
  {
    var y' := y.(s := s');
    if NobodyStranded(y) { SimilarStrandsNobody(y, y'); }
    SimilarExclusive(y, y');
    RotatedAgrees(y, s');
    RotatedResults(y, s');
  }

  lemma RotatedAgrees(y: Sys, s': Sched)
    requires PlacesAgree(y) && SameThreads(y.s.threads, s'.threads) && s'.locks == y.s.locks
    ensures PlacesAgree(y.(s := s'))
  {
  }

  lemma RotatedResults(y: Sys, s': Sched)
    requires ResultsPublished(y) && SameThreads(y.s.threads, s'.threads)
    ensures ResultsPublished(y.(s := s'))
  {
    forall u: nat ensures ResultRight(y.(s := s'), u) { assert ResultRight(y, u); }
  }

  /** Writing a result and ending touch one tcb only. */
  lemma PublishQueues(s: Sched, s': Sched, t: nat)
    requires Queues(s) && CurrentPlaced(s) && t in s.threads && t in s'.threads
    requires s' == s.(threads := s.threads[t := s'.threads[t]]) && s'.threads[t].priority == s.threads[t].priority
    ensures Queues(s') && CurrentPlaced(s')
  {
  }

  lemma ExitKeeps(y: Sys, t: nat, v: int)
    requires Inv(y) && ActingFree(y, t) && t !in y.exited
    ensures Inv(ExitStep(y, t, v))
    ensures NobodyStranded(y) ==> NobodyStranded(ExitStep(y, t, v))
  {
    var y' := ExitStep(y, t, v);
    PublishQueues(y.s, y'.s, t);
    if NobodyStranded(y) { SimilarStrandsNobody(y, y'); }
    SimilarExclusive(y, y');
    EndingAgrees(y, y', t);
    ExitResults(y, t, v);
  }

  lemma ExitResults(y: Sys, t: nat, v: int)
    requires ResultsPublished(y) && ActingFree(y, t) && t !in y.exited
    ensures ResultsPublished(ExitStep(y, t, v))
  {
    var y' := ExitStep(y, t, v);
    forall u: nat ensures ResultRight(y', u) { assert ResultRight(y, u); }
  }

  /** Thread `t` has ended, with everything else as it was. */
  lemma EndingAgrees(y: Sys, y': Sys, t: nat)
    requires PlacesAgree(y) && t in y.s.threads && !InLoop(y.at[t])
    requires y'.s.locks == y.s.locks && y'.lateLock == y.lateLock
    requires t in y'.s.threads && y'.s.threads == y.s.threads[t := y'.s.threads[t]]
    requires t in y'.at && y'.at == y.at[t := y'.at[t]] && !InLoop(y'.at[t])
    requires !InWaitQueue(y.s, t)
    ensures PlacesAgree(y')
  {
    assert y'.s.threads.Keys == y.s.threads.Keys;
    assert forall m :: 0 <= m < |y.s.locks| ==> t !in y.s.locks[m].waiters;
  }

  lemma ReturnKeeps(y: Sys, t: nat, v: int)
    requires Inv(y) && ActingFree(y, t)
    ensures Inv(ReturnStep(y, t, v))
    ensures NobodyStranded(y) ==> NobodyStranded(ReturnStep(y, t, v))
  {
    var y' := ReturnStep(y, t, v);
    assert y.s.threads[t].state == Terminated ==> y.s.threads == y.s.threads[t := y.s.threads[t]];
    PublishQueues(y.s, y'.s, t);
    if NobodyStranded(y) { SimilarStrandsNobody(y, y'); }
    SimilarExclusive(y, y');
    EndingAgrees(y, y', t);
    ReturnResults(y, t, v);
  }

  lemma ReturnResults(y: Sys, t: nat, v: int)
    requires y.at.Keys == y.s.threads.Keys && ResultsPublished(y) && ActingFree(y, t)
    ensures ResultsPublished(ReturnStep(y, t, v))
  {
    var y' := ReturnStep(y, t, v);
    forall u: nat ensures ResultRight(y', u) { assert ResultRight(y, u); }
  }

  lemma ResumeKeeps(y: Sys, t: nat)
    requires Inv(y) && Acting(y, t) && y.at[t] == Pausing
    ensures t in y.returned && Inv(ResumeStep(y, t))
    ensures NobodyStranded(y) ==> NobodyStranded(ResumeStep(y, t))
  {
    assert ResultRight(y, t);
    var y' := ResumeStep(y, t);
    PublishQueues(y.s, y'.s, t);
    if NobodyStranded(y) { SimilarStrandsNobody(y, y'); }
    SimilarExclusive(y, y');
    EndingAgrees(y, y', t);
    ResumeResults(y, t);
  }

  lemma ResumeResults(y: Sys, t: nat)
    requires y.at.Keys == y.s.threads.Keys && ResultsPublished(y) && Acting(y, t) && y.at[t] == Pausing
    ensures t in y.returned && ResultsPublished(ResumeStep(y, t))
  {
    assert ResultRight(y, t);
    var y' := ResumeStep(y, t);
    forall u: nat ensures ResultRight(y', u) { assert ResultRight(y, u); }
  }

  lemma MutexInitQueues(s: Sched)
    requires Queues(s) && CurrentPlaced(s)
    ensures Queues(MutexInit(s)) && CurrentPlaced(MutexInit(s))
  {
    MutexInitPlaces(s);
    var s' := MutexInit(s);
    if s.current.Some? && InWaitQueue(s, s.current.value) {
      var m :| 0 <= m < |s.locks| && s.current.value in s.locks[m].waiters;
      assert s'.locks[m] == s.locks[m];
    }
  }

  lemma MutexInitPlaces(s: Sched)
    ensures Places(MutexInit(s)) == Places(s)
  {
    assert WaitQueues(MutexInit(s).locks) == WaitQueues(s.locks) + [[]];
    BagAppend(WaitQueues(s.locks), []);
  }

  lemma MutexInitKeeps(y: Sys)
    requires Inv(y)
    ensures Inv(y.(s := MutexInit(y.s), inside := y.inside + [{}]))
    ensures NobodyStranded(y) ==> NobodyStranded(y.(s := MutexInit(y.s), inside := y.inside + [{}]))
  {
    MutexInitQueues(y.s);
    MutexInitRest(y);
  }

  lemma MutexInitRest(y: Sys)
    requires Exclusive(y) && PlacesAgree(y) && ResultsPublished(y)
    ensures var y' := y.(s := MutexInit(y.s), inside := y.inside + [{}]);
            Exclusive(y') && PlacesAgree(y') && ResultsPublished(y') && (NobodyStranded(y) ==> NobodyStranded(y'))
  {
    hide PlacesAgree, ResultRight, NobodyStranded;
    var y' := y.(s := MutexInit(y.s), inside := y.inside + [{}]);
    MutexInitAgrees(y);
    if NobodyStranded(y) { MutexInitStrandsNobody(y); }
    forall u: nat ensures ResultRight(y', u) { SameResult(y, y', u); }
    forall k | 0 <= k < |y'.inside| ensures OneHolder(y'.s.locks[k].locked, y'.inside[k]) {
      if k < |y.inside| { assert OneHolder(y.s.locks[k].locked, y.inside[k]); }
    }
  }

  lemma SameResult(y: Sys, y': Sys, t: nat)
    requires ResultsPublished(y) && y'.s.threads == y.s.threads
    requires y'.at == y.at && y'.exited == y.exited && y'.returned == y.returned
    ensures ResultRight(y', t)
  {
    assert ResultRight(y, t);
  }

  lemma MutexInitAgrees(y: Sys)
    requires PlacesAgree(y)
    ensures PlacesAgree(y.(s := MutexInit(y.s), inside := y.inside + [{}]))
  {
  }

  lemma MutexInitStrandsNobody(y: Sys)
    requires NobodyStranded(y)
    ensures NobodyStranded(y.(s := MutexInit(y.s), inside := y.inside + [{}]))
  {
    var y' := y.(s := MutexInit(y.s), inside := y.inside + [{}]);
    forall k | 0 <= k < |y'.s.locks| && y'.s.locks[k].waiters != []
      ensures y'.s.locks[k].locked || exists u :: Retrier(y', k, u)
    {
      assert y'.s.locks[k] == y.s.locks[k];
      if !y'.s.locks[k].locked {
        var u :| Retrier(y, k, u);
        assert Retrier(y', k, u);
      }
    }
  }

  lemma CreateKeeps(y: Sys)
    requires Inv(y) && (y.s.lastTid == 0 || y.s.current.Some?)
    ensures 0 < |y.s.levels|
    ensures Inv(CreateStep(y))
    ensures NobodyStranded(y) ==> NobodyStranded(CreateStep(y))
  {
    CreateQueues(y.s);
    if y.s.lastTid == 0 { NobodyYet(y.s); }
    var y' := CreateStep(y);
    CreateTables(y);
    CreateResults(y);
    CreateSimilar(y);
    if NobodyStranded(y) { SimilarStrandsNobody(y, y'); }
    SimilarExclusive(y, y');
  }

  lemma CreateTables(y: Sys)
    requires PlacesAgree(y) && 0 < |y.s.levels| && (forall t :: t in y.s.threads <==> Created(y.s, t))
    ensures PlacesAgree(CreateStep(y))
  {
    var y' := CreateStep(y);
    assert y'.s.locks == y.s.locks;
    assert forall t :: t in y.s.threads ==> t in y'.s.threads && y'.s.threads[t] == y.s.threads[t] && y'.at[t] == y.at[t];
    assert y'.s.threads.Keys == y'.at.Keys;
  }

  lemma CreateResults(y: Sys)
    requires ResultsPublished(y) && y.at.Keys == y.s.threads.Keys
    requires 0 < |y.s.levels| && (forall t :: t in y.s.threads <==> Created(y.s, t))
    ensures ResultsPublished(CreateStep(y))
  {
    var y' := CreateStep(y);
    forall u: nat ensures ResultRight(y', u) { assert ResultRight(y, u); }
  }

  lemma CreateSimilar(y: Sys)
    requires y.at.Keys == y.s.threads.Keys && 0 < |y.s.levels| && (forall t :: t in y.s.threads <==> Created(y.s, t))
    ensures Similar(y, CreateStep(y))
  {
  }

  ghost predicate NeedsTcb(a: Action) {
    a.DoTest? || a.DoExit?
  }

  /** Every allowed call is safe (no level is dequeued empty, no wrong thread is queued), except lock and exit
      before the first create; every safe step keeps the invariant, and strands nobody exactly when it comes
      in time. */
  lemma StepKeeps(y: Sys, a: Action)
    requires Inv(y) && Allowed(y, a)
    ensures !a.DoTick? ==> (Safe(y, a) <==> (NeedsTcb(a) ==> 0 < y.s.lastTid))
    ensures Safe(y, a) ==> Inv(Step(y, a))
    ensures Safe(y, a) && NobodyStranded(y) ==> (NobodyStranded(Step(y, a)) <==> InTime(y, a))
  {
    hide Inv, NobodyStranded, Queues, CurrentPlaced;
    if NeedsTcb(a) && y.s.lastTid == 0 {
      NobodyCurrent(y);
    } else {
      match a
      case DoCreate => CreateKeeps(y);
      case DoMutexInit => MutexInitKeeps(y);
      case DoTest(m) => TestKeeps(y, m);
      case DoBlock(m) => BlockKeeps(y, m);
      case DoUnlock(m) => UnlockKeeps(y, m);
      case DoExit(v) => ExitKeeps(y, y.s.current.value, v);
      case DoReturn(v) => ReturnKeeps(y, y.s.current.value, v);
      case DoResume => ResumeKeeps(y, y.s.current.value);
      case DoTick => if CanTick(y.s) { TickKeeps(y); }
    }
  }

  lemma NobodyCurrent(y: Sys)
    requires Inv(y) && y.s.lastTid == 0
    ensures y.s.current.None?
  {
    NobodyYet(y.s);
  }

  /** When a tick is safe: some thread in the first level has not ended, or a tick after an unlock finds the
      first level empty and runs nobody. In particular after a deadlock no second tick is. */
  lemma TickSafeExactly(s: Sched)
    requires Queues(s) && CurrentPlaced(s)
    ensures CanTick(s) <==>
              && s.current.Some?
              && ((exists t :: t in s.levels[0] && LiveIn(s.threads, t)) || (s.afterUnlock != -1 && s.levels[0] == []))
  {
    QueuesCoherent(s);
    assert FoundAt(s.levels, 0, 0, |s.levels|);
    NextLevelIsFirst(s.levels, 0, 0);
    assert HoldsLive(s, 0) <==> exists t :: t in s.levels[0] && LiveIn(s.threads, t);
  }
}
