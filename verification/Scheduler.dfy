/** The scheduler of my_pthread.c over its linked queues. The ghost field `abs` is the state these
    structures stand for; every method is proved to take it to the state that SchedulerModel computes.
    Time stamps, contexts and signal masks are not part of this model. */
module Scheduler {
  import opened SchedulerModel
  import opened Queues
  import opened Removal

  class Mutex {
    var locked: bool
    const waitQueue: Queue

    constructor ()
      ensures !locked && fresh(waitQueue) && waitQueue.Valid() && waitQueue.nodes == []
    {
      locked := false;
      waitQueue := new Queue();
    }
  }

  // ----- queues of tcbs as queues of tids

  /** These queues over the known threads stand for `ids`. */
  ghost predicate Represents(qs: seq<Queue>, all: set<Tcb>, ids: seq<seq<nat>>)
    reads qs, all`next
  {
    Family(qs, all) && Ids(NodeLists(qs)) == ids
  }

  ghost predicate Nowhere(qs: seq<Queue>, t: Tcb)
    reads qs
  {
    forall l :: 0 <= l < |qs| ==> t !in NodeLists(qs)[l]
  }

  lemma IdsPush(lists: seq<seq<Tcb>>, k: nat, t: Tcb)
    requires k < |lists|
    ensures Ids(Apply(lists, Push(k, t))) == Ids(lists)[k := Ids(lists)[k] + [t.tid]]
  {
    assert Tids(lists[k] + [t]) == Tids(lists[k]) + [t.tid];
  }

  lemma IdsPop(lists: seq<seq<Tcb>>, k: nat)
    requires k < |lists| && lists[k] != []
    ensures Ids(Apply(lists, Pop(k))) == Ids(lists)[k := Ids(lists)[k][1..]]
  {
    assert Tids(lists[k])[1..] == Tids(lists[k][1..]);
  }

  method PushThread(q: Queue, t: Tcb, ghost qs: seq<Queue>, ghost k: nat, ghost all: set<Tcb>, ghost ids: seq<seq<nat>>)
    requires k < |qs| && qs[k] == q && Represents(qs, all, ids) && t in all && Nowhere(qs, t)
    modifies qs, all`next
    ensures Represents(qs, all, ids[k := ids[k] + [t.tid]])
  {
    IdsPush(NodeLists(qs), k, t);
    PushTo(q, qs, k, t, all);
  }

  method PopThread(q: Queue, ghost qs: seq<Queue>, ghost k: nat, ghost all: set<Tcb>, ghost ids: seq<seq<nat>>) returns (t: Tcb?)
    requires k < |qs| && qs[k] == q && Represents(qs, all, ids)
    modifies qs, all`next
    ensures t == null <==> ids[k] == []
    ensures t == null ==> Represents(qs, all, ids)
    ensures t != null ==> t.tid == ids[k][0] && t in all && Nowhere(qs, t) && Represents(qs, all, ids[k := ids[k][1..]])
  {
    ghost var lists := NodeLists(qs);
    if lists[k] != [] {
      IdsPop(lists, k);
      HeadLeaves(lists, k);
      assert lists[k][0] in qs[k].nodes;
    } else {
      assert Apply(lists, Pop(k)) == lists;
    }
    t := PopFrom(q, qs, k, all);
  }

  lemma HeadLeaves(lists: seq<seq<Tcb>>, k: nat)
    requires k < |lists| && lists[k] != [] && Disjoint(lists) && DistinctNodes(lists[k])
    ensures forall l :: 0 <= l < |lists| ==> lists[k][0] !in Apply(lists, Pop(k))[l]
  {
  }

  lemma RepresentsMore(qs: seq<Queue>, all: set<Tcb>, more: set<Tcb>, ids: seq<seq<nat>>)
    requires Represents(qs, all, ids) && all <= more
    ensures Represents(qs, more, ids)
  {
  }

  lemma RepresentsNowhere(qs: seq<Queue>, all: set<Tcb>, ids: seq<seq<nat>>, t: Tcb)
    requires Represents(qs, all, ids) && t !in all
    ensures Nowhere(qs, t)
  {
  }

  lemma RepresentsAppend(qs: seq<Queue>, all: set<Tcb>, ids: seq<seq<nat>>, q: Queue)
    requires Represents(qs, all, ids) && q !in qs && q.Valid() && q.nodes == []
    ensures Represents(qs + [q], all, ids + [[]])
  {
  }

  // ----- tcbs as records

  ghost predicate ThreadsAre(threads: map<nat, Tcb>, recs: map<nat, Thread>)
    reads threads.Values`state, threads.Values`priority, threads.Values`returnValue
  {
    && recs.Keys == threads.Keys
    && forall t :: t in threads ==>
                     && threads[t].tid == t
                     && recs[t] == Thread(threads[t].state, threads[t].priority, threads[t].returnValue)
  }

  ghost predicate LocksAre(mutexes: seq<Mutex>, locks: seq<Lock>)
    reads mutexes
  {
    && |mutexes| == |locks|
    && (forall m, k :: 0 <= m < k < |mutexes| ==> mutexes[m] != mutexes[k])
    && (forall m :: 0 <= m < |mutexes| ==> mutexes[m].locked == locks[m].locked)
  }

  /** Every queue's contents: the levels, then the mutexes' wait queues. */
  ghost function QueueIds(s: Sched): (ids: seq<seq<nat>>)
    ensures |ids| == |s.levels| + |s.locks|
    ensures forall l :: 0 <= l < |s.levels| ==> ids[l] == s.levels[l]
    ensures forall m :: 0 <= m < |s.locks| ==> ids[|s.levels| + m] == s.locks[m].waiters
  {
    s.levels + seq(|s.locks|, m requires 0 <= m < |s.locks| => s.locks[m].waiters)
  }

  lemma QueueIdsLevel(s: Sched, l: nat, q: seq<nat>)
    requires l < |s.levels|
    ensures QueueIds(s.(levels := s.levels[l := q])) == QueueIds(s)[l := q]
  {
  }

  lemma QueueIdsLock(s: Sched, m: nat, lock: Lock)
    requires m < |s.locks|
    ensures QueueIds(s.(locks := s.locks[m := lock])) == QueueIds(s)[|s.levels| + m := lock.waiters]
  {
  }

  lemma QueueIdsFlag(s: Sched, m: nat, flag: bool)
    requires m < |s.locks|
    ensures QueueIds(s.(locks := s.locks[m := s.locks[m].(locked := flag)])) == QueueIds(s)
  {
  }

  lemma QueueIdsAppend(s: Sched)
    ensures QueueIds(SchedulerModel.MutexInit(s)) == QueueIds(s) + [[]]
  {
  }

  lemma QueueIdsSame(a: Sched, b: Sched)
    requires a.levels == b.levels && a.locks == b.locks
    ensures QueueIds(a) == QueueIds(b)
  {
  }

  class Scheduler {
    const levels: seq<Queue>
    var current: Tcb?
    var hasRun: int
    var afterUnlock: int
    var lastTid: nat
    ghost var threads: map<nat, Tcb>
    ghost var mutexes: seq<Mutex>
    ghost var abs: Sched

    ghost function AllQueues(): (qs: seq<Queue>)
      reads this`mutexes
      ensures |qs| == |levels| + |mutexes|
      ensures forall l :: 0 <= l < |levels| ==> qs[l] == levels[l]
      ensures forall m :: 0 <= m < |mutexes| ==> qs[|levels| + m] == mutexes[m].waitQueue
    {
      var ms := mutexes;
      levels + seq(|ms|, m requires 0 <= m < |ms| => ms[m].waitQueue)
    }

    ghost predicate GlobalsAre()
      reads this
    {
      && 2 <= |levels| && |abs.levels| == |levels|
      && (current != null ==> Known(current))
      && abs.current == (if current == null then None else Some(current.tid))
      && abs.hasRun == hasRun && abs.afterUnlock == afterUnlock && abs.lastTid == lastTid
    }

    ghost predicate Valid()
      reads this, AllQueues(), threads.Values, mutexes
    {
      && GlobalsAre()
      && LocksAre(mutexes, abs.locks)
      && ThreadsAre(threads, abs.threads)
      && Represents(AllQueues(), threads.Values, QueueIds(abs))
    }

    /** A tcb that the library has created. */
    ghost predicate Known(t: Tcb)
      reads this
    {
      t.tid in threads && threads[t.tid] == t
    }

    method SetPriority(t: Tcb, priority: int)
      requires Valid() && Known(t)
      modifies this`abs, t`priority
      ensures Valid() && t.priority == priority
      ensures abs == old(abs).(threads := old(abs).threads[t.tid := old(abs).threads[t.tid].(priority := priority)])
    {
      hide Represents, QueueIds, LocksAre, ThreadsAre;
      ghost var was := abs;
      WritePriority(t, priority);
      abs := abs.(threads := abs.threads[t.tid := abs.threads[t.tid].(priority := priority)]);
      QueueIdsSame(was, abs);
    }

    method WritePriority(t: Tcb, priority: int)
      requires ThreadsAre(threads, abs.threads) && Known(t)
      modifies t`priority
      ensures t.tid in abs.threads && t.priority == priority
      ensures ThreadsAre(threads, abs.threads[t.tid := abs.threads[t.tid].(priority := priority)])
    {
      t.priority := priority;
    }

    method WriteState(t: Tcb, st: ThreadState)
      requires ThreadsAre(threads, abs.threads) && Known(t)
      modifies t`state
      ensures t.tid in abs.threads && ThreadsAre(threads, SchedulerModel.SetState(abs.threads, t.tid, st))
    {
      t.state := st;
    }

    /** schedule_thread. */
    method ScheduleThread(t: Tcb, priority: int) returns (ok: int)
      requires Valid() && Known(t) && Nowhere(AllQueues(), t)
      modifies this`abs, AllQueues(), threads.Values`next, t`priority
      ensures Valid()
      ensures ok == if 0 <= priority < |levels| then 0 else -1
      ensures ok == -1 ==> abs == old(abs)
      ensures ok == 0 ==> abs == Schedule(old(abs), t.tid, priority) && t.priority == priority
    {
      hide Represents, QueueIds, LocksAre, ThreadsAre, Nowhere;
      if priority < 0 || priority > |levels| - 1 {
        return -1;
      }
      SetPriority(t, priority);
      QueueIdsLevel(abs, priority, abs.levels[priority] + [t.tid]);
      PushThread(levels[priority], t, AllQueues(), priority, threads.Values, QueueIds(abs));
      abs := abs.(levels := abs.levels[priority := abs.levels[priority] + [t.tid]]);
      ok := 0;
    }

    // ----- small steps on the structures

    method SetState(t: Tcb, st: ThreadState)
      requires Valid() && Known(t)
      modifies this`abs, t`state
      ensures Valid()
      ensures abs == old(abs).(threads := SchedulerModel.SetState(old(abs).threads, t.tid, st))
    {
      hide Represents, QueueIds, LocksAre, ThreadsAre;
      ghost var was := abs;
      WriteState(t, st);
      abs := abs.(threads := SchedulerModel.SetState(abs.threads, t.tid, st));
      QueueIdsSame(was, abs);
    }

    ghost predicate LevelsHold()
      reads this`abs, this`threads, this`mutexes, AllQueues(), threads.Values`next
    {
      2 <= |levels| && |abs.levels| == |levels| && Represents(AllQueues(), threads.Values, QueueIds(abs))
    }

    method PeekLevel(l: int) returns (t: Tcb?)
      requires LevelsHold() && 0 <= l < |levels|
      ensures t == null <==> abs.levels[l] == []
      ensures t != null ==> t.tid == abs.levels[l][0] && t in threads.Values
    {
      t := levels[l].Peek();
      assert levels[l] == AllQueues()[l] && QueueIds(abs)[l] == Tids(levels[l].nodes);
      if t != null { assert t in levels[l].nodes; }
    }

    method LevelSize(l: int) returns (n: int)
      requires LevelsHold() && 0 <= l < |levels|
      ensures n == |abs.levels[l]|
    {
      n := levels[l].size;
      assert levels[l] == AllQueues()[l] && QueueIds(abs)[l] == Tids(levels[l].nodes);
    }

    method TakeFromLevel(l: int) returns (t: Tcb?)
      requires Valid() && 0 <= l < |levels|
      modifies this`abs, AllQueues(), threads.Values`next
      ensures Valid()
      ensures t == null <==> old(abs).levels[l] == []
      ensures t == null ==> abs == old(abs)
      ensures t != null ==>
                && t.tid == old(abs).levels[l][0] && t in threads.Values && Known(t) && Nowhere(AllQueues(), t)
                && abs == old(abs).(levels := old(abs).levels[l := old(abs).levels[l][1..]])
    {
      hide Represents, LocksAre, Nowhere, QueueIds;
      t := PopThread(levels[l], AllQueues(), l, threads.Values, QueueIds(abs));
      if t != null {
        QueueIdsLevel(abs, l, abs.levels[l][1..]);
        abs := abs.(levels := abs.levels[l := abs.levels[l][1..]]);
      }
    }

    // ----- the yield helpers

    /** Lines 572-577: the head of the current level goes to the tail. */
    method Rotate()
      requires Valid() && CanDequeue(abs)
      modifies this`abs, AllQueues(), threads.Values`next, threads.Values`state, threads.Values`priority
      ensures Valid() && abs == Requeue(old(abs))
    {
      hide Represents, LocksAre, Nowhere, QueueIds, ThreadsAre, Requeue;
      ghost var was := abs;
      RequeueParts(was);
      RecordOf(current);
      var level := current.priority;
      var t := TakeFromLevel(level);
      RecordOf(t);
      if t.state != Terminated {
        SetState(t, Ready);
      }
      RecordOf(t);
      var _ := ScheduleThread(t, t.priority);
    }

    /** Lines 579-616 and 638-675: the two-stage search for the next thread. */
    method SelectNext(level: int)
      requires Valid() && 0 <= level < |levels| && 0 <= hasRun
      modifies this`current, this`hasRun, this`abs
      ensures Valid() && abs == Select(old(abs), level)
    {
      hide Represents, LocksAre, ThreadsAre, QueueIds;
      ghost var s := abs;
      ChooseCurrent(level);
      if current != null { KnownValue(current); }
      abs := Select(s, level);
      QueueIdsSame(s, abs);
    }

    method ChooseCurrent(level: int)
      requires LevelsHold() && 0 <= level < |levels| && 0 <= hasRun == abs.hasRun
      modifies this`current, this`hasRun
      ensures hasRun == Select(abs, level).hasRun
      ensures Select(abs, level).current == if current == null then None else Some(current.tid)
      ensures current != null ==> current in threads.Values
    {
      hide Represents, QueueIds;
      var size := LevelSize(level);
      if hasRun >= size {
        hasRun := 0;
        SearchLevels(level);
      } else {
        current := PeekLevel(level);
      }
    }

    lemma RecordOf(t: Tcb)
      requires ThreadsAre(threads, abs.threads) && Known(t)
      ensures t.tid in abs.threads && abs.threads[t.tid] == Thread(t.state, t.priority, t.returnValue)
    {
    }

    lemma KnownValue(t: Tcb)
      requires ThreadsAre(threads, abs.threads) && t in threads.Values
      ensures Known(t)
    {
    }

    /** First the other levels in turn, then whichever level holds anything. */
    method SearchLevels(level: int)
      requires LevelsHold() && 0 <= level < |levels|
      modifies this`current
      ensures current == null <==> abs.levels[NextLevel(abs.levels, level, 1)] == []
      ensures current != null ==> HeadsLevel(current, NextLevel(abs.levels, level, 1))
    {
      hide Represents, QueueIds;
      SearchOthers(level);
      if current == null {
        OthersEmpty(abs.levels, level);
        var i := 0;
        while i < |levels|
          invariant 0 <= i <= |levels| && current == null
          invariant forall l :: 0 <= l < i ==> abs.levels[l] == []
        {
          var size := LevelSize(i);
          if size > 0 {
            current := PeekLevel(i);
            break;
          }
          i := i + 1;
        }
      }
    }

    ghost predicate HeadsLevel(t: Tcb, l: nat)
      reads this
    {
      t in threads.Values && l < |abs.levels| && abs.levels[l] != [] && t.tid == abs.levels[l][0]
    }

    method SearchOthers(level: int)
      requires LevelsHold() && 0 <= level < |levels|
      modifies this`current
      ensures current == null ==> forall o :: 1 <= o <= |levels| - 1 ==> abs.levels[Around(|levels|, level, o)] == []
      ensures current == null ==> NextLevel(abs.levels, level, 1) == NextLevel(abs.levels, level, |levels|)
      ensures current != null ==> HeadsLevel(current, NextLevel(abs.levels, level, 1))
    {
      hide Represents, QueueIds;
      ghost var n := |levels|;
      var c := 0;
      if level != |levels| - 1 {
        c := level + 1;
      }
      var i := 0;
      var final := |levels| - 2;
      while i <= final
        invariant 0 <= i <= final + 1
        invariant c == Around(n, level, i + 1)
        invariant NextLevel(abs.levels, level, 1) == NextLevel(abs.levels, level, i + 1)
        invariant forall o :: 1 <= o <= i ==> abs.levels[Around(n, level, o)] == []
        invariant 0 < i ==> current == null
      {
        current := PeekLevel(c);
        if current != null {
          break;
        } else {
          if c == |levels| - 1 {
            c := 0;
          } else {
            c := c + 1;
          }
        }
        i := i + 1;
      }
    }

    /** Lines 626-629 and 685-687. */
    method RunCurrent()
      requires Valid() && current != null
      modifies this`abs, this`hasRun, current`state
      ensures Valid()
      ensures abs == old(abs).(threads := SchedulerModel.SetState(old(abs).threads, current.tid, Running), hasRun := old(abs).hasRun + 1)
    {
      hide Represents, QueueIds, LocksAre;
      current.state := Running;
      hasRun := hasRun + 1;
      ghost var was := abs;
      abs := abs.(threads := SchedulerModel.SetState(abs.threads, current.tid, Running), hasRun := abs.hasRun + 1);
      QueueIdsSame(was, abs);
    }

    method YieldHelper()
      requires Valid() && CanYield(abs)
      modifies this`abs, this`current, this`hasRun, AllQueues(),
               threads.Values`next, threads.Values`state, threads.Values`priority
      ensures Valid() && abs == Yield(old(abs))
      decreases if Leaving(abs) then 1 else 0, YieldingLeft(abs), LiveDistance(abs)
    {
      hide Represents, QueueIds, LocksAre, ThreadsAre, CanYield, Yield, Requeue, Select, YieldingLeft, LiveDistance, Leaving, YieldOnce;
      ghost var s := abs;
      YieldUnfold(s);
      RecordOf(current);
      var level := current.priority;
      Rotate();
      SelectNext(level);
      RecordOf(current);
      if current.state == Yielding {
        SetState(current, Ready);
        YieldHelper();
        return;
      }
      if current.state == Terminated {
        YieldHelper();
        return;
      }
      RunCurrent();
    }

    method YieldAfterUnlockHelper()
      requires Valid() && CanYieldAfterUnlock(abs)
      modifies this`abs, this`current, this`hasRun, this`afterUnlock, AllQueues(),
               threads.Values`next, threads.Values`state, threads.Values`priority
      ensures Valid() && abs == YieldAfterUnlock(old(abs))
    {
      hide Represents, QueueIds, LocksAre, ThreadsAre, CanYield, Yield, Select, YieldOnce;
      ghost var s := abs;
      var level := afterUnlock;
      SetAfterUnlock(-1);
      SelectNext(level);
      if current == null {
        return;
      }
      SelectedCanYield(s);
      RecordOf(current);
      if current.state == Yielding {
        SetState(current, Ready);
        YieldHelper();
        return;
      }
      if current.state == Terminated {
        YieldHelper();
        return;
      }
      RunCurrent();
    }

    /** The handler of SIGALRM. Whether the time slice is used up is decided outside the model, from the time
        stamp in the current tcb. */
    method SignalHandler(sliceUsed: bool)
      requires Valid() && current != null && (sliceUsed ==> CanTick(abs))
      modifies this`abs, this`current, this`hasRun, this`afterUnlock, AllQueues(),
               threads.Values`next, threads.Values`state, threads.Values`priority
      ensures Valid() && abs == if sliceUsed then Tick(old(abs)) else old(abs)
    {
      hide Represents, QueueIds, LocksAre, ThreadsAre, CanYield, Yield, CanYieldAfterUnlock, YieldAfterUnlock;
      if sliceUsed {
        if afterUnlock != -1 {
          YieldAfterUnlockHelper();
        } else {
          YieldHelper();
        }
      }
    }

    // ----- mutexes

    method SetAfterUnlock(p: int)
      requires Valid()
      modifies this`abs, this`afterUnlock
      ensures Valid() && abs == old(abs).(afterUnlock := p) && afterUnlock == p
    {
      hide Represents, QueueIds, LocksAre, ThreadsAre;
      afterUnlock := p;
      ghost var was := abs;
      abs := abs.(afterUnlock := p);
      QueueIdsSame(was, abs);
    }

    /** `m` is the mutex number `k`. */
    ghost predicate IsMutex(m: Mutex, k: nat)
      reads this`mutexes
    {
      k < |mutexes| && mutexes[k] == m
    }

    method SetLocked(m: Mutex, ghost k: nat, flag: bool)
      requires Valid() && IsMutex(m, k)
      modifies this`abs, m`locked
      ensures m.locked == flag
      ensures Valid() && abs == old(abs).(locks := old(abs).locks[k := old(abs).locks[k].(locked := flag)])
    {
      hide Represents, QueueIds, ThreadsAre;
      m.locked := flag;
      ghost var was := abs;
      abs := abs.(locks := abs.locks[k := abs.locks[k].(locked := flag)]);
      QueueIdsFlag(was, k, flag);
    }

    /** Lines 793-794: the head of the level goes to the end of the mutex's queue. */
    method BlockHead(m: Mutex, ghost k: nat, level: int)
      requires Valid() && IsMutex(m, k) && k < |abs.locks| && 0 <= level < |levels| && abs.levels[level] != []
      modifies this`abs, AllQueues(), threads.Values`next
      ensures Valid() && k < |old(abs).locks| && abs == Block(old(abs), k, level)
    {
      hide Represents, ThreadsAre, Nowhere, QueueIds, LocksAre;
      var t := TakeFromLevel(level);
      LocksCount();
      ghost var lock := abs.locks[k].(waiters := abs.locks[k].waiters + [t.tid]);
      QueueIdsLock(abs, k, lock);
      PushThread(m.waitQueue, t, AllQueues(), |levels| + k, threads.Values, QueueIds(abs));
      FlagsStay(k, lock);
      abs := abs.(locks := abs.locks[k := lock]);
    }

    method TakeWaiter(m: Mutex, ghost k: nat) returns (t: Tcb?)
      requires Valid() && IsMutex(m, k)
      modifies this`abs, AllQueues(), threads.Values`next
      ensures Valid()
      ensures t == null <==> old(abs).locks[k].waiters == []
      ensures t == null ==> abs == old(abs)
      ensures t != null ==>
                && t.tid == old(abs).locks[k].waiters[0] && t in threads.Values && Known(t) && Nowhere(AllQueues(), t)
                && abs == old(abs).(locks := old(abs).locks[k := old(abs).locks[k].(waiters := old(abs).locks[k].waiters[1..])])
    {
      hide Represents, Nowhere, QueueIds, ThreadsAre, LocksAre;
      LocksCount();
      t := PopThread(m.waitQueue, AllQueues(), |levels| + k, threads.Values, QueueIds(abs));
      if t != null {
        ghost var lock := abs.locks[k].(waiters := abs.locks[k].waiters[1..]);
        QueueIdsLock(abs, k, lock);
        FlagsStay(k, lock);
        KnownValue(t);
        abs := abs.(locks := abs.locks[k := lock]);
      }
    }

    lemma LocksCount()
      requires LocksAre(mutexes, abs.locks)
      ensures |mutexes| == |abs.locks|
    {
    }

    lemma FlagsStay(k: nat, lock: Lock)
      requires LocksAre(mutexes, abs.locks) && k < |abs.locks| && lock.locked == abs.locks[k].locked
      ensures LocksAre(mutexes, abs.locks[k := lock])
    {
    }

    /** One round of the loop of my_pthread_mutex_lock; `level` is the priority read on entry. */
    method MutexLockAttempt(m: Mutex, ghost k: nat, level: int) returns (acquired: bool)
      requires Valid() && IsMutex(m, k) && 0 <= level < |levels| && k < |abs.locks|
      requires abs.locks[k].locked ==> abs.levels[level] != []
      modifies this`abs, m`locked, AllQueues(), threads.Values`next
      ensures Valid() && k < |old(abs).locks| && abs == LockAttempt(old(abs), k, level)
      ensures acquired <==> !old(m.locked)
      ensures m.locked
    {
      hide Represents, QueueIds, ThreadsAre, Nowhere;
      ghost var s := abs;
      var wasLocked := m.locked;
      SetLocked(m, k, true);
      if !wasLocked {
        return true;
      }
      assert abs == s by { assert s.locks[k := s.locks[k].(locked := true)] == s.locks; }
      BlockHead(m, k, level);
      acquired := false;
    }

    method MutexUnlock(m: Mutex, ghost k: nat)
      requires Valid() && IsMutex(m, k) && k < |abs.locks| && current != null
      requires abs.locks[k].waiters != [] ==> abs.locks[k].waiters[0] in abs.threads
      modifies this`abs, this`afterUnlock, m`locked, AllQueues(), threads.Values`next, threads.Values`priority
      ensures Valid() && k < |old(abs).locks| && old(abs).current.Some? && old(abs).current.value in old(abs).threads
      ensures old(abs).locks[k].waiters != [] ==> old(abs).locks[k].waiters[0] in old(abs).threads
      ensures 0 < |old(abs).levels| && abs == Unlock(old(abs), k)
      ensures !m.locked && current == old(current) && afterUnlock == current.priority
    {
      hide Represents, QueueIds, ThreadsAre, Nowhere, LocksAre;
      ghost var s := abs;
      RecordOf(current);
      SetLocked(m, k, false);
      var t := TakeWaiter(m, k);
      if t != null {
        var _ := ScheduleThread(t, 0);
      }
      RecordOf(current);
      SetAfterUnlock(current.priority);
    }

    // ----- ending and joining

    /** my_pthread_exit, and the end of thread_function_wrapper for a thread that has not exited. */
    method PublishResult(v: int)
      requires Valid() && current != null
      modifies this`abs, current`state, current`returnValue
      ensures Valid() && old(abs).current.Some? && old(abs).current.value in old(abs).threads
      ensures abs == Publish(old(abs), v)
    {
      hide Represents, QueueIds, LocksAre;
      current.returnValue := v;
      current.state := Terminated;
      ghost var was := abs;
      abs := Publish(abs, v);
      QueueIdsSame(was, abs);
    }

    /** The end of thread_function_wrapper. A thread that has exited pauses first: `woken` says whether a
        signal lets it go on, and it then publishes the function's result over its exit value. */
    method FunctionReturned(v: int, woken: bool)
      requires Valid() && current != null
      modifies this`abs, current`state, current`returnValue
      ensures Valid() && old(abs).current.Some? && old(abs).current.value in old(abs).threads
      ensures abs == if woken then Publish(old(abs), v) else SchedulerModel.WrapperReturn(old(abs), v)
    {
      hide Represents, QueueIds, LocksAre, ThreadsAre;
      RecordOf(current);
      if current.state == Terminated {
        if !woken {
          return;
        }
      }
      PublishResult(v);
    }

    /** The look-up at the start of my_pthread_join; null stands for a failed join. */
    method JoinFind(tid: nat) returns (t: Tcb?)
      requires Valid()
      ensures t == null <==> !Scheduled(abs, tid)
      ensures t != null ==> t.tid == tid && Known(t)
    {
      hide Represents, QueueIds, LocksAre, ThreadsAre, Ids, NodeLists, Queue.Valid;
      LevelsOf();
      t := GetTcb(levels, tid);
      LevelsOf();
      if t != null {
        ghost var l: nat, i: nat :| FirstMatch(Ids(NodeLists(levels)), tid, l, i) && levels[l].nodes[i] == t;
        assert abs.levels[l][i] in abs.levels[l];
        KnownNode(l, i);
      }
    }

    lemma LevelsOf()
      requires Valid()
      ensures Ids(NodeLists(levels)) == abs.levels
      ensures forall l :: 0 <= l < |levels| ==> levels[l].Valid()
    {
      assert forall l :: 0 <= l < |levels| ==> AllQueues()[l] == levels[l] && QueueIds(abs)[l] == Tids(levels[l].nodes);
    }

    lemma KnownNode(l: nat, i: nat)
      requires Valid() && l < |levels| && i < |levels[l].nodes|
      ensures Known(levels[l].nodes[i])
    {
      assert AllQueues()[l] == levels[l] && levels[l].nodes[i] in levels[l].nodes;
      KnownValue(levels[l].nodes[i]);
    }

    /** One round of the loop of my_pthread_join, on the tcb found before: the result once there is one. */
    method JoinLook(t: Tcb) returns (ended: bool, result: int)
      requires Valid() && Known(t)
      ensures Outcome(abs, t.tid) == if ended then Some(result) else None
    {
      hide Represents, QueueIds, LocksAre;
      RecordOf(t);
      ended := t.state == Terminated;
      result := t.returnValue;
    }

    // ----- creation

    constructor (n: nat)
      requires 2 <= n
      ensures Valid() && fresh(this)
      ensures abs == Sched(seq(n, i => []), [], map[], None, 0, -1, 0)
    {
      hide Represents, QueueIds;
      var qs: seq<Queue> := [];
      var i := 0;
      while i < n
        invariant 0 <= i <= n && |qs| == i
        invariant fresh(set q | q in qs) && forall l :: 0 <= l < i ==> qs[l].Valid() && qs[l].nodes == []
        invariant forall l, k :: 0 <= l < k < i ==> qs[l] != qs[k]
      {
        var q := new Queue();
        qs := qs + [q];
        i := i + 1;
      }
      levels := qs;
      current, hasRun, afterUnlock, lastTid := null, 0, -1, 0;
      threads, mutexes := map[], [];
      abs := Sched(seq(n, i => []), [], map[], None, 0, -1, 0);
      new;
      assert AllQueues() == levels;
      assert threads.Values == {};
      NothingQueued(levels, abs);
    }

    /** A fresh tcb, registered and READY, that stands in no queue yet. */
    method NewThread(tid: nat) returns (t: Tcb)
      requires Valid() && tid !in threads
      modifies this`abs, this`threads
      ensures Valid() && fresh(t) && t.tid == tid && Known(t) && Nowhere(AllQueues(), t)
      ensures threads == old(threads)[tid := t]
      ensures abs == old(abs).(threads := old(abs).threads[tid := Thread(Ready, 0, 0)])
    {
      hide Represents, LocksAre, QueueIds, ThreadsAre, Nowhere;
      t := new Tcb(tid);
      ghost var was := abs;
      ghost var all := threads.Values;
      RepresentsNowhere(AllQueues(), all, QueueIds(abs), t);
      ThreadsGrow(threads, t, abs.threads);
      threads := threads[tid := t];
      abs := abs.(threads := abs.threads[tid := Thread(Ready, 0, 0)]);
      QueueIdsSame(was, abs);
      RepresentsMore(AllQueues(), all, threads.Values, QueueIds(abs));
    }

    /** A new thread on the first level. */
    method AddThread(tid: nat) returns (t: Tcb)
      requires Valid() && tid !in threads
      modifies this`abs, this`threads, AllQueues(), threads.Values`next
      ensures Valid() && fresh(t) && Known(t) && t.tid == tid && threads == old(threads)[tid := t]
      ensures abs == old(abs).(levels := old(abs).levels[0 := old(abs).levels[0] + [tid]],
                               threads := old(abs).threads[tid := Thread(Ready, 0, 0)])
    {
      hide Represents, QueueIds, LocksAre, ThreadsAre, Nowhere;
      t := NewThread(tid);
      var _ := ScheduleThread(t, 0);
    }

    /** my_pthread_create. */
    method CreateThread() returns (tid: nat)
      requires Valid() && lastTid + 1 !in threads && (lastTid == 0 ==> 0 !in threads)
      modifies this`abs, this`threads, this`current, this`lastTid, AllQueues(), threads.Values`next
      ensures Valid() && tid == old(lastTid) + 1
      ensures 0 < |old(abs).levels| && abs == Create(old(abs))
    {
      hide Represents, QueueIds, LocksAre, ThreadsAre;
      if lastTid == 0 {
        var main := AddThread(0);
        SetCurrent(main);
      }
      tid := NextTid();
      var _ := AddThread(tid);
    }

    method SetCurrent(t: Tcb)
      requires Valid() && Known(t)
      modifies this`abs, this`current
      ensures Valid() && abs == old(abs).(current := Some(t.tid)) && current == t
    {
      hide Represents, QueueIds, LocksAre, ThreadsAre;
      current := t;
      ghost var was := abs;
      abs := abs.(current := Some(t.tid));
      QueueIdsSame(was, abs);
    }

    method NextTid() returns (tid: nat)
      requires Valid()
      modifies this`abs, this`lastTid
      ensures Valid() && abs == old(abs).(lastTid := old(lastTid) + 1) && tid == lastTid == old(lastTid) + 1
    {
      hide Represents, QueueIds, LocksAre, ThreadsAre;
      lastTid := lastTid + 1;
      tid := lastTid;
      ghost var was := abs;
      abs := abs.(lastTid := lastTid);
      QueueIdsSame(was, abs);
    }

    /** my_pthread_mutex_init. */
    method InitMutex() returns (m: Mutex)
      requires Valid()
      modifies this`abs, this`mutexes
      ensures Valid() && fresh(m) && mutexes == old(mutexes) + [m]
      ensures abs == SchedulerModel.MutexInit(old(abs))
    {
      hide Represents, ThreadsAre, QueueIds;
      m := new Mutex();
      ghost var qs := AllQueues();
      RepresentsAppend(qs, threads.Values, QueueIds(abs), m.waitQueue);
      QueueIdsAppend(abs);
      mutexes := mutexes + [m];
      abs := SchedulerModel.MutexInit(abs);
      assert AllQueues() == qs + [m.waitQueue];
    }
  }

  lemma NothingQueued(qs: seq<Queue>, s: Sched)
    requires forall l :: 0 <= l < |qs| ==> qs[l].Valid() && qs[l].nodes == []
    requires forall l, k :: 0 <= l < k < |qs| ==> qs[l] != qs[k]
    requires s.locks == [] && s.levels == seq(|qs|, i => [])
    ensures Represents(qs, {}, QueueIds(s))
  {
    assert Ids(NodeLists(qs)) == QueueIds(s);
  }

  /** A new tcb as the record of a new thread. */
  lemma ThreadsGrow(threads: map<nat, Tcb>, t: Tcb, recs: map<nat, Thread>)
    requires ThreadsAre(threads, recs) && t.tid !in threads
    ensures ThreadsAre(threads[t.tid := t], recs[t.tid := Thread(t.state, t.priority, t.returnValue)])
    ensures threads.Values <= threads[t.tid := t].Values
  {
    forall n | n in threads.Values ensures n in threads[t.tid := t].Values {
      var k :| k in threads && threads[k] == n;
      assert threads[t.tid := t][k] == n;
    }
  }

  lemma OthersEmpty(levels: seq<seq<nat>>, level: nat)
    requires 2 <= |levels| && level < |levels|
    requires forall o :: 1 <= o <= |levels| - 1 ==> levels[Around(|levels|, level, o)] == []
    requires NextLevel(levels, level, 1) == NextLevel(levels, level, |levels|)
    ensures NextLevel(levels, level, 1) == level
    ensures forall l :: 0 <= l < |levels| && l != level ==> levels[l] == []
  {
    forall l | 0 <= l < |levels| && l != level ensures levels[l] == [] {
      var o := if l > level then l - level else l + |levels| - level;
      assert l == Around(|levels|, level, o);
    }
  }

  /** The requeueing in three steps. */
  lemma RequeueParts(s: Sched)
    requires CanDequeue(s)
    ensures var l := CurrentLevel(s); var q := s.levels[l];
            && q[0] in s.threads && s.threads[q[0]].priority == l
            && var s1 := s.(levels := s.levels[l := q[1..]]);
               var s2 := if s.threads[q[0]].state == Terminated then s1 else s1.(threads := SchedulerModel.SetState(s1.threads, q[0], Ready));
               Schedule(s2, q[0], l) == Requeue(s)
  {
  }
}
