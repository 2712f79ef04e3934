/** Whether the workers of the parallel sum come to an end: the lock puts a worker to sleep in two steps, and a
    worker between the two can miss its wake-up. */
module Progress {
  import opened ParallelSum

  /** The worker takes a step when it is its turn. */
  predicate Moves(s: State, w: nat)
    requires w < |s.places|
  {
    !s.places[w].Done? && !s.places[w].Sleeping?
  }

  /** Worker `w` has still to release the lock, and so to wake the first sleeper, whatever the others do, unless
      it is put to sleep first. */
  predicate Waker(c: Input, q: Place, w: nat) {
    match q
    case Adding(_, _) => w < |c.a|
    case RowLoaded(_, _, _) => true
    case Asking(j) => j < |c.a|
    case Failed(_) => false
    case Sleeping(_) => false
    case Done => false
    case _ => true
  }

  ghost predicate SomeWaker(c: Input, s: State) {
    exists w: nat :: w < |s.places| && Waker(c, s.places[w], w)
  }

  ghost predicate SomeFailed(s: State) {
    exists w: nat :: w < |s.places| && s.places[w].Failed?
  }

  /** Somebody will wake the sleepers, or nobody sleeps or is about to. */
  ghost predicate Hopeful(c: Input, s: State) {
    SomeWaker(c, s) || (s.queue == [] && !SomeFailed(s))
  }

  // ----- how much is left

  /** What a worker that asks for the lock for row `j` has left: each row may take one failed test, two steps,
      and a wake-up lets a sleeper fail once more, which the waker pays for. */
  function AskingLeft(c: Input, j: nat): nat
    requires Good(c)
    decreases |c.a| - j
  {
    if |c.a| <= j then 1 else 9 + AskingLeft(c, j + c.workers)
  }

  function AddingLeft(c: Input, w: nat, j: nat, i: nat): nat
    requires Good(c) && i <= c.cols
    decreases |c.a| - j, c.cols - i
  {
    if |c.a| <= j then 1 + AskingLeft(c, w)
    else if i == c.cols then 1 + AddingLeft(c, w, j + c.workers, 0)
    else 2 + AddingLeft(c, w, j, i + 1)
  }

  function Left(c: Input, w: nat, q: Place): nat
    requires Good(c) && InRange(c, q)
  {
    match q
    case Adding(j, i) => AddingLeft(c, w, j, i)
    case RowLoaded(j, i, _) => 1 + AddingLeft(c, w, j, i + 1)
    case Asking(j) => AskingLeft(c, j)
    case Failed(j) => 8 + AskingLeft(c, j + c.workers)
    case Sleeping(j) => 7 + AskingLeft(c, j + c.workers)
    case Entered(j) => 6 + AskingLeft(c, j + c.workers)
    case SumLoaded(j, _) => 5 + AskingLeft(c, j + c.workers)
    case Stored(j) => 4 + AskingLeft(c, j + c.workers)
    case Released(j) => 3 + AskingLeft(c, j + c.workers)
    case Done => 0
  }

  predicate AllInRange(c: Input, places: seq<Place>) {
    forall w :: 0 <= w < |places| ==> InRange(c, places[w])
  }

  function AllLeft(c: Input, places: seq<Place>, k: nat): nat
    requires Good(c) && AllInRange(c, places) && k <= |places|
  {
    if k == 0 then 0 else AllLeft(c, places, k - 1) + Left(c, k - 1, places[k - 1])
  }

  function StateLeft(c: Input, s: State): nat
    requires Good(c) && Shaped(c, s)
  {
    AllLeft(c, s.places, |s.places|)
  }

  lemma {:induction false} OneChanges(c: Input, places: seq<Place>, w: nat, q: Place, k: nat)
    requires Good(c) && AllInRange(c, places) && w < |places| && InRange(c, q) && k <= |places|
    ensures AllInRange(c, places[w := q])
    ensures AllLeft(c, places[w := q], k) == AllLeft(c, places, k) + if w < k then Left(c, w, q) - Left(c, w, places[w]) else 0
  {
    if k != 0 {
      OneChanges(c, places, w, q, k - 1);
    }
  }

  /** The place a step takes worker `w` to, before any sleeper is woken. */
  lemma OwnLeft(c: Input, s: State, w: nat) returns (q: Place)
    requires Good(c) && Shaped(c, s) && QueueRight(s) && w < c.workers && Moves(s, w)
    ensures InRange(c, q) && Left(c, w, q) + (if s.places[w].Released? then 3 else 1) <= Left(c, w, s.places[w])
    ensures !s.places[w].Released? ==> Step(c, s, w).places == s.places[w := q]
    ensures s.places[w].Released? ==>
              q == Asking(s.places[w].j + c.workers) && Step(c, s, w) == Wake(c, At(s, w, q)) && Shaped(c, At(s, w, q))
  {
    hide Sleepers, Wrap;
    q := if s.places[w].Released? then Asking(s.places[w].j + c.workers) else Step(c, s, w).places[w];
  }

  /** Every move leaves less to do, whoever makes it. */
  lemma MoveLeavesLess(c: Input, s: State, w: nat)
    requires Good(c) && Shaped(c, s) && QueueRight(s) && w < c.workers
    ensures !Moves(s, w) ==> Step(c, s, w) == s
    ensures Moves(s, w) ==> StateLeft(c, Step(c, s, w)) < StateLeft(c, s)
  {
    if Moves(s, w) {
      hide Step, Left, Wake;
      var q := OwnLeft(c, s, w);
      OneChanges(c, s.places, w, q, c.workers);
      if s.places[w].Released? { WakeCosts(c, At(s, w, q)); }
    }
  }

  /** Waking a sleeper gives it two steps more. */
  lemma WakeCosts(c: Input, s: State)
    requires Good(c) && Shaped(c, s)
    ensures StateLeft(c, Wake(c, s)) <= StateLeft(c, s) + 2
  {
    hide AllLeft;
    if s.queue != [] {
      var h := s.queue[0];
      OneChanges(c, s.places, h, Awake(s.places[h]), |s.places|);
    }
  }

  /** How many of the steps in a run were moves. */
  function MoveCount(c: Input, order: seq<nat>): nat
    requires Good(c) && Order(c, order)
  {
    if order == [] then 0
    else var l := |order| - 1;
         MoveCount(c, order[..l]) + if Moves(Run(c, order[..l]), order[l]) then 1 else 0
  }

  /** No interleaving moves for ever: the moves made and what is left never exceed what was left at the start. */
  lemma {:induction false} MovesBounded(c: Input, order: seq<nat>)
    requires Good(c) && Order(c, order)
    ensures MoveCount(c, order) + StateLeft(c, Run(c, order)) <= StateLeft(c, Start(c))
  {
    hide StateLeft, Step;
    if order != [] {
      var l := |order| - 1;
      MovesBounded(c, order[..l]);
      RunInv(c, order[..l]);
      MoveLeavesLess(c, Run(c, order[..l]), order[l]);
    }
  }

  // ----- hope

  /** Worker `w`'s own step leaves it a waker, unless its test fails or it has released the lock for its last row. */
  lemma WakerSteps(c: Input, s: State, w: nat)
    requires Good(c) && Inv(c, s) && w < c.workers && Waker(c, s.places[w], w)
    ensures s.places[w].Asking? && s.locked ==> Step(c, s, w).places[w].Failed?
    ensures !(s.places[w].Asking? && s.locked) && !s.places[w].Released? ==> Waker(c, Step(c, s, w).places[w], w)
    ensures s.places[w].Released? ==>
              (Waker(c, Step(c, s, w).places[w], w) <==> s.places[w].j + c.workers < |c.a|)
  {
    hide RowsRight, LockRight, AddedTotal, Wrap, Sleepers;
    OwnPlace(c, s, w);
    assert Current(c, s, w);
    if s.places[w].RowLoaded? { OwnRowsOnly(c, w, s.places[w].j); }
  }

  lemma NonWakerSteps(c: Input, s: State, w: nat)
    requires Good(c) && Inv(c, s) && w < c.workers && !Waker(c, s.places[w], w)
    ensures !Waker(c, Step(c, s, w).places[w], w)
    ensures !Step(c, s, w).places[w].Failed?
    ensures Step(c, s, w).queue == if s.places[w].Failed? then s.queue + [w] else s.queue
    ensures forall v :: 0 <= v < c.workers && v != w ==> Step(c, s, w).places[v] == s.places[v]
  {
    hide RowsRight, LockRight, AddedTotal, Wrap, Sleepers;
    assert Current(c, s, w);
    if s.places[w].Adding? { OwnRowsOnly(c, w, s.places[w].j); }
  }

  /** The holder of the lock is a waker. */
  lemma HolderWakes(c: Input, s: State) returns (h: nat)
    requires Good(c) && Shaped(c, s) && LockRight(s) && s.locked
    ensures h < c.workers && Waker(c, s.places[h], h) && Critical(s.places[h])
  {
    h :| h < |s.places| && Critical(s.places[h]);
  }

  /** Other wakers stay wakers. */
  lemma OtherWaker(c: Input, s: State, w: nat, v: nat)
    requires Good(c) && Inv(c, s) && w < c.workers && v < c.workers && v != w && Waker(c, s.places[v], v)
    ensures Waker(c, Step(c, s, w).places[v], v)
  {
    hide RowsRight, LockRight, AddedTotal, Wrap, Sleepers, Step;
    OthersStay(c, s, w, v);
  }

  /** The step that wakes nobody, for want of sleepers, after the worker's last row, while another worker is
      about to sleep and no other worker is a waker. */
  ghost predicate LosesHope(c: Input, s: State, w: nat)
    requires w < |s.places|
  {
    && s.places[w].Released? && s.queue == [] && |c.a| <= s.places[w].j + c.workers
    && SomeFailed(s) && forall v: nat :: v < |s.places| && v != w ==> !Waker(c, s.places[v], v)
  }

  /** Hope is lost exactly by such a step. */
  lemma HopeLostExactly(c: Input, s: State, w: nat)
    requires Good(c) && Inv(c, s) && Hopeful(c, s) && w < c.workers
    ensures !Hopeful(c, Step(c, s, w)) <==> LosesHope(c, s, w)
  {
    hide RowsRight, LockRight, AddedTotal, Current, Sleepers, Step, Waker;
    if v: nat :| v < |s.places| && v != w && Waker(c, s.places[v], v) {
      OtherWaker(c, s, w, v);
    } else if Waker(c, s.places[w], w) {
      OnlyWaker(c, s, w);
    } else {
      NoWaker(c, s, w);
    }
  }

  lemma OnlyWaker(c: Input, s: State, w: nat)
    requires Good(c) && Inv(c, s) && w < c.workers && Waker(c, s.places[w], w)
    requires forall v: nat :: v < |s.places| && v != w ==> !Waker(c, s.places[v], v)
    ensures !Hopeful(c, Step(c, s, w)) <==> LosesHope(c, s, w)
  {
    WakerSteps(c, s, w);
    var q := s.places[w];
    if q.Asking? && s.locked {
      var h := HolderWakes(c, s);
      assert false;
    } else if q.Released? {
      OnlyReleases(c, s, w);
    } else {
      assert Waker(c, Step(c, s, w).places[w], w);
    }
  }

  lemma OnlyReleases(c: Input, s: State, w: nat)
    requires Good(c) && Inv(c, s) && w < c.workers && s.places[w].Released?
    requires forall v: nat :: v < |s.places| && v != w ==> !Waker(c, s.places[v], v)
    ensures !Hopeful(c, Step(c, s, w)) <==> LosesHope(c, s, w)
  {
    hide RowsRight, LockRight, AddedTotal, Wrap;
    WakerSteps(c, s, w);
    var t := Step(c, s, w);
    if s.queue != [] {
      var h := s.queue[0];
      assert h in s.queue;
      assert Waker(c, t.places[h], h);
    } else {
      assert forall v :: 0 <= v < c.workers && v != w ==> t.places[v] == s.places[v];
      assert t.queue == [] && !t.places[w].Failed?;
    }
  }

  lemma NoWaker(c: Input, s: State, w: nat)
    requires Good(c) && Inv(c, s) && w < c.workers && !SomeWaker(c, s)
    ensures Hopeful(c, s) <==> Hopeful(c, Step(c, s, w))
  {
    hide RowsRight, LockRight, AddedTotal, Current, Sleepers, Step, Waker;
    NonWakerSteps(c, s, w);
    var t := Step(c, s, w);
    assert !SomeWaker(c, t);
    if s.places[w].Failed? {
      assert t.queue != [];
    } else if f: nat :| f < |s.places| && s.places[f].Failed? {
      assert t.places[f].Failed?;
    }
  }

  // ----- every interleaving

  lemma {:induction false} PrefixRun(c: Input, order: seq<nat>, all: seq<nat>)
    requires Good(c) && Order(c, all) && order <= all && !Hopeful(c, Run(c, order))
    ensures !Hopeful(c, Run(c, all))
    decreases |all|
  {
    hide Run, Hopeful, Inv, Step;
    if |all| == |order| {
      assert all == order;
    } else {
      var l := |all| - 1;
      PrefixRun(c, order, all[..l]);
      RunInv(c, all[..l]);
      HopelessStays(c, Run(c, all[..l]), all[l]);
      assert all == all[..l] + [all[l]];
      OneMoreStep(c, all[..l], all[l]);
    }
  }

  lemma HopelessStays(c: Input, s: State, w: nat)
    requires Good(c) && Inv(c, s) && w < c.workers && !Hopeful(c, s)
    ensures !Hopeful(c, Step(c, s, w))
  {
    NoWaker(c, s, w);
  }

  /** Without hope somebody is not done. */
  lemma HopelessNotDone(c: Input, s: State)
    requires Good(c) && Inv(c, s) && !Hopeful(c, s)
    ensures !AllDone(s)
  {
    hide RowsRight, LockRight, AddedTotal, Current;
    if s.queue != [] { assert s.queue[0] in s.queue; }
  }

  /** A worker whose step keeps hope: one that is about to sleep, else a waker, else anyone who is not done. */
  lemma PickMover(c: Input, s: State) returns (w: nat)
    requires Good(c) && Inv(c, s) && Hopeful(c, s) && !AllDone(s)
    ensures w < c.workers && Moves(s, w) && Hopeful(c, Step(c, s, w))
  {
    hide RowsRight, LockRight, AddedTotal, Current, Step;
    if f: nat :| f < |s.places| && s.places[f].Failed? {
      w := f;
    } else if v: nat :| v < |s.places| && Waker(c, s.places[v], v) {
      w := v;
    } else {
      w :| w < |s.places| && s.places[w] != Done;
    }
    HopeLostExactly(c, s, w);
  }

  /** While there is hope the workers can be run to their ends. */
  lemma {:induction false} FinishFrom(c: Input, order: seq<nat>) returns (all: seq<nat>)
    requires Good(c) && Order(c, order) && Hopeful(c, Run(c, order))
    ensures Order(c, all) && order <= all && AllDone(Run(c, all))
    decreases StateLeft(c, Run(c, order))
  {
    hide Run, Hopeful, Step, StateLeft, AllDone, Moves;
    RunInv(c, order);
    if AllDone(Run(c, order)) {
      all := order;
    } else {
      var w := PickMover(c, Run(c, order));
      OneMoreStep(c, order, w);
      MoveLeavesLess(c, Run(c, order), w);
      all := FinishFrom(c, order + [w]);
    }
  }

  /** After any interleaving the workers can still all be run to their ends exactly while there is hope. */
  lemma FinishExactly(c: Input, order: seq<nat>)
    requires Good(c) && Order(c, order)
    ensures (exists all :: Order(c, all) && order <= all && AllDone(Run(c, all))) <==> Hopeful(c, Run(c, order))
  {
    hide Run, Hopeful, AllDone;
    if Hopeful(c, Run(c, order)) {
      var all := FinishFrom(c, order);
    } else {
      forall all | Order(c, all) && order <= all ensures !AllDone(Run(c, all)) {
        PrefixRun(c, order, all);
        RunInv(c, all);
        HopelessNotDone(c, Run(c, all));
      }
    }
  }

  // ----- interleavings of whole attempts

  /** A step in which a failed test and the move to the queue are one. */
  function WholeStep(c: Input, s: State, w: nat): (t: State)
    requires Good(c) && Shaped(c, s) && w < c.workers
    ensures Shaped(c, t)
  {
    var t := Step(c, s, w);
    if t.places[w].Failed? then Step(c, t, w) else t
  }

  function WholeRun(c: Input, order: seq<nat>): (s: State)
    requires Good(c) && Order(c, order)
    ensures Shaped(c, s)
  {
    if order == [] then Start(c) else WholeStep(c, WholeRun(c, order[..|order| - 1]), order[|order| - 1])
  }

  /** These interleavings are among the others. */
  lemma {:induction false} WholeIsRun(c: Input, order: seq<nat>) returns (all: seq<nat>)
    requires Good(c) && Order(c, order)
    ensures Order(c, all) && Run(c, all) == WholeRun(c, order)
  {
    hide Step;
    if order == [] {
      all := [];
    } else {
      var l := |order| - 1;
      all := WholeIsRun(c, order[..l]);
      OneMoreStep(c, all, order[l]);
      all := all + [order[l]];
      if Run(c, all).places[order[l]].Failed? {
        OneMoreStep(c, all, order[l]);
        all := all + [order[l]];
      }
    }
  }

  /** Between whole attempts nobody is about to sleep, and hope is never lost. */
  lemma WholeStepKeeps(c: Input, s: State, w: nat)
    requires Good(c) && Inv(c, s) && Hopeful(c, s) && !SomeFailed(s) && w < c.workers
    ensures Inv(c, WholeStep(c, s, w)) && Hopeful(c, WholeStep(c, s, w)) && !SomeFailed(WholeStep(c, s, w))
    ensures Moves(s, w) ==> StateLeft(c, WholeStep(c, s, w)) < StateLeft(c, s)
  {
    hide RowsRight, LockRight, AddedTotal, Current, StateLeft, Hopeful;
    var t := Step(c, s, w);
    HopeLostExactly(c, s, w);
    StepKeeps(c, s, w);
    MoveLeavesLess(c, s, w);
    OnlyOneFails(c, s, w);
    if t.places[w].Failed? {
      HopeLostExactly(c, t, w);
      StepKeeps(c, t, w);
      MoveLeavesLess(c, t, w);
    }
  }

  lemma OnlyOneFails(c: Input, s: State, w: nat)
    requires Good(c) && Inv(c, s) && !SomeFailed(s) && w < c.workers
    ensures !SomeFailed(WholeStep(c, s, w))
  {
    hide RowsRight, LockRight, AddedTotal, Current, Sleepers, Wrap;
    var t := Step(c, s, w);
    OwnPlace(c, s, w);
    forall v | 0 <= v < c.workers && v != w ensures !t.places[v].Failed? { OthersStay(c, s, w, v); }
  }

  lemma {:induction false} WholeRunKeeps(c: Input, order: seq<nat>)
    requires Good(c) && Order(c, order)
    ensures Inv(c, WholeRun(c, order)) && Hopeful(c, WholeRun(c, order)) && !SomeFailed(WholeRun(c, order))
  {
    hide Inv, Hopeful, SomeFailed, WholeStep;
    if order == [] {
      StartInv(c);
      StartHopeful(c);
    } else {
      var l := |order| - 1;
      WholeRunKeeps(c, order[..l]);
      WholeStepKeeps(c, WholeRun(c, order[..l]), order[l]);
    }
  }

  lemma StartHopeful(c: Input)
    requires Good(c)
    ensures Hopeful(c, Start(c)) && !SomeFailed(Start(c))
  {
  }

  /** With whole attempts, some worker can move exactly while some worker is not done. */
  lemma NeverStuck(c: Input, order: seq<nat>)
    requires Good(c) && Order(c, order)
    ensures AllDone(WholeRun(c, order)) <==> forall w :: 0 <= w < c.workers ==> !Moves(WholeRun(c, order), w)
  {
    WholeRunKeeps(c, order);
    var s := WholeRun(c, order);
    if !AllDone(s) { var w := PickMover(c, s); }
  }

  /** With whole attempts, the workers can always be run to their ends. */
  lemma {:induction false} CanFinish(c: Input, order: seq<nat>) returns (all: seq<nat>)
    requires Good(c) && Order(c, order)
    ensures Order(c, all) && order <= all && AllDone(WholeRun(c, all))
    decreases StateLeft(c, WholeRun(c, order))
  {
    hide WholeRun, Hopeful, WholeStep, StateLeft, AllDone, Moves, SomeFailed, Inv;
    WholeRunKeeps(c, order);
    if AllDone(WholeRun(c, order)) {
      all := order;
    } else {
      var w := PickMover(c, WholeRun(c, order));
      WholeStepKeeps(c, WholeRun(c, order), w);
      OneMoreWhole(c, order, w);
      all := CanFinish(c, order + [w]);
    }
  }

  lemma OneMoreWhole(c: Input, order: seq<nat>, w: nat)
    requires Good(c) && Order(c, order) && w < c.workers
    ensures Order(c, order + [w]) && WholeRun(c, order + [w]) == WholeStep(c, WholeRun(c, order), w)
  {
    assert (order + [w])[..|order|] == order;
  }

  // ----- a lost wake-up

  /** The input of the run below, and its states: only the places, the lock and the queue change. */
  function TwoRows(): (c: Input)
    ensures Good(c)
  {
    Input([[], []], 0, 2)
  }

  function Scene(locked: bool, queue: seq<nat>, p: Place, q: Place): State {
    State([0, 0], 0, locked, queue, [p, q])
  }

  ghost predicate Reaches(order: seq<nat>, s: State) {
    Order(TwoRows(), order) && Run(TwoRows(), order) == s
  }

  lemma Go(order: seq<nat>, w: nat, longer: seq<nat>, s: State, t: State)
    requires Reaches(order, s) && w < 2 && Shaped(TwoRows(), s) && Step(TwoRows(), s, w) == t && longer == order + [w]
    ensures Reaches(longer, t)
  {
    OneMoreStep(TwoRows(), order, w);
  }

  /** Worker 0 takes the lock. */
  lemma FirstEnters()
    ensures Reaches([0, 0, 0], Scene(true, [], Entered(0), Adding(1, 0)))
  {
    assert Start(TwoRows()) == Scene(false, [], Adding(0, 0), Adding(1, 0));
    assert Reaches([], Scene(false, [], Adding(0, 0), Adding(1, 0)));
    hide Reaches;
    Go([], 0, [0], Scene(false, [], Adding(0, 0), Adding(1, 0)), Scene(false, [], Adding(2, 0), Adding(1, 0)));
    Go([0], 0, [0, 0], Scene(false, [], Adding(2, 0), Adding(1, 0)), Scene(false, [], Asking(0), Adding(1, 0)));
    Go([0, 0], 0, [0, 0, 0], Scene(false, [], Asking(0), Adding(1, 0)), Scene(true, [], Entered(0), Adding(1, 0)));
  }

  /** Worker 1 finds it taken. */
  lemma SecondFails()
    ensures Reaches([0, 0, 0, 1, 1, 1], Scene(true, [], Entered(0), Failed(1)))
  {
    hide Reaches;
    FirstEnters();
    Go([0, 0, 0], 1, [0, 0, 0, 1], Scene(true, [], Entered(0), Adding(1, 0)), Scene(true, [], Entered(0), Adding(3, 0)));
    Go([0, 0, 0, 1], 1, [0, 0, 0, 1, 1], Scene(true, [], Entered(0), Adding(3, 0)), Scene(true, [], Entered(0), Asking(1)));
    Go([0, 0, 0, 1, 1], 1, [0, 0, 0, 1, 1, 1], Scene(true, [], Entered(0), Asking(1)), Scene(true, [], Entered(0), Failed(1)));
  }

  /** Worker 0 stores its sum and releases the lock. */
  lemma FirstReleases()
    ensures Reaches([0, 0, 0, 1, 1, 1, 0, 0, 0], Scene(false, [], Released(0), Failed(1)))
  {
    hide Reaches;
    SecondFails();
    NothingYet(TwoRows());
    Go([0, 0, 0, 1, 1, 1], 0, [0, 0, 0, 1, 1, 1, 0],
       Scene(true, [], Entered(0), Failed(1)), Scene(true, [], SumLoaded(0, 0), Failed(1)));
    Go([0, 0, 0, 1, 1, 1, 0], 0, [0, 0, 0, 1, 1, 1, 0, 0],
       Scene(true, [], SumLoaded(0, 0), Failed(1)), Scene(true, [], Stored(0), Failed(1)));
    Go([0, 0, 0, 1, 1, 1, 0, 0], 0, [0, 0, 0, 1, 1, 1, 0, 0, 0],
       Scene(true, [], Stored(0), Failed(1)), Scene(false, [], Released(0), Failed(1)));
  }

  /** It wakes nobody and ends, and then worker 1 goes to sleep. */
  lemma SecondSleeps()
    ensures Reaches([0, 0, 0, 1, 1, 1, 0, 0, 0, 0, 0, 1], Scene(false, [1], Done, Sleeping(1)))
  {
    hide Reaches;
    FirstReleases();
    Go([0, 0, 0, 1, 1, 1, 0, 0, 0], 0, [0, 0, 0, 1, 1, 1, 0, 0, 0, 0],
       Scene(false, [], Released(0), Failed(1)), Scene(false, [], Asking(2), Failed(1)));
    Go([0, 0, 0, 1, 1, 1, 0, 0, 0, 0], 0, [0, 0, 0, 1, 1, 1, 0, 0, 0, 0, 0],
       Scene(false, [], Asking(2), Failed(1)), Scene(false, [], Done, Failed(1)));
    Go([0, 0, 0, 1, 1, 1, 0, 0, 0, 0, 0], 1, [0, 0, 0, 1, 1, 1, 0, 0, 0, 0, 0, 1],
       Scene(false, [], Done, Failed(1)), Scene(false, [1], Done, Sleeping(1)));
  }

  /** Two workers with a row each: worker 1 finds the lock taken, worker 0 releases it, wakes nobody and ends,
      and then worker 1 goes to sleep on a free lock, for ever. */
  lemma SleepsForEver()
    ensures var order := [0, 0, 0, 1, 1, 1, 0, 0, 0, 0, 0, 1];
            && Reaches(order, Scene(false, [1], Done, Sleeping(1)))
            && !exists all :: Order(TwoRows(), all) && order <= all && AllDone(Run(TwoRows(), all))
  {
    var order := [0, 0, 0, 1, 1, 1, 0, 0, 0, 0, 0, 1];
    SecondSleeps();
    hide Run;
    assert !Hopeful(TwoRows(), Scene(false, [1], Done, Sleeping(1)));
    FinishExactly(TwoRows(), order);
  }
}
