/** The strided parallel sum of Benchmark/parallelCal.c: workers whose loads, stores, lock and unlock steps
    interleave in any order, against the sequential sum. Additions and multiplications wrap at 32 bits. */
module ParallelSum {

  /** The matrix, its number of columns, and the number of workers. */
  datatype Input = Input(a: seq<seq<int>>, cols: nat, workers: nat)

  predicate Good(c: Input) {
    1 <= c.workers && forall j :: 0 <= j < |c.a| ==> |c.a[j]| == c.cols
  }

  /** Two's complement at 32 bits: congruent to the number, and the number itself when that fits. */
  function Wrap(x: int): (r: int)
    ensures -0x8000_0000 <= r < 0x8000_0000 && (r - x) % 0x1_0000_0000 == 0
    ensures -0x8000_0000 <= x < 0x8000_0000 ==> r == x
  {
    (x + 0x8000_0000) % 0x1_0000_0000 - 0x8000_0000
  }

  /** The sum over the first `i` columns of row `j`, unbounded. */
  function RowTotal(c: Input, j: nat, i: nat): int
    requires Good(c) && j < |c.a| && i <= c.cols
  {
    if i == 0 then 0 else RowTotal(c, j, i - 1) + c.a[j][i - 1] * (i - 1)
  }

  /** The sum over the first `k` rows, unbounded. */
  function GrandTotal(c: Input, k: nat): int
    requires Good(c) && k <= |c.a|
  {
    if k == 0 then 0 else GrandTotal(c, k - 1) + RowTotal(c, k - 1, c.cols)
  }

  /** `r` is what a 32-bit sum with the exact value `x` holds. */
  predicate Holds32(r: int, x: int) {
    && -0x8000_0000 <= r < 0x8000_0000 && (r - x) % 0x1_0000_0000 == 0
    && (-0x8000_0000 <= x < 0x8000_0000 ==> r == x)
  }

  /** Six times the sum of the squares below `n`. */
  function SixSquares(n: int): int {
    (n - 1) * n * (2 * n - 1)
  }

  lemma OneMoreSquare(m: int)
    ensures SixSquares(m + 1) == SixSquares(m) + 6 * (m * m)
  {
    var s := m * m;
    assert m * (m + 1) == s + m && (m - 1) * m == s - m;
    assert (s + m) * (2 * m + 1) == 2 * (s * m) + 3 * s + m by { Product(s, m, 1); }
    assert (s - m) * (2 * m - 1) == 2 * (s * m) - 3 * s + m by { Product(s, m, -1); }
  }

  lemma Product(s: int, m: int, e: int)
    requires s == m * m && (e == 1 || e == -1)
    ensures (s + e * m) * (2 * m + e) == 2 * (s * m) + 3 * e * s + m
  {
    assert (s + e * m) * (2 * m + e) == (s + e * m) * (2 * m) + (s + e * m) * e;
    assert (s + e * m) * (2 * m) == 2 * (s * m) + 2 * e * s by {
      assert (s + e * m) * m == s * m + (e * m) * m;
      assert (e * m) * m == e * s;
    }
  }

  /** On the benchmark's own matrix, whose every row counts up from 0, a row sums the squares below its length. */
  lemma {:induction false} RowOfSquares(c: Input, j: nat, n: nat)
    requires Good(c) && j < |c.a| && n <= c.cols && forall i :: 0 <= i < c.cols ==> c.a[j][i] == i
    ensures 6 * RowTotal(c, j, n) == SixSquares(n)
  {
    if n == 0 {
      assert SixSquares(0) == 0;
    } else {
      RowOfSquares(c, j, n - 1);
      OneMoreSquare(n - 1);
      hide SixSquares;
      assert c.a[j][n - 1] * (n - 1) == (n - 1) * (n - 1);
    }
  }

  /** So the benchmark adds up the squares below the number of columns, once for each row. */
  lemma {:induction false} BenchmarkTotal(c: Input, k: nat)
    requires Good(c) && k <= |c.a| && forall j, i :: 0 <= j < |c.a| && 0 <= i < c.cols ==> c.a[j][i] == i
    ensures 6 * GrandTotal(c, k) == k * SixSquares(c.cols)
  {
    hide SixSquares, RowTotal;
    if k != 0 {
      BenchmarkTotal(c, k - 1);
      RowOfSquares(c, k - 1, c.cols);
      OneMoreTime(k - 1, SixSquares(c.cols));
    }
  }

  lemma OneMoreTime(k: nat, x: int)
    ensures k * x + x == (k + 1) * x
  {
  }

  // ----- the workers

  /** Where a worker stands: before or between the load and the store of a row's accumulator; about to test
      the lock, after a test that failed, or asleep in the lock's queue; before or between the load and the
      store of the shared sum; about to release the lock; about to wake the first sleeper. */
  datatype Place =
    | Adding(j: nat, i: nat)
    | RowLoaded(j: nat, i: nat, value: int)
    | Asking(j: nat)
    | Failed(j: nat)
    | Sleeping(j: nat)
    | Entered(j: nat)
    | SumLoaded(j: nat, value: int)
    | Stored(j: nat)
    | Released(j: nat)
    | Done

  datatype State = State(pSum: seq<int>, sum: int, locked: bool, queue: seq<nat>, places: seq<Place>)

  predicate Critical(q: Place) {
    q.Entered? || q.SumLoaded? || q.Stored?
  }

  predicate InRange(c: Input, q: Place) {
    match q
    case RowLoaded(j, i, _) => j < |c.a| && i < c.cols
    case Adding(_, i) => i <= c.cols
    case Asking(_) => true
    case Done => true
    case _ => q.j < |c.a|
  }

  predicate Shaped(c: Input, s: State) {
    && |s.pSum| == |c.a| && |s.places| == c.workers
    && (forall w :: 0 <= w < c.workers ==> InRange(c, s.places[w]))
    && (forall n :: 0 <= n < |s.queue| ==> s.queue[n] < c.workers)
  }

  function Start(c: Input): State {
    State(seq(|c.a|, _ => 0), 0, false, [], seq(c.workers, w requires 0 <= w => Adding(w, 0)))
  }

  /** One step of worker `w`. A failed test and the move to the lock's queue are two steps, and so are the
      release of the lock and the waking of a sleeper. A sleeping worker takes no step. */
  function Step(c: Input, s: State, w: nat): (t: State)
    requires Good(c) && Shaped(c, s) && w < c.workers
    ensures Shaped(c, t)
  {
    match s.places[w]
    case Adding(j, i) =>
      At(s, w, if |c.a| <= j then Asking(w)
               else if i == c.cols then Adding(j + c.workers, 0)
               else RowLoaded(j, i, s.pSum[j]))
    case RowLoaded(j, i, value) =>
      At(s, w, Adding(j, i + 1)).(pSum := s.pSum[j := Wrap(value + Wrap(c.a[j][i] * i))])
    case Asking(j) =>
      if |c.a| <= j then At(s, w, Done)
      else if s.locked then At(s, w, Failed(j))
      else At(s, w, Entered(j)).(locked := true)
    case Failed(j) => At(s, w, Sleeping(j)).(queue := s.queue + [w])
    case Sleeping(_) => s
    case Entered(j) => At(s, w, SumLoaded(j, s.sum))
    case SumLoaded(j, value) => At(s, w, Stored(j)).(sum := Wrap(value + s.pSum[j]))
    case Stored(j) => At(s, w, Released(j)).(locked := false)
    case Released(j) => Wake(c, At(s, w, Asking(j + c.workers)))
    case Done => s
  }

  function At(s: State, w: nat, q: Place): State
    requires w < |s.places|
  {
    s.(places := s.places[w := q])
  }

  /** The first sleeper, if any, tests the lock again. */
  function Wake(c: Input, s: State): (t: State)
    requires Shaped(c, s)
    ensures Shaped(c, t)
  {
    if s.queue == [] then s
    else
      var h := s.queue[0];
      s.(queue := s.queue[1..], places := s.places[h := Awake(s.places[h])])
  }

  function Awake(q: Place): Place {
    if q.Sleeping? then Asking(q.j) else q
  }

  predicate Order(c: Input, order: seq<nat>) {
    forall n :: 0 <= n < |order| ==> order[n] < c.workers
  }

  /** The state after the workers have stepped in the order given. */
  function Run(c: Input, order: seq<nat>): (s: State)
    requires Good(c) && Order(c, order)
    ensures Shaped(c, s)
  {
    if order == [] then Start(c) else Step(c, Run(c, order[..|order| - 1]), order[|order| - 1])
  }

  predicate AllDone(s: State) {
    forall w :: 0 <= w < |s.places| ==> s.places[w] == Done
  }

  // ----- the invariant

  /** The worker that row `j` belongs to. */
  function Owner(c: Input, j: nat): (w: nat)
    requires Good(c)
    ensures w < c.workers
  {
    j % c.workers
  }

  /** How many columns the owner at `q` has added to row `j`. */
  function Columns(c: Input, q: Place, j: nat): (n: nat)
    requires InRange(c, q)
    ensures n <= c.cols
  {
    match q
    case Adding(k, i) => if j < k then c.cols else if j == k then i else 0
    case RowLoaded(k, i, _) => if j < k then c.cols else if j == k then i else 0
    case _ => c.cols
  }

  /** Whether the owner at `q` has added row `j` to the shared sum. */
  predicate Added(q: Place, j: nat) {
    match q
    case Adding(_, _) => false
    case RowLoaded(_, _, _) => false
    case Stored(k) => j <= k
    case Released(k) => j <= k
    case Done => true
    case _ => j < q.j
  }

  /** The rows below `k` that have been added to the shared sum. */
  function AddedTotal(c: Input, places: seq<Place>, k: nat): int
    requires Good(c) && |places| == c.workers && k <= |c.a|
  {
    if k == 0 then 0
    else AddedTotal(c, places, k - 1) + if Added(places[Owner(c, k - 1)], k - 1) then RowTotal(c, k - 1, c.cols) else 0
  }

  /** A worker works on its own rows, and a loaded value is still the value stored. */
  predicate Current(c: Input, s: State, w: nat)
    requires Good(c) && Shaped(c, s) && w < c.workers
  {
    match s.places[w]
    case RowLoaded(j, _, value) => Owner(c, j) == w && value == s.pSum[j]
    case SumLoaded(j, value) => Owner(c, j) == w && value == s.sum
    case Done => true
    case q => Owner(c, q.j) == w
  }

  ghost predicate RowsRight(c: Input, s: State)
    requires Good(c) && Shaped(c, s)
  {
    forall j :: 0 <= j < |c.a| ==> s.pSum[j] == Wrap(RowTotal(c, j, Columns(c, s.places[Owner(c, j)], j)))
  }

  /** The lock is taken exactly while one worker, and no other, is in its critical section. */
  ghost predicate LockRight(s: State) {
    && (s.locked <==> exists w :: 0 <= w < |s.places| && Critical(s.places[w]))
    && forall v, w :: 0 <= v < w < |s.places| ==> !(Critical(s.places[v]) && Critical(s.places[w]))
  }

  /** The queue holds the sleeping workers, each once. */
  ghost predicate Sleepers(queue: seq<nat>, places: seq<Place>) {
    && (forall m, n :: 0 <= m < n < |queue| ==> queue[m] != queue[n])
    && (forall w :: 0 <= w < |places| ==> (w in queue <==> places[w].Sleeping?))
  }

  ghost predicate QueueRight(s: State) {
    Sleepers(s.queue, s.places)
  }

  ghost predicate Inv(c: Input, s: State)
    requires Good(c)
  {
    && Shaped(c, s) && QueueRight(s)
    && (forall w :: 0 <= w < c.workers ==> Current(c, s, w))
    && RowsRight(c, s)
    && LockRight(s)
    && s.sum == Wrap(AddedTotal(c, s.places, |c.a|))
  }

  // ----- arithmetic

  lemma WrapShift(x: int, d: int)
    ensures Wrap(x + d * 0x1_0000_0000) == Wrap(x)
  {
  }

  lemma WrapAdd(x: int, y: int)
    ensures Wrap(Wrap(x) + y) == Wrap(x + y)
    ensures Wrap(x + Wrap(y)) == Wrap(x + y)
  {
    var d, e := (x + 0x8000_0000) / 0x1_0000_0000, (y + 0x8000_0000) / 0x1_0000_0000;
    assert x == Wrap(x) + d * 0x1_0000_0000 && y == Wrap(y) + e * 0x1_0000_0000;
    WrapShift(Wrap(x) + y, d);
    WrapShift(x + Wrap(y), e);
  }

  lemma AddColumn(c: Input, j: nat, i: nat)
    requires Good(c) && j < |c.a| && i < c.cols
    ensures Wrap(Wrap(RowTotal(c, j, i)) + Wrap(c.a[j][i] * i)) == Wrap(RowTotal(c, j, i + 1))
  {
    WrapAdd(RowTotal(c, j, i), Wrap(c.a[j][i] * i));
    WrapAdd(RowTotal(c, j, i), c.a[j][i] * i);
  }

  lemma AddRow(c: Input, j: nat)
    requires Good(c) && j < |c.a|
    ensures Wrap(Wrap(GrandTotal(c, j)) + Wrap(RowTotal(c, j, c.cols))) == Wrap(GrandTotal(c, j + 1))
  {
    WrapAdd(GrandTotal(c, j), Wrap(RowTotal(c, j, c.cols)));
    WrapAdd(GrandTotal(c, j), RowTotal(c, j, c.cols));
  }

  lemma OwnerNext(c: Input, j: nat)
    requires Good(c)
    ensures Owner(c, j + c.workers) == Owner(c, j)
  {
    Multiples(c, j, j + c.workers);
  }

  /** Two rows of one worker are a stride apart. */
  lemma OwnerGap(c: Input, j: nat, k: nat)
    requires Good(c) && Owner(c, j) == Owner(c, k) && j < k
    ensures j + c.workers <= k
  {
    Multiples(c, j, k);
  }

  lemma Multiples(c: Input, j: nat, k: nat)
    requires Good(c) && j < k
    ensures Owner(c, j) == Owner(c, k) ==> j + c.workers <= k
    ensures k == j + c.workers ==> Owner(c, j) == Owner(c, k)
  {
    var t := c.workers;
    var d := k / t - j / t;
    assert k - j == d * t + (k % t - j % t) by {
      assert k == t * (k / t) + k % t && j == t * (j / t) + j % t;
    }
    if d <= 0 {
      assert d * t <= 0;
    } else {
      assert t <= d * t by { assert 0 <= (d - 1) * t; }
      if 2 <= d { assert 2 * t <= d * t by { assert 0 <= (d - 2) * t; } }
    }
  }

  lemma {:induction false} SameAdded(c: Input, places: seq<Place>, places': seq<Place>, k: nat)
    requires Good(c) && |places| == |places'| == c.workers && k <= |c.a|
    requires forall j :: 0 <= j < k ==> Added(places[Owner(c, j)], j) == Added(places'[Owner(c, j)], j)
    ensures AddedTotal(c, places, k) == AddedTotal(c, places', k)
  {
    if k != 0 {
      SameAdded(c, places, places', k - 1);
    }
  }

  lemma {:induction false} OneMoreAdded(c: Input, places: seq<Place>, places': seq<Place>, r: nat, k: nat)
    requires Good(c) && |places| == |places'| == c.workers && r < k <= |c.a|
    requires !Added(places[Owner(c, r)], r) && Added(places'[Owner(c, r)], r)
    requires forall j :: 0 <= j < k && j != r ==> Added(places[Owner(c, j)], j) == Added(places'[Owner(c, j)], j)
    ensures AddedTotal(c, places', k) == AddedTotal(c, places, k) + RowTotal(c, r, c.cols)
  {
    if r == k - 1 {
      SameAdded(c, places, places', r);
    } else {
      OneMoreAdded(c, places, places', r, k - 1);
    }
  }

  // ----- every step keeps the invariant

  /** Another worker is where it was, or has just been woken. */
  lemma OthersStay(c: Input, s: State, w: nat, v: nat)
    requires Good(c) && Shaped(c, s) && QueueRight(s) && w < c.workers && v < c.workers && v != w
    ensures var t := Step(c, s, w);
            t.places[v] == s.places[v]
            || (s.places[w].Released? && s.queue != [] && v == s.queue[0]
                && s.places[v].Sleeping? && t.places[v] == Asking(s.places[v].j))
  {
    if s.queue != [] { assert s.queue[0] in s.queue; }
  }

  /** Where the worker that steps goes: nobody else moves it. */
  lemma OwnPlace(c: Input, s: State, w: nat)
    requires Good(c) && Shaped(c, s) && QueueRight(s) && w < c.workers
    ensures s.places[w].Released? ==> Step(c, s, w).places[w] == Asking(s.places[w].j + c.workers)
  {
    if s.queue != [] { assert s.queue[0] in s.queue; }
  }

  lemma StepQueue(c: Input, s: State, w: nat)
    requires Good(c) && Shaped(c, s) && QueueRight(s) && w < c.workers
    ensures QueueRight(Step(c, s, w))
  {
    hide Sleepers, Wrap;
    var t := Step(c, s, w);
    match s.places[w]
    case Sleeping(_) =>
    case Done =>
    case Failed(j) => SleepersGrow(s.queue, s.places, w);
    case Released(j) =>
      SleepersStay(s.queue, s.places, w, Asking(j + c.workers));
      SleepersFall(c, At(s, w, Asking(j + c.workers)));
    case _ => SleepersStay(s.queue, s.places, w, t.places[w]);
  }

  lemma SleepersStay(queue: seq<nat>, places: seq<Place>, w: nat, q: Place)
    requires Sleepers(queue, places) && w < |places| && !places[w].Sleeping? && !q.Sleeping?
    ensures Sleepers(queue, places[w := q])
  {
  }

  lemma SleepersGrow(queue: seq<nat>, places: seq<Place>, w: nat)
    requires Sleepers(queue, places) && w < |places| && places[w].Failed?
    ensures Sleepers(queue + [w], places[w := Sleeping(places[w].j)])
  {
    assert w !in queue;
  }

  lemma SleepersFall(c: Input, s: State)
    requires Shaped(c, s) && QueueRight(s)
    ensures QueueRight(Wake(c, s))
  {
    if s.queue != [] {
      assert s.queue == [s.queue[0]] + s.queue[1..];
      assert s.queue[0] !in s.queue[1..];
    }
  }

  lemma StepCurrent(c: Input, s: State, w: nat, v: nat)
    requires Good(c) && Inv(c, s) && w < c.workers && v < c.workers
    ensures Current(c, Step(c, s, w), v)
  {
    hide RowsRight, AddedTotal, Owner, QueueRight;
    var t := Step(c, s, w);
    assert Current(c, s, w) && Current(c, s, v);
    if v == w {
      OwnPlace(c, s, w);
      match s.places[w]
      case Adding(j, i) =>
        OwnerNext(c, j);
        OwnerSmall(c, w);
      case Released(j) => OwnerNext(c, j);
      case _ =>
    } else {
      OthersStay(c, s, w, v);
      assert s.places[v].RowLoaded? && s.places[w].RowLoaded? ==> s.places[v].j != s.places[w].j;
    }
  }

  lemma OwnerSmall(c: Input, w: nat)
    requires Good(c) && w < c.workers
    ensures Owner(c, w) == w
  {
  }

  /** A row's accumulator is written by its owner alone. */
  lemma OnlyOwnerWrites(c: Input, s: State, w: nat, j: nat)
    requires Good(c) && Inv(c, s) && w < c.workers && j < |c.a|
    ensures Step(c, s, w).pSum[j] != s.pSum[j] ==> Owner(c, j) == w
  {
    assert Current(c, s, w);
  }

  lemma StepRow(c: Input, s: State, w: nat, j: nat)
    requires Good(c) && Inv(c, s) && w < c.workers && j < |c.a|
    ensures Step(c, s, w).pSum[j] == Wrap(RowTotal(c, j, Columns(c, Step(c, s, w).places[Owner(c, j)], j)))
  {
    hide AddedTotal, LockRight, Wrap, Owner, QueueRight;
    assert Current(c, s, w);
    OnlyOwnerWrites(c, s, w, j);
    assert s.pSum[j] == Wrap(RowTotal(c, j, Columns(c, s.places[Owner(c, j)], j)));
    if Owner(c, j) == w {
      OwnPlace(c, s, w);
      match s.places[w]
      case Adding(k, i) =>
        if k < j { OwnerGap(c, k, j); }
        OwnRowsOnly(c, w, j);
      case RowLoaded(k, i, value) =>
        if k == j {
          AddColumn(c, j, i);
        }
      case _ =>
    } else {
      OthersStay(c, s, w, Owner(c, j));
    }
  }

  lemma OwnRowsOnly(c: Input, w: nat, j: nat)
    requires Good(c) && w < c.workers && Owner(c, j) == w
    ensures w <= j
  {
  }

  lemma StepLock(c: Input, s: State, w: nat)
    requires Good(c) && Inv(c, s) && w < c.workers
    ensures LockRight(Step(c, s, w))
  {
    hide RowsRight, AddedTotal, Current, QueueRight;
    var t := Step(c, s, w);
    OwnPlace(c, s, w);
    forall v | 0 <= v < c.workers && v != w ensures Critical(t.places[v]) == Critical(s.places[v]) {
      OthersStay(c, s, w, v);
    }
    if Critical(t.places[w]) {
      assert t.locked;
    } else if Critical(s.places[w]) {
      assert !t.locked;
    } else {
      assert t.locked == s.locked;
    }
  }

  lemma StepSum(c: Input, s: State, w: nat)
    requires Good(c) && Inv(c, s) && w < c.workers
    ensures Step(c, s, w).sum == Wrap(AddedTotal(c, Step(c, s, w).places, |c.a|))
  {
    hide LockRight, Wrap, Owner, AddedTotal, Columns, QueueRight;
    var t := Step(c, s, w);
    assert Current(c, s, w);
    forall v | 0 <= v < c.workers && v != w ensures forall j :: Added(t.places[v], j) == Added(s.places[v], j) {
      OthersStay(c, s, w, v);
    }
    if s.places[w].SumLoaded? {
      RowAdded(c, s, w);
    } else {
      forall j | 0 <= j < |c.a| ensures Added(s.places[Owner(c, j)], j) == Added(t.places[Owner(c, j)], j) {
        if Owner(c, j) == w {
          OwnPlace(c, s, w);
          OwnRowsOnly(c, w, j);
          NoRowBetween(c, s.places[w], w, j);
        }
      }
      SameAdded(c, s.places, t.places, |c.a|);
    }
  }

  lemma RowAdded(c: Input, s: State, w: nat)
    requires Good(c) && Inv(c, s) && w < c.workers && s.places[w].SumLoaded?
    ensures Step(c, s, w).sum == Wrap(AddedTotal(c, Step(c, s, w).places, |c.a|))
  {
    hide LockRight, Wrap, Owner, AddedTotal, QueueRight;
    var t, r := Step(c, s, w), s.places[w].j;
    assert Current(c, s, w);
    forall j | 0 <= j < |c.a| && j != r ensures Added(s.places[Owner(c, j)], j) == Added(t.places[Owner(c, j)], j) {}
    OneMoreAdded(c, s.places, t.places, r, |c.a|);
    WrapAdd(AddedTotal(c, s.places, |c.a|), s.pSum[r]);
    WrapAdd(AddedTotal(c, s.places, |c.a|), RowTotal(c, r, c.cols));
  }

  lemma NoRowBetween(c: Input, q: Place, w: nat, j: nat)
    requires Good(c) && w < c.workers && Owner(c, j) == w && (q.Released? ==> Owner(c, q.j) == w)
    ensures q.Released? ==> (j <= q.j <==> j < q.j + c.workers)
  {
    if q.Released? && q.j < j { OwnerGap(c, q.j, j); }
  }

  lemma StepKeeps(c: Input, s: State, w: nat)
    requires Good(c) && Inv(c, s) && w < c.workers
    ensures Inv(c, Step(c, s, w))
  {
    hide Current, LockRight, Owner, AddedTotal, Step, QueueRight;
    forall v | 0 <= v < c.workers ensures Current(c, Step(c, s, w), v) { StepCurrent(c, s, w, v); }
    forall j | 0 <= j < |c.a|
      ensures Step(c, s, w).pSum[j] == Wrap(RowTotal(c, j, Columns(c, Step(c, s, w).places[Owner(c, j)], j)))
    {
      StepRow(c, s, w, j);
    }
    StepQueue(c, s, w);
    StepLock(c, s, w);
    StepSum(c, s, w);
  }

  lemma StartInv(c: Input)
    requires Good(c)
    ensures Inv(c, Start(c))
  {
    var s := Start(c);
    forall w | 0 <= w < c.workers ensures Current(c, s, w) { OwnerSmall(c, w); }
    forall j | 0 <= j < |c.a| ensures s.pSum[j] == Wrap(RowTotal(c, j, Columns(c, s.places[Owner(c, j)], j))) {
      OwnRowsOnly(c, Owner(c, j), j);
    }
    NothingAdded(c, s.places, |c.a|);
  }

  lemma {:induction false} NothingAdded(c: Input, places: seq<Place>, k: nat)
    requires Good(c) && |places| == c.workers && k <= |c.a|
    requires forall w :: 0 <= w < c.workers ==> places[w].Adding?
    ensures AddedTotal(c, places, k) == 0
  {
    if k != 0 {
      NothingAdded(c, places, k - 1);
    }
  }

  lemma {:induction false} EverythingAdded(c: Input, places: seq<Place>, k: nat)
    requires Good(c) && |places| == c.workers && k <= |c.a|
    requires forall w :: 0 <= w < c.workers ==> places[w].Done?
    ensures AddedTotal(c, places, k) == GrandTotal(c, k)
  {
    if k != 0 {
      EverythingAdded(c, places, k - 1);
    }
  }

  lemma {:induction false} RunInv(c: Input, order: seq<nat>)
    requires Good(c) && Order(c, order)
    ensures Inv(c, Run(c, order))
  {
    if order == [] {
      StartInv(c);
    } else {
      RunInv(c, order[..|order| - 1]);
      StepKeeps(c, Run(c, order[..|order| - 1]), order[|order| - 1]);
    }
  }

  // ----- what holds of every interleaving

  /** Once all workers are done, the shared sum and the row sums are those of the sequential computation. */
  lemma ParallelIsSequential(c: Input, order: seq<nat>)
    requires Good(c) && Order(c, order) && AllDone(Run(c, order))
    ensures Run(c, order).sum == Wrap(GrandTotal(c, |c.a|))
    ensures forall j :: 0 <= j < |c.a| ==> Run(c, order).pSum[j] == Wrap(RowTotal(c, j, c.cols))
    ensures Holds32(Run(c, order).sum, GrandTotal(c, |c.a|))
    ensures forall j :: 0 <= j < |c.a| ==> Holds32(Run(c, order).pSum[j], RowTotal(c, j, c.cols))
  {
    hide Run, Inv;
    RunInv(c, order);
    DoneSums(c, Run(c, order));
  }

  lemma DoneSums(c: Input, s: State)
    requires Good(c) && Inv(c, s) && AllDone(s)
    ensures s.sum == Wrap(GrandTotal(c, |c.a|)) && Holds32(s.sum, GrandTotal(c, |c.a|))
    ensures forall j :: 0 <= j < |c.a| ==> s.pSum[j] == Wrap(RowTotal(c, j, c.cols)) && Holds32(s.pSum[j], RowTotal(c, j, c.cols))
  {
    hide Wrap, LockRight, Sleepers, Current, RowTotal, GrandTotal;
    EverythingAdded(c, s.places, |c.a|);
  }

  /** At most one worker is between its lock and its unlock. */
  lemma OneInCriticalSection(c: Input, order: seq<nat>, v: nat, w: nat)
    requires Good(c) && Order(c, order) && v < c.workers && w < c.workers
    requires Critical(Run(c, order).places[v]) && Critical(Run(c, order).places[w])
    ensures v == w
  {
    RunInv(c, order);
  }

  /** In a run too, a row's accumulator is written by its owner alone. */
  lemma RowWrittenByOwner(c: Input, order: seq<nat>, w: nat, j: nat)
    requires Good(c) && Order(c, order) && w < c.workers && j < |c.a| && Owner(c, j) != w
    ensures Step(c, Run(c, order), w).pSum[j] == Run(c, order).pSum[j]
  {
    RunInv(c, order);
    OnlyOwnerWrites(c, Run(c, order), w, j);
  }

  lemma OneMoreStep(c: Input, order: seq<nat>, w: nat)
    requires Good(c) && Order(c, order) && w < c.workers
    ensures Order(c, order + [w]) && Run(c, order + [w]) == Step(c, Run(c, order), w)
  {
    assert (order + [w])[..|order|] == order;
  }

  // ----- the code

  /** `m` steps of worker `n` and of no other. */
  ghost function Alone(c: Input, s: State, n: nat, m: nat): (t: State)
    requires Good(c) && Shaped(c, s) && n < c.workers
    ensures Shaped(c, t)
  {
    if m == 0 then s else Step(c, Alone(c, s, n, m - 1), n)
  }

  /** Steps of one worker alone are part of an interleaving. */
  lemma {:induction false} AloneIsRun(c: Input, order: seq<nat>, n: nat, m: nat)
    requires Good(c) && Order(c, order) && n < c.workers
    ensures Order(c, order + seq(m, _ => n))
    ensures Alone(c, Run(c, order), n, m) == Run(c, order + seq(m, _ => n))
  {
    hide Step, Run;
    if m == 0 {
      assert order + seq(m, _ => n) == order;
    } else {
      AloneIsRun(c, order, n, m - 1);
      OneMoreStep(c, order + seq(m - 1, _ => n), n);
      assert order + seq(m, _ => n) == order + seq(m - 1, _ => n) + [n];
    }
  }

  /** Adding one product takes two steps. */
  lemma AddAlone(c: Input, s: State, n: nat, m: nat, j: nat, i: nat)
    requires Good(c) && Shaped(c, s) && n < c.workers && j < |c.a| && i < c.cols
    requires Alone(c, s, n, m).places[n] == Adding(j, i)
    ensures var t := Alone(c, s, n, m);
            Alone(c, s, n, m + 2) == At(t, n, Adding(j, i + 1)).(pSum := t.pSum[j := Wrap(t.pSum[j] + Wrap(c.a[j][i] * i))])
  {
    hide Wrap, Alone;
    AloneStep(c, s, n, m);
    AloneStep(c, s, n, m + 1);
  }

  /** The critical section takes five, nobody being asleep. */
  lemma CriticalAlone(c: Input, s: State, n: nat, m: nat, j: nat)
    requires Good(c) && Shaped(c, s) && n < c.workers && j < |c.a|
    requires Alone(c, s, n, m).places[n] == Asking(j) && !Alone(c, s, n, m).locked && Alone(c, s, n, m).queue == []
    ensures var t := Alone(c, s, n, m);
            Alone(c, s, n, m + 5) == At(t, n, Asking(j + c.workers)).(sum := Wrap(t.sum + t.pSum[j]))
  {
    hide Wrap, Alone;
    var t := Alone(c, s, n, m);
    AloneStep(c, s, n, m);
    AloneStep(c, s, n, m + 1);
    AloneStep(c, s, n, m + 2);
    AloneStep(c, s, n, m + 3);
    AloneStep(c, s, n, m + 4);
    assert Alone(c, s, n, m + 1) == At(t, n, Entered(j)).(locked := true);
    assert Alone(c, s, n, m + 2) == At(t, n, SumLoaded(j, t.sum)).(locked := true);
    assert Alone(c, s, n, m + 3) == At(t, n, Stored(j)).(locked := true, sum := Wrap(t.sum + t.pSum[j]));
    assert Alone(c, s, n, m + 4) == At(t, n, Released(j)).(sum := Wrap(t.sum + t.pSum[j]));
  }

  lemma AloneStep(c: Input, s: State, n: nat, m: nat)
    requires Good(c) && Shaped(c, s) && n < c.workers
    ensures Alone(c, s, n, m + 1) == Step(c, Alone(c, s, n, m), n)
  {
  }

  lemma AloneStart(c: Input, s: State, n: nat)
    requires Good(c) && Shaped(c, s) && n < c.workers
    ensures Alone(c, s, n, 0) == s
  {
  }

  /** Leaving a loop takes one. */
  lemma TurnAlone(c: Input, s: State, n: nat, m: nat)
    requires Good(c) && Shaped(c, s) && n < c.workers
    ensures var t := Alone(c, s, n, m);
            match t.places[n]
            case Adding(j, i) =>
              (|c.a| <= j ==> Alone(c, s, n, m + 1) == At(t, n, Asking(n)))
              && (j < |c.a| && i == c.cols ==> Alone(c, s, n, m + 1) == At(t, n, Adding(j + c.workers, 0)))
            case Asking(j) => |c.a| <= j ==> Alone(c, s, n, m + 1) == At(t, n, Done)
            case _ => true
  {
    hide Wrap, Alone;
    AloneStep(c, s, n, m);
  }

  lemma {:induction false} AloneKeeps(c: Input, s: State, n: nat, m: nat)
    requires Good(c) && Inv(c, s) && n < c.workers
    ensures Inv(c, Alone(c, s, n, m))
  {
    hide RowsRight, LockRight, AddedTotal, Current, Sleepers, Step;
    if m != 0 {
      AloneKeeps(c, s, n, m - 1);
      StepKeeps(c, Alone(c, s, n, m - 1), n);
    }
  }

  /** A worker that is done has left the sums of its rows. */
  lemma OwnRowsDone(c: Input, s: State, n: nat, m: nat)
    requires Good(c) && Inv(c, s) && n < c.workers && Alone(c, s, n, m).places[n] == Done
    ensures Inv(c, Alone(c, s, n, m))
    ensures forall j :: 0 <= j < |c.a| && Owner(c, j) == n ==> Holds32(Alone(c, s, n, m).pSum[j], RowTotal(c, j, c.cols))
  {
    hide Alone, Wrap, RowTotal, LockRight, AddedTotal, Current;
    AloneKeeps(c, s, n, m);
  }

  class Benchmark {
    const c: Input
    const pSum: array<int>
    var sum: int
    var locked: bool

    ghost predicate Valid() {
      Good(c) && pSum.Length == |c.a|
    }

    /** The shared variables are those of machine state `s`. */
    ghost predicate Shows(s: State)
      reads this, pSum
    {
      s.pSum == pSum[..] && s.sum == sum && s.locked == locked
    }

    constructor (c: Input)
      requires Good(c)
      ensures Valid() && this.c == c && Shows(Start(c)) && fresh(pSum)
    {
      this.c := c;
      pSum := new int[|c.a|](_ => 0);
      sum := 0;
      locked := false;
    }

    /** verify: the sequential sum of everything. */
    method Verify()
      requires Valid()
      modifies this`sum, pSum
      ensures sum == Wrap(GrandTotal(c, |c.a|))
      ensures forall j :: 0 <= j < |c.a| ==> pSum[j] == Wrap(RowTotal(c, j, c.cols))
      ensures Holds32(sum, GrandTotal(c, |c.a|))
      ensures forall j :: 0 <= j < |c.a| ==> Holds32(pSum[j], RowTotal(c, j, c.cols))
    {
      hide Wrap, RowTotal, GrandTotal;
      sum := 0;
      forall j | 0 <= j < pSum.Length { pSum[j] := 0; }
      NothingYet(c);
      var j := 0;
      while j < |c.a|
        invariant 0 <= j <= |c.a| && sum == 0
        invariant forall k :: 0 <= k < j ==> pSum[k] == Wrap(RowTotal(c, k, c.cols))
        invariant forall k :: j <= k < |c.a| ==> pSum[k] == 0
      {
        var i := 0;
        while i < c.cols
          invariant 0 <= i <= c.cols && sum == 0 && pSum[j] == Wrap(RowTotal(c, j, i))
          invariant forall k :: 0 <= k < j ==> pSum[k] == Wrap(RowTotal(c, k, c.cols))
          invariant forall k :: j < k < |c.a| ==> pSum[k] == 0
        {
          AddColumn(c, j, i);
          pSum[j] := Wrap(pSum[j] + Wrap(c.a[j][i] * i));
          i := i + 1;
        }
        j := j + 1;
      }
      j := 0;
      while j < |c.a|
        invariant 0 <= j <= |c.a| && sum == Wrap(GrandTotal(c, j))
        invariant forall k :: 0 <= k < |c.a| ==> pSum[k] == Wrap(RowTotal(c, k, c.cols))
      {
        AddRow(c, j);
        sum := Wrap(sum + pSum[j]);
        j := j + 1;
      }
    }

    /** parallel_calculate, run by worker `n` with nobody interrupting and nobody asleep: it takes the steps of the machine's
        worker `n`, and ends where that is done. */
    method ParallelCalculate(n: nat, ghost s: State) returns (ghost m: nat)
      requires Valid() && n < c.workers && Shaped(c, s) && Shows(s) && !locked
      requires s.places[n] == Adding(n, 0) && s.queue == []
      modifies this`sum, this`locked, pSum
      ensures !locked && Shows(Alone(c, s, n, m)) && Alone(c, s, n, m).places[n] == Done
      ensures Inv(c, s) ==>
                && Inv(c, Alone(c, s, n, m))
                && forall j :: 0 <= j < |c.a| && Owner(c, j) == n ==> Holds32(pSum[j], RowTotal(c, j, c.cols))
    {
      hide Wrap, Alone, Step, Inv, RowTotal, Owner;
      m := 0;
      assert Alone(c, s, n, 0) == s by { AloneStart(c, s, n); }
      var j := n;
      while j < |c.a|
        invariant n <= j && !locked && Shows(Alone(c, s, n, m)) && Alone(c, s, n, m).queue == []
        invariant Alone(c, s, n, m).places[n] == Adding(j, 0)
      {
        var i := 0;
        while i < c.cols
          invariant 0 <= i <= c.cols && !locked
          invariant Shows(Alone(c, s, n, m)) && Alone(c, s, n, m).queue == []
          invariant Alone(c, s, n, m).places[n] == Adding(j, i)
        {
          AddAlone(c, s, n, m, j, i);
          pSum[j] := Wrap(pSum[j] + Wrap(c.a[j][i] * i));
          i := i + 1;
          m := m + 2;
        }
        j := j + c.workers;
        TurnAlone(c, s, n, m);
        m := m + 1;
      }
      j := n;
      TurnAlone(c, s, n, m);
      m := m + 1;
      while j < |c.a|
        invariant n <= j && !locked && Shows(Alone(c, s, n, m)) && Alone(c, s, n, m).queue == []
        invariant Alone(c, s, n, m).places[n] == Asking(j)
      {
        CriticalAlone(c, s, n, m, j);
        locked := true;
        sum := Wrap(sum + pSum[j]);
        locked := false;
        j := j + c.workers;
        m := m + 5;
      }
      TurnAlone(c, s, n, m);
      m := m + 1;
      if Inv(c, s) { OwnRowsDone(c, s, n, m); }
    }
  }

  lemma NothingYet(c: Input)
    requires Good(c)
    ensures Wrap(0) == 0 && GrandTotal(c, 0) == 0
    ensures forall j :: 0 <= j < |c.a| ==> RowTotal(c, j, 0) == 0
  {
  }
}
