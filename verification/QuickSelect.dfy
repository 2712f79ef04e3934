/** quick_select of my_pthread.c: in-place selection of the k-th oldest thread. */
module QuickSelect {

  import opened Clock

  // ----- what selection means

  /** Place `k` splits the sequence: nothing before it is younger, nothing after it is older. */
  ghost predicate SplitAt(s: seq<Record>, k: nat) {
    && k < |s|
    && (forall i :: 0 <= i < k ==> AtMost(s[i].start, s[k].start))
    && (forall j :: k < j < |s| ==> AtMost(s[k].start, s[j].start))
  }

  ghost function CountBefore(s: seq<Record>, t: TimeVal): nat {
    if s == [] then 0 else (if Before(s[0].start, t) then 1 else 0) + CountBefore(s[1..], t)
  }

  ghost function CountUpTo(s: seq<Record>, t: TimeVal): nat {
    if s == [] then 0 else (if AtMost(s[0].start, t) then 1 else 0) + CountUpTo(s[1..], t)
  }

  /** `t` is the start time of rank `k` in the collection, whatever its order. */
  ghost predicate HasRank(s: seq<Record>, k: nat, t: TimeVal) {
    CountBefore(s, t) <= k < CountUpTo(s, t)
  }

  // ----- the same in microseconds

  ghost predicate AllProper(s: seq<Record>) {
    forall i :: 0 <= i < |s| ==> Proper(s[i].start)
  }

  /** How many threads started earlier than `m` microseconds, and how many no later. */
  ghost function StartedBefore(s: seq<Record>, m: int): nat {
    if s == [] then 0 else (if Micros(s[0].start) < m then 1 else 0) + StartedBefore(s[1..], m)
  }

  ghost function StartedBy(s: seq<Record>, m: int): nat {
    if s == [] then 0 else (if Micros(s[0].start) <= m then 1 else 0) + StartedBy(s[1..], m)
  }

  /** At most `k` threads started earlier, and more than `k` no later. */
  ghost predicate MicrosRank(s: seq<Record>, k: nat, m: int) {
    StartedBefore(s, m) <= k < StartedBy(s, m)
  }

  lemma {:induction false} CountsInMicros(s: seq<Record>, t: TimeVal)
    requires AllProper(s) && Proper(t)
    ensures CountBefore(s, t) == StartedBefore(s, Micros(t)) && CountUpTo(s, t) == StartedBy(s, Micros(t))
  {
    if s != [] {
      BeforeIsEarlier(s[0].start, t);
      BeforeIsEarlier(t, s[0].start);
      CountsInMicros(s[1..], t);
    }
  }

  lemma RankInMicros(s: seq<Record>, any: seq<Record>, k: nat, chosen: Record)
    requires HasRank(s, k, chosen.start) && multiset(any) == multiset(s) && chosen in any
    ensures AllProper(s) ==> Proper(chosen.start) && MicrosRank(s, k, Micros(chosen.start))
  {
    assert chosen in multiset(any);
    assert chosen in s;
    if AllProper(s) { CountsInMicros(s, chosen.start); }
  }

  // ----- termination

  /** `m` is the oldest start time in the range. */
  ghost predicate IsLeast(s: seq<Record>, m: TimeVal) {
    forall i :: 0 <= i < |s| ==> AtMost(m, s[i].start)
  }

  /** The least place, at or after `i`, that holds a least start time; the length if there is none. */
  ghost function LeastPlace(s: seq<Record>, i: nat): (p: nat)
    requires i <= |s|
    ensures i <= p <= |s|
    ensures p < |s| ==> IsLeast(s, s[p].start)
    ensures forall j :: i <= j < p ==> !IsLeast(s, s[j].start)
    decreases |s| - i
  {
    if i == |s| || IsLeast(s, s[i].start) then i else LeastPlace(s, i + 1)
  }

  /** A pass that moves neither bound has rotated the range left by one about its least element, which
      brings the least element one place nearer the front. */
  lemma RotationProgress(s: seq<Record>, r: seq<Record>)
    requires 2 <= |s| && r == s[1..] + [s[0]]
    requires IsLeast(s, s[(|s| - 1) / 2].start) && !IsLeast(r, r[0].start)
    ensures LeastPlace(r, 1) < LeastPlace(s, 1)
  {
    var n := |s|;
    var m := (n - 1) / 2;
    assert forall t :: IsLeast(r, t) ==> IsLeast(s, t) by {
      forall t | IsLeast(r, t) ensures IsLeast(s, t) {
        forall i | 0 <= i < n ensures AtMost(t, s[i].start) {
          assert s[i] == r[if i == 0 then n - 1 else i - 1];
        }
      }
    }
    assert forall t :: IsLeast(s, t) ==> IsLeast(r, t);
    if m == 0 {
      assert n == 2 && r[1] == s[0];
    } else {
      var p := LeastPlace(s, 1);
      assert p <= m;
      assert p != 1;
      assert r[p - 1] == s[p];
    }
  }

  // ----- one pass

  method Swap(a: array<Record>, i: int, j: int)
    requires 0 <= i < a.Length && 0 <= j < a.Length
    modifies a
    ensures a[..] == old(a[..])[i := old(a[j])][j := old(a[i])]
    ensures multiset(a[..]) == multiset(old(a[..]))
  {
    a[i], a[j] := a[j], a[i];
  }

  /** After some swaps with the left bound standing still: the range is rotated by one above `w`. */
  ghost predicate Rotating(was: seq<Record>, s: seq<Record>, from: int, to: int, w: int)
    requires 0 <= from <= w <= to < |was| == |s|
  {
    && s[from] == (if w == to then was[from] else was[w + 1])
    && (w < to ==> s[to] == was[from])
    && (forall i :: w < i < to ==> s[i] == was[i + 1])
    && (forall i :: from < i <= w ==> s[i] == was[i])
  }

  ghost predicate SameOutside(was: seq<Record>, s: seq<Record>, from: int, to: int) {
    |was| == |s| && forall i :: 0 <= i < |s| && (i < from || to < i) ==> s[i] == was[i]
  }

  /** Everything in the range below `r` is older than the pivot; everything above `w` is no older. */
  ghost predicate Partitioned(s: seq<Record>, from: int, to: int, r: int, w: int, pivot: TimeVal)
    requires 0 <= from <= r <= w <= to < |s|
  {
    && (forall i :: from <= i < r ==> Before(s[i].start, pivot))
    && (forall i :: w < i <= to ==> AtMost(pivot, s[i].start))
  }

  /** Where the inner loop stands. */
  ghost predicate LoopInv(was: seq<Record>, s: seq<Record>, from: int, to: int, r: int, w: int, pivot: TimeVal) {
    && 0 <= from <= r <= w <= to < |was| == |s| && from < to
    && SameOutside(was, s, from, to)
    && Partitioned(s, from, to, r, w, pivot)
    && (w == to ==> s == was)
    && (r == from ==> Rotating(was, s, from, to, w))
  }

  lemma SwapStep(was: seq<Record>, s: seq<Record>, from: int, to: int, r: int, w: int, pivot: TimeVal)
    requires LoopInv(was, s, from, to, r, w, pivot) && r < w && AtMost(pivot, s[r].start)
    ensures LoopInv(was, s[w := s[r]][r := s[w]], from, to, r, w - 1, pivot)
  {
  }

  lemma SkipStep(was: seq<Record>, s: seq<Record>, from: int, to: int, r: int, w: int, pivot: TimeVal)
    requires LoopInv(was, s, from, to, r, w, pivot) && r < w && !AtMost(pivot, s[r].start)
    ensures LoopInv(was, s, from, to, r + 1, w, pivot)
  {
  }

  /** Without a swap the pivot itself would have stopped the left bound. */
  lemma LoopEnd(was: seq<Record>, s: seq<Record>, from: int, to: int, r: int, pivot: TimeVal)
    requires LoopInv(was, s, from, to, r, r, pivot) && pivot == was[(from + to) / 2].start
    ensures r < to
  {
  }

  lemma LoopStart(was: seq<Record>, from: int, to: int, pivot: TimeVal)
    requires 0 <= from < to < |was|
    ensures LoopInv(was, was, from, to, from, to, pivot)
  {
  }

  method PartitionLoop(a: array<Record>, from: int, to: int) returns (r: int)
    requires 0 <= from < to < a.Length
    modifies a
    ensures multiset(a[..]) == multiset(old(a[..])) && from <= r < to
    ensures LoopInv(old(a[..]), a[..], from, to, r, r, old(a[(from + to) / 2]).start)
  {
    hide LoopInv, Before, AtMost;
    ghost var was := a[..];
    var w := to;
    r := from;
    var mid := a[(r + w) / 2];
    LoopStart(was, from, to, mid.start);
    while r < w
      invariant from <= r <= w <= to && LoopInv(was, a[..], from, to, r, w, mid.start)
      invariant multiset(a[..]) == multiset(was)
    {
      if AtMost(mid.start, a[r].start) {
        SwapStep(was, a[..], from, to, r, w, mid.start);
        Swap(a, w, r);
        w := w - 1;
      } else {
        SkipStep(was, a[..], from, to, r, w, mid.start);
        r := r + 1;
      }
    }
    LoopEnd(was, a[..], from, to, r, mid.start);
  }

  /** How a pass ends, including the step back when the place `r` holds a younger thread than the pivot. */
  ghost predicate PassDone(was: seq<Record>, s: seq<Record>, from: int, to: int, r: int) {
    && 0 <= from < to < |was| == |s| && from - 1 <= r < to
    && SameOutside(was, s, from, to)
    && (forall i, j :: from <= i <= r < j <= to ==> AtMost(s[i].start, s[j].start))
    && (r == from - 1 ==> Rotated(was[from..to + 1], s[from..to + 1]))
  }

  /** The range was rotated left by one; its pivot is a least element and its new first is not. */
  ghost predicate Rotated(was: seq<Record>, s: seq<Record>) {
    && 2 <= |was| && s == was[1..] + [was[0]]
    && IsLeast(was, was[(|was| - 1) / 2].start) && !IsLeast(s, s[0].start)
  }

  lemma PassEnd(was: seq<Record>, s: seq<Record>, from: int, to: int, r: int, pivot: TimeVal)
    requires LoopInv(was, s, from, to, r, r, pivot) && r < to && pivot == was[(from + to) / 2].start
    ensures Before(pivot, s[r].start) ==> PassDone(was, s, from, to, r - 1)
    ensures !Before(pivot, s[r].start) ==> PassDone(was, s, from, to, r)
  {
    if Before(pivot, s[r].start) && r == from {
      RotationFacts(was, s, from, to, pivot);
    }
  }

  lemma RotationFacts(was: seq<Record>, s: seq<Record>, from: int, to: int, pivot: TimeVal)
    requires LoopInv(was, s, from, to, from, from, pivot) && pivot == was[(from + to) / 2].start
    requires Before(pivot, s[from].start)
    ensures Rotated(was[from..to + 1], s[from..to + 1])
  {
    var x, y := was[from..to + 1], s[from..to + 1];
    assert y == x[1..] + [x[0]];
    forall i | 0 <= i < |x| ensures AtMost(pivot, x[i].start) {
      assert x[i] == y[if i == 0 then |x| - 1 else i - 1];
    }
    var m := (from + to) / 2 - from;
    assert m == (|x| - 1) / 2 && x[m].start == pivot;
    assert y[if m == 0 then |x| - 1 else m - 1] == x[m];
  }

  method Pass(a: array<Record>, from: int, to: int) returns (r: int)
    requires 0 <= from < to < a.Length
    modifies a
    ensures multiset(a[..]) == multiset(old(a[..]))
    ensures PassDone(old(a[..]), a[..], from, to, r)
  {
    hide LoopInv, PassDone;
    var mid := a[(from + to) / 2];
    r := PartitionLoop(a, from, to);
    PassEnd(old(a[..]), a[..], from, to, r, mid.start);
    if Before(mid.start, a[r].start) {
      r := r - 1;
    }
  }

  // ----- the whole selection

  /** Everything left of the range is no younger than the range, everything right of it no older. */
  ghost predicate Bracketed(s: seq<Record>, from: int, to: int) {
    && 0 <= from <= |s| && -1 <= to < |s|
    && (forall i, j :: 0 <= i < from <= j < |s| ==> AtMost(s[i].start, s[j].start))
    && (forall i, j :: 0 <= i <= to < j < |s| ==> AtMost(s[i].start, s[j].start))
  }

  /** The measure: the range shrinks, or its least element comes nearer. */
  ghost function RangePlace(s: seq<Record>, from: int, to: int): nat
    requires 0 <= from <= to < |s|
  {
    LeastPlace(s[from..to + 1], 1)
  }

  ghost predicate SamePiece(was: seq<Record>, s: seq<Record>, from: int, to: int) {
    0 <= from <= to < |was| == |s| && multiset(s[from..to + 1]) == multiset(was[from..to + 1])
  }

  lemma Cancel(x: multiset<Record>, y: multiset<Record>, c: multiset<Record>)
    requires x + c == y + c
    ensures x == y
  {
    forall e ensures x[e] == y[e] {
      assert (x + c)[e] == x[e] + c[e] && (y + c)[e] == y[e] + c[e];
    }
  }

  lemma Parts(s: seq<Record>, from: int, to: int)
    requires 0 <= from <= to < |s|
    ensures multiset(s) == multiset(s[from..to + 1]) + (multiset(s[..from]) + multiset(s[to + 1..]))
  {
    assert s == s[..from] + s[from..to + 1] + s[to + 1..];
  }

  lemma WithoutOne(s: seq<Record>, i: nat)
    requires i < |s|
    ensures multiset(s) == multiset(s[..i] + s[i + 1..]) + multiset{s[i]}
  {
    assert s == s[..i] + [s[i]] + s[i + 1..];
  }

  lemma RangePermuted(was: seq<Record>, s: seq<Record>, from: int, to: int)
    requires SameOutside(was, s, from, to) && 0 <= from <= to < |s| && multiset(s) == multiset(was)
    ensures SamePiece(was, s, from, to)
  {
    Parts(s, from, to);
    Parts(was, from, to);
    assert s[..from] == was[..from] && s[to + 1..] == was[to + 1..];
    Cancel(multiset(s[from..to + 1]), multiset(was[from..to + 1]), multiset(s[..from]) + multiset(s[to + 1..]));
  }

  /** A member of the range was a member of the range before. */
  lemma CameFrom(was: seq<Record>, s: seq<Record>, from: int, to: int, j: int) returns (i: int)
    requires SamePiece(was, s, from, to) && from <= j <= to
    ensures from <= i <= to && was[i] == s[j]
  {
    var x, y := was[from..to + 1], s[from..to + 1];
    assert y[j - from] in multiset(y);
    assert s[j] in x;
    var p :| 0 <= p < |x| && x[p] == s[j];
    i := p + from;
  }

  lemma PassKeepsBrackets(was: seq<Record>, s: seq<Record>, from: int, to: int, r: int)
    requires Bracketed(was, from, to) && PassDone(was, s, from, to, r) && SamePiece(was, s, from, to)
    ensures Bracketed(s, from, to)
  {
    forall i, j | 0 <= i < from <= j < |s| ensures AtMost(s[i].start, s[j].start) {
      if j <= to { var p := CameFrom(was, s, from, to, j); }
    }
    forall i, j | 0 <= i <= to < j < |s| ensures AtMost(s[i].start, s[j].start) {
      if from <= i { var p := CameFrom(was, s, from, to, i); }
    }
  }

  /** Narrowing to the side that holds place `k` keeps the brackets. */
  lemma Narrow(s: seq<Record>, from: int, to: int, r: int)
    requires Bracketed(s, from, to) && from - 1 <= r < to && from <= to
    requires forall i, j :: from <= i <= r < j <= to ==> AtMost(s[i].start, s[j].start)
    ensures from <= r ==> Bracketed(s, from, r)
    ensures Bracketed(s, r + 1, to)
  {
  }

  method Select(a: array<Record>, k: int) returns (chosen: Record)
    requires 0 <= k < a.Length
    modifies a
    ensures multiset(a[..]) == multiset(old(a[..]))
    ensures SplitAt(a[..], k) && chosen == a[k]
    ensures HasRank(old(a[..]), k, chosen.start)
    ensures AllProper(old(a[..])) ==> Proper(chosen.start) && MicrosRank(old(a[..]), k, Micros(chosen.start))
  {
    ghost var was := a[..];
    var from := 0;
    var to := a.Length - 1;
    hide Bracketed, PassDone, LeastPlace, SplitAt, HasRank;
    BracketsStart(a[..]);
    while from < to
      invariant 0 <= from <= k <= to < a.Length
      invariant multiset(a[..]) == multiset(was) && Bracketed(a[..], from, to)
      decreases (to - from), RangePlace(a[..], from, to)
    {
      ghost var before := a[..];
      var r := Pass(a, from, to);
      Progress(before, a[..], from, to, r);
      if k <= r {
        to := r;
      } else {
        from := r + 1;
      }
    }
    chosen := a[k];
    BracketsEnd(a[..], k);
    SplitHasRank(a[..], was, k);
    RankInMicros(was, a[..], k, chosen);
  }

  lemma BracketsStart(s: seq<Record>)
    ensures Bracketed(s, 0, |s| - 1)
  {
  }

  lemma BracketsEnd(s: seq<Record>, k: int)
    requires 0 <= k < |s| && Bracketed(s, k, k)
    ensures SplitAt(s, k)
  {
  }

  lemma Progress(was: seq<Record>, s: seq<Record>, from: int, to: int, r: int)
    requires Bracketed(was, from, to) && PassDone(was, s, from, to, r) && multiset(s) == multiset(was)
    ensures from - 1 <= r < to && (from <= r ==> Bracketed(s, from, r)) && Bracketed(s, r + 1, to)
    ensures r == from - 1 ==> RangePlace(s, from, to) < RangePlace(was, from, to)
  {
    RangePermuted(was, s, from, to);
    PassKeepsBrackets(was, s, from, to, r);
    Narrow(s, from, to, r);
    if r == from - 1 {
      RotationProgress(was[from..to + 1], s[from..to + 1]);
    }
  }

  // ----- rank does not depend on the order

  lemma {:induction false} CountsRemove(s: seq<Record>, i: nat, t: TimeVal)
    requires i < |s|
    ensures CountBefore(s, t) == CountBefore(s[..i] + s[i + 1..], t) + if Before(s[i].start, t) then 1 else 0
    ensures CountUpTo(s, t) == CountUpTo(s[..i] + s[i + 1..], t) + if AtMost(s[i].start, t) then 1 else 0
  {
    var rest := s[..i] + s[i + 1..];
    if i == 0 {
      assert rest == s[1..];
    } else {
      CountsRemove(s[1..], i - 1, t);
      assert rest[1..] == s[1..][..i - 1] + s[1..][i..];
      assert rest[0] == s[0];
    }
  }

  /** Taking out the first of one sequence and the same record of a permutation leaves a permutation. */
  lemma RemoveSame(a: seq<Record>, b: seq<Record>, i: nat)
    requires a != [] && i < |b| && b[i] == a[0] && multiset(a) == multiset(b)
    ensures multiset(a[1..]) == multiset(b[..i] + b[i + 1..])
  {
    WithoutOne(b, i);
    assert a == [a[0]] + a[1..];
    Cancel(multiset(a[1..]), multiset(b[..i] + b[i + 1..]), multiset{a[0]});
  }

  lemma {:induction false} CountsPermuted(a: seq<Record>, b: seq<Record>, t: TimeVal)
    requires multiset(a) == multiset(b)
    ensures CountBefore(a, t) == CountBefore(b, t) && CountUpTo(a, t) == CountUpTo(b, t)
    decreases |a|
  {
    hide Before, AtMost;
    if a == [] {
      assert |multiset(b)| == 0;
    } else {
      assert a[0] in multiset(b);
      var i :| 0 <= i < |b| && b[i] == a[0];
      CountsRemove(b, i, t);
      RemoveSame(a, b, i);
      CountsPermuted(a[1..], b[..i] + b[i + 1..], t);
    }
  }

  lemma {:induction false} CountsBounds(s: seq<Record>, t: TimeVal)
    ensures CountBefore(s, t) <= CountUpTo(s, t) <= |s|
    ensures (forall i :: 0 <= i < |s| ==> AtMost(s[i].start, t)) ==> CountUpTo(s, t) == |s|
    ensures (forall i :: 0 <= i < |s| ==> AtMost(t, s[i].start)) ==> CountBefore(s, t) == 0
  {
    if s != [] {
      CountsBounds(s[1..], t);
    }
  }

  lemma {:induction false} CountsAppend(a: seq<Record>, b: seq<Record>, t: TimeVal)
    ensures CountBefore(a + b, t) == CountBefore(a, t) + CountBefore(b, t)
    ensures CountUpTo(a + b, t) == CountUpTo(a, t) + CountUpTo(b, t)
  {
    if a == [] {
      assert a + b == b;
    } else {
      assert (a + b)[1..] == a[1..] + b;
      CountsAppend(a[1..], b, t);
    }
  }

  /** The element at a splitting place has that place as its rank, in every order of the elements. */
  lemma SplitHasRank(s: seq<Record>, any: seq<Record>, k: nat)
    requires SplitAt(s, k) && multiset(s) == multiset(any)
    ensures HasRank(any, k, s[k].start)
  {
    var t := s[k].start;
    CountsPermuted(s, any, t);
    BeforeSplit(s, k);
    UpToSplit(s, k);
  }

  lemma BeforeSplit(s: seq<Record>, k: nat)
    requires SplitAt(s, k)
    ensures CountBefore(s, s[k].start) <= k
  {
    assert s == s[..k] + s[k..];
    CountsAppend(s[..k], s[k..], s[k].start);
    CountsBounds(s[..k], s[k].start);
    CountsBounds(s[k..], s[k].start);
  }

  lemma UpToSplit(s: seq<Record>, k: nat)
    requires SplitAt(s, k)
    ensures k < CountUpTo(s, s[k].start)
  {
    assert s == s[..k + 1] + s[k + 1..];
    CountsAppend(s[..k + 1], s[k + 1..], s[k].start);
    CountsBounds(s[..k + 1], s[k].start);
  }

  lemma {:induction false} CountsOrdered(s: seq<Record>, t: TimeVal, u: TimeVal)
    requires Before(t, u)
    ensures CountUpTo(s, t) <= CountBefore(s, u)
  {
    if s != [] {
      CountsOrdered(s[1..], t, u);
    }
  }

  /** Only one start time has a given rank. */
  lemma RankUnique(s: seq<Record>, k: nat, t: TimeVal, u: TimeVal)
    requires HasRank(s, k, t) && HasRank(s, k, u)
    ensures t == u
  {
    if Before(t, u) {
      CountsOrdered(s, t, u);
    } else if Before(u, t) {
      CountsOrdered(s, u, t);
    }
  }
}
