/** The selection of the threads to promote in scheduler_maintenance. */
module Maintenance {
  import opened Clock
  import opened QuickSelect

  /** The ceiling of 15% of `n`. */
  function PromotedCount(n: nat): (size: nat)
    ensures 20 * (size - 1) < 3 * n <= 20 * size
    ensures 1 <= n ==> 1 <= size <= n
  {
    (3 * n + 19) / 20
  }

  /** The records that started no later than `t`, in order. */
  ghost function NoLater(s: seq<Record>, t: TimeVal): (r: seq<Record>)
    ensures |r| == CountUpTo(s, t)
    ensures forall i :: 0 <= i < |r| ==> AtMost(r[i].start, t)
  {
    if s == [] then [] else (if AtMost(s[0].start, t) then [s[0]] else []) + NoLater(s[1..], t)
  }

  lemma {:induction false} NoLaterPrefix(s: seq<Record>, t: TimeVal, i: nat)
    requires i < |s|
    ensures NoLater(s[..i + 1], t) == NoLater(s[..i], t) + if AtMost(s[i].start, t) then [s[i]] else []
  {
    if i == 0 {
      assert s[..1][1..] == [] && s[..0] == [];
    } else {
      assert s[..i + 1][1..] == s[1..][..i] && s[..i][1..] == s[1..][..i - 1];
      NoLaterPrefix(s[1..], t, i - 1);
    }
  }

  lemma {:induction false} NoLaterExtends(s: seq<Record>, t: TimeVal, i: nat)
    requires i <= |s|
    ensures NoLater(s[..i], t) <= NoLater(s, t)
    decreases |s| - i
  {
    if i == |s| {
      assert s[..i] == s;
    } else {
      NoLaterExtends(s, t, i + 1);
      NoLaterPrefix(s, t, i);
    }
  }

  /** Lines 476-501. The buffer is filled to its last entry for every number of threads: its first entry is
      the thread of rank `size - 1`, the others are the first threads, from index 1 on, that started no later. */
  method ChooseOldest(tcbs: array<Record>) returns (oldest: array<Record>)
    requires 1 <= tcbs.Length
    ensures fresh(oldest) && oldest.Length == PromotedCount(tcbs.Length)
    ensures HasRank(tcbs[..], oldest.Length - 1, oldest[0].start)
    ensures oldest.Length - 1 <= |NoLater(tcbs[1..], oldest[0].start)|
    ensures oldest[1..] == NoLater(tcbs[1..], oldest[0].start)[..oldest.Length - 1]
    ensures forall i :: 0 <= i < oldest.Length ==> AtMost(oldest[i].start, oldest[0].start)
    ensures AllProper(tcbs[..]) ==>
              && MicrosRank(tcbs[..], oldest.Length - 1, Micros(oldest[0].start))
              && forall i :: 0 <= i < oldest.Length ==> Micros(oldest[i].start) <= Micros(oldest[0].start)
  {
    hide HasRank, SplitAt, NoLater;
    var n := tcbs.Length;
    var copy := new Record[n];
    forall i | 0 <= i < n {
      copy[i] := tcbs[i];
    }
    assert copy[..] == tcbs[..];
    var size := PromotedCount(n);
    oldest := new Record[size];
    var chosen := QuickSelect.Select(copy, size - 1);
    oldest[0] := chosen;
    var count := Fill(tcbs, oldest);
    EnoughOld(tcbs[..], tcbs[1..], size, chosen.start);
    assert oldest[1..count] == oldest[1..];
    if AllProper(tcbs[..]) { OldestInMicros(tcbs[..], oldest[..], chosen.start); }
  }

  lemma {:induction false} NoLaterAreThreads(s: seq<Record>, t: TimeVal)
    ensures forall r :: r in NoLater(s, t) ==> r in s
  {
    if s != [] {
      NoLaterAreThreads(s[1..], t);
    }
  }

  /** Started no later, as elapsed time. */
  lemma OldestInMicros(s: seq<Record>, chosen: seq<Record>, t: TimeVal)
    requires s != [] && chosen != [] && AllProper(s) && Proper(t) && chosen[0].start == t
    requires |chosen| - 1 <= |NoLater(s[1..], t)| && chosen[1..] == NoLater(s[1..], t)[..|chosen| - 1]
    ensures forall i :: 0 <= i < |chosen| ==> Micros(chosen[i].start) <= Micros(t)
  {
    NoLaterAreThreads(s[1..], t);
    forall i | 1 <= i < |chosen| ensures Micros(chosen[i].start) <= Micros(t) {
      var found := NoLater(s[1..], t);
      assert chosen[i] == chosen[1..][i - 1] == found[i - 1];
      assert found[i - 1] in found && found[i - 1] in s;
      BeforeIsEarlier(t, chosen[i].start);
    }
  }

  /** Leaving out the first thread leaves enough that are old enough. */
  lemma EnoughOld(s: seq<Record>, rest: seq<Record>, size: nat, t: TimeVal)
    requires 1 <= size && s != [] && rest == s[1..] && HasRank(s, size - 1, t)
    ensures size - 1 <= |NoLater(rest, t)|
  {
  }

  /** The scan: it stops at the end of the threads or of the buffer. */
  method Fill(tcbs: array<Record>, oldest: array<Record>) returns (count: nat)
    requires 1 <= tcbs.Length && 1 <= oldest.Length && tcbs != oldest
    modifies oldest
    ensures oldest[0] == old(oldest[0])
    ensures count <= oldest.Length
    ensures var found := NoLater(tcbs[1..], oldest[0].start);
            count == (if |found| < oldest.Length then |found| + 1 else oldest.Length)
            && oldest[1..count] == found[..count - 1]
  {
    ghost var t := oldest[0].start;
    ghost var rest := tcbs[1..];
    count := 1;
    var i := 1;
    while i < tcbs.Length && count < oldest.Length
      invariant 1 <= i <= tcbs.Length && 1 <= count <= oldest.Length
      invariant oldest[0] == old(oldest[0])
      invariant oldest[1..count] == NoLater(rest[..i - 1], t)
    {
      NoLaterPrefix(rest, t, i - 1);
      if AtMost(tcbs[i].start, oldest[0].start) {
        oldest[count] := tcbs[i];
        count := count + 1;
      }
      i := i + 1;
    }
    NoLaterExtends(rest, t, i - 1);
    if i == tcbs.Length {
      assert rest[..i - 1] == rest;
    }
  }
}
