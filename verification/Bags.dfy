/** Which threads stand in a family of queues, counted. */
module Bags {

  ghost function Bag(qs: seq<seq<nat>>): multiset<nat> {
    if qs == [] then multiset{} else multiset(qs[0]) + Bag(qs[1..])
  }

  lemma {:induction false} BagUpdate(qs: seq<seq<nat>>, i: nat, q: seq<nat>)
    requires i < |qs|
    ensures multiset(qs[i]) <= Bag(qs)
    ensures Bag(qs[i := q]) == Bag(qs) - multiset(qs[i]) + multiset(q)
  {
    if i == 0 {
      assert qs[0 := q][1..] == qs[1..];
    } else {
      assert qs[i := q][1..] == qs[1..][i - 1 := q];
      BagUpdate(qs[1..], i - 1, q);
    }
  }

  lemma BagSplit(qs: seq<seq<nat>>, i: nat, q: seq<nat>)
    requires i < |qs|
    ensures Bag(qs[i := q]) == Bag(qs[i := []]) + multiset(q)
  {
    BagUpdate(qs[i := []], i, q);
    assert qs[i := []][i := q] == qs[i := q];
  }

  lemma {:induction false} BagAppend(qs: seq<seq<nat>>, q: seq<nat>)
    ensures Bag(qs + [q]) == Bag(qs) + multiset(q)
  {
    if qs == [] {
      assert qs + [q] == [q];
      assert Bag([q]) == multiset(q) + Bag([]);
    } else {
      assert (qs + [q])[1..] == qs[1..] + [q];
      BagAppend(qs[1..], q);
    }
  }

  lemma BagPair(qs: seq<seq<nat>>, i: nat, j: nat)
    requires i < |qs| && j < |qs| && i != j
    ensures multiset(qs[i]) + multiset(qs[j]) <= Bag(qs)
  {
    BagUpdate(qs, i, []);
    BagUpdate(qs[i := []], j, []);
  }

  lemma {:induction false} BagSame(a: seq<seq<nat>>, b: seq<seq<nat>>)
    requires |a| == |b| && forall l :: 0 <= l < |a| ==> multiset(a[l]) == multiset(b[l])
    ensures Bag(a) == Bag(b)
  {
    if a != [] {
      assert multiset(a[0]) == multiset(b[0]);
      forall l | 0 <= l < |a| - 1 ensures multiset(a[1..][l]) == multiset(b[1..][l]) {
        assert multiset(a[l + 1]) == multiset(b[l + 1]);
      }
      BagSame(a[1..], b[1..]);
    }
  }

  /** A thread counted in the bag stands in one of the queues. */
  lemma {:induction false} BagMember(qs: seq<seq<nat>>, t: nat) returns (i: nat)
    requires t in Bag(qs)
    ensures i < |qs| && t in qs[i]
  {
    if t in qs[0] {
      i := 0;
    } else {
      i := BagMember(qs[1..], t);
      i := i + 1;
    }
  }

  lemma CountIsMember(q: seq<nat>, t: nat)
    ensures multiset(q)[t] > 0 <==> t in q
  {
  }
}
