/** Looking a thread up, and taking it out, by tid: get_tcb and get_and_remove_tcb of my_pthread.c. */
module Removal {
  import opened Queues

  ghost function Without<T>(q: seq<T>, i: nat): seq<T>
    requires i < |q|
  {
    q[..i] + q[i + 1..]
  }

  /** Place `i` of level `l` holds the first match, in level order. */
  ghost predicate FirstMatch(qs: seq<seq<nat>>, tid: nat, l: nat, i: nat) {
    && l < |qs| && i < |qs[l]| && qs[l][i] == tid
    && (forall k :: 0 <= k < l ==> tid !in qs[k])
    && (forall j :: 0 <= j < i ==> qs[l][j] != tid)
  }

  /** get_tcb: the first thread with this tid, in level order, or null. */
  method GetTcb(levels: seq<Queue>, tid: nat) returns (t: Tcb?)
    requires forall l :: 0 <= l < |levels| ==> levels[l].Valid()
    ensures t == null ==> forall l :: 0 <= l < |levels| ==> tid !in Ids(NodeLists(levels))[l]
    ensures t != null ==> exists l: nat, i: nat :: FirstMatch(Ids(NodeLists(levels)), tid, l, i) && levels[l].nodes[i] == t
  {
    var l := 0;
    while l < |levels|
      invariant 0 <= l <= |levels|
      invariant forall k :: 0 <= k < l ==> tid !in Ids(NodeLists(levels))[k]
    {
      t := levels[l].head;
      ghost var i := 0;
      while t != null
        invariant 0 <= i <= |levels[l].nodes|
        invariant t == if i < |levels[l].nodes| then levels[l].nodes[i] else null
        invariant forall j :: 0 <= j < i ==> levels[l].nodes[j].tid != tid
        decreases |levels[l].nodes| - i
      {
        if t.tid == tid {
          assert FirstMatch(Ids(NodeLists(levels)), tid, l, i);
          return t;
        }
        t := t.next;
        i := i + 1;
      }
      l := l + 1;
    }
    t := null;
  }

  /** The removal loop within one level. The chain loses exactly the match; `size` keeps counting it, and
      `tail` follows only when the match was the last of several. */
  method RemoveFrom(q: Queue, tid: nat) returns (t: Tcb?, ghost i: nat)
    requires q.Valid()
    modifies q`head, q`tail, q`nodes, (set n | n in q.nodes)`next
    ensures t == null ==> q.Valid() && q.nodes == old(q.nodes) && tid !in Tids(q.nodes)
    ensures t != null ==>
              && i < |old(q.nodes)| && t == old(q.nodes)[i] && t.tid == tid
              && (forall j :: 0 <= j < i ==> old(q.nodes)[j].tid != tid)
              && q.nodes == Without(old(q.nodes), i) && Chain(q.head, q.nodes)
              && q.tail == (if 0 < i == |old(q.nodes)| - 1 then old(q.nodes)[i - 1] else old(q.tail))
  {
    t := q.head;
    i := 0;
    var prev := t;
    while t != null
      invariant 0 <= i <= |q.nodes|
      invariant t == if i < |q.nodes| then q.nodes[i] else null
      invariant prev == if i == 0 then t else q.nodes[i - 1]
      invariant forall j :: 0 <= j < i ==> q.nodes[j].tid != tid
      decreases |q.nodes| - i
    {
      if t.tid == tid {
        assert t == prev <==> i == 0;
        assert i < |q.nodes| - 1 ==> q.nodes[i].next == q.nodes[i + 1];
        if t == prev {
          q.head := t.next;
        } else if t.next == null {
          q.tail := prev;
          prev.next := null;
        } else {
          prev.next := t.next;
        }
        q.nodes := q.nodes[..i] + q.nodes[i + 1..];
        return;
      }
      prev := t;
      t := t.next;
      i := i + 1;
    }
  }

  ghost predicate Chained(q: Queue)
    reads q, q.nodes`next
  {
    Chain(q.head, q.nodes)
  }

  /** The same, seen from all the levels: only level `k` can change. */
  method RemoveFromLevel(levels: seq<Queue>, k: nat, tid: nat, ghost all: set<Tcb>) returns (t: Tcb?, ghost i: nat)
    requires k < |levels| && Family(levels, all)
    modifies levels, all`next
    ensures forall j :: 0 <= j < |levels| ==> Chained(levels[j]) && levels[j].size == old(levels[j].size)
    ensures forall j :: 0 <= j < |levels| && j != k ==> levels[j].Valid()
    ensures levels[k].Valid() <==> t == null
    ensures t == null ==> Family(levels, all) && NodeLists(levels) == old(NodeLists(levels)) && tid !in Ids(NodeLists(levels))[k]
    ensures t != null ==>
              && i < |old(levels[k].nodes)| && t == old(levels[k].nodes)[i] && t.tid == tid
              && (forall j :: 0 <= j < i ==> old(levels[k].nodes)[j].tid != tid)
              && NodeLists(levels) == old(NodeLists(levels))[k := Without(old(levels[k].nodes), i)]
  {
    ghost var lists := NodeLists(levels);
    assert forall j, n :: 0 <= j < |levels| && j != k && n in lists[j] ==> n !in lists[k];
    t, i := RemoveFrom(levels[k], tid);
    if t == null { SameFamily(levels, lists, all); }
  }

  /** get_and_remove_tcb: the first match in level order leaves its chain, the rest keep their order, and
      other levels are untouched. The level it left is no longer a valid queue, for `size` still counts it:
      all levels are valid afterwards exactly when nothing was found. */
  method GetAndRemove(levels: seq<Queue>, tid: nat, ghost all: set<Tcb>) returns (t: Tcb?, ghost l: nat, ghost i: nat)
    requires Family(levels, all)
    modifies levels, all`next
    ensures forall k :: 0 <= k < |levels| ==> Chained(levels[k]) && levels[k].size == old(levels[k].size)
    ensures t == null ==>
              && NodeLists(levels) == old(NodeLists(levels))
              && forall k :: 0 <= k < |levels| ==> tid !in Ids(NodeLists(levels))[k]
    ensures t != null ==>
              && FirstMatch(old(Ids(NodeLists(levels))), tid, l, i) && t == old(NodeLists(levels))[l][i]
              && NodeLists(levels) == old(NodeLists(levels))[l := Without(old(NodeLists(levels))[l], i)]
    ensures forall k :: 0 <= k < |levels| && (t == null || k != l) ==> levels[k].Valid()
    ensures (forall k :: 0 <= k < |levels| ==> levels[k].Valid()) <==> t == null
  {
    hide Chained, Family, NodeLists, Ids, Queue.Valid;
    ghost var lists := NodeLists(levels);
    FamilyChains(levels, all);
    t, l, i := null, 0, 0;
    var k := 0;
    while k < |levels|
      invariant 0 <= k <= |levels| && t == null
      invariant Family(levels, all) && NodeLists(levels) == lists
      invariant forall j :: 0 <= j < |levels| ==> Chained(levels[j]) && levels[j].Valid() && levels[j].size == old(levels[j].size)
      invariant forall j :: 0 <= j < k ==> tid !in Ids(lists)[j]
    {
      t, i := RemoveFromLevel(levels, k, tid, all);
      l := k;
      if t != null {
        break;
      }
      FamilyChains(levels, all);
      k := k + 1;
    }
  }

  lemma FamilyChains(levels: seq<Queue>, all: set<Tcb>)
    requires Family(levels, all)
    ensures forall k :: 0 <= k < |levels| ==> Chained(levels[k]) && levels[k].Valid()
  {
  }

  lemma SameFamily(levels: seq<Queue>, lists: seq<seq<Tcb>>, all: set<Tcb>)
    requires NodeLists(levels) == lists && Disjoint(lists)
    requires forall l, k :: 0 <= l < k < |levels| ==> levels[l] != levels[k]
    requires forall l, n :: 0 <= l < |lists| && n in lists[l] ==> n in all
    requires forall k :: 0 <= k < |levels| ==> levels[k].Valid()
    ensures Family(levels, all)
  {
  }
}
