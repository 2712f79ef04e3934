/** The linked queues of my_pthread.c: tcb nodes chained through `next_tcb`, with a head, a tail and a
    size. Each is proved to behave as a sequence of threads. */
module Queues {
  import opened Clock
  import opened SchedulerModel

  class Tcb {
    const tid: nat
    var state: ThreadState
    var priority: int
    var returnValue: int
    var initialStart: TimeVal
    var next: Tcb?

    constructor (tid: nat)
      ensures this.tid == tid && state == Ready && priority == 0 && returnValue == 0 && next == null
    {
      this.tid := tid;
      state := Ready;
      priority := 0;
      returnValue := 0;
      initialStart := TimeVal(0, 0);
      next := null;
    }
  }

  /** The threads of a chain, in order. */
  ghost function Tids(nodes: seq<Tcb>): (q: seq<nat>)
    ensures |q| == |nodes| && forall i :: 0 <= i < |nodes| ==> q[i] == nodes[i].tid
  {
    seq(|nodes|, i requires 0 <= i < |nodes| => nodes[i].tid)
  }

  ghost predicate DistinctNodes(nodes: seq<Tcb>) {
    forall i, j :: 0 <= i < j < |nodes| ==> nodes[i] != nodes[j]
  }

  /** `nodes` is what one meets by following `next` from `head`. */
  ghost predicate Chain(head: Tcb?, nodes: seq<Tcb>)
    reads nodes`next
  {
    && DistinctNodes(nodes)
    && (if nodes == [] then head == null else head == nodes[0] && nodes[|nodes| - 1].next == null)
    && forall i {:trigger nodes[i].next} :: 0 <= i < |nodes| - 1 ==> nodes[i].next == nodes[i + 1]
  }

  class Queue {
    var head: Tcb?
    var tail: Tcb?
    var size: int
    ghost var nodes: seq<Tcb>

    ghost predicate Valid()
      reads this, nodes`next
    {
      && Chain(head, nodes) && size == |nodes|
      && tail == (if nodes == [] then null else nodes[|nodes| - 1])
    }

    constructor ()
      ensures Valid() && nodes == []
    {
      head, tail, size := null, null, 0;
      nodes := [];
    }

    /** Appends a thread that is not in the queue. */
    method Enqueue(t: Tcb)
      requires Valid() && t !in nodes
      modifies this, t`next, (if tail == null then {} else {tail})`next
      ensures Valid() && nodes == old(nodes) + [t]
    {
      if size == 0 {
        head := t;
        tail := t;
        t.next := null;
        size := size + 1;
      } else {
        tail.next := t;
        tail := t;
        tail.next := null;
        size := size + 1;
      }
      nodes := nodes + [t];
    }

    /** Takes the first thread, or null from an empty queue. */
    method Dequeue() returns (t: Tcb?)
      requires Valid()
      modifies this, (if head == null then {} else {head})`next
      ensures Valid()
      ensures t == null <==> old(nodes) == []
      ensures t == null ==> nodes == []
      ensures t != null ==> t == old(nodes)[0] && nodes == old(nodes)[1..] && t.next == null && t !in nodes
    {
      if size == 0 {
        return null;
      }
      if size == 1 {
        t := head;
        head := null;
        tail := null;
      } else {
        t := head;
        head := head.next;
      }
      t.next := null;
      size := size - 1;
      nodes := nodes[1..];
    }

    method Peek() returns (t: Tcb?)
      requires Valid()
      ensures t == if nodes == [] then null else nodes[0]
    {
      t := head;
    }
  }

  // ----- several queues over the same threads

  /** Different well-formed queues over the threads in `all` that share no thread. */
  ghost predicate Family(qs: seq<Queue>, all: set<Tcb>)
    reads qs, all`next
  {
    && Separate(qs)
    && (forall l, n :: 0 <= l < |qs| && n in qs[l].nodes ==> n in all)
    && (forall l :: 0 <= l < |qs| ==> qs[l].Valid())
  }

  ghost predicate Separate(qs: seq<Queue>)
    reads qs
  {
    (forall l, k :: 0 <= l < k < |qs| ==> qs[l] != qs[k]) && Disjoint(NodeLists(qs))
  }

  ghost predicate Disjoint(lists: seq<seq<Tcb>>) {
    forall l, k, n :: 0 <= l < k < |lists| && n in lists[l] ==> n !in lists[k]
  }

  ghost function NodeLists(qs: seq<Queue>): (lists: seq<seq<Tcb>>)
    reads qs
    ensures |lists| == |qs| && forall l :: 0 <= l < |qs| ==> lists[l] == qs[l].nodes
  {
    seq(|qs|, l requires 0 <= l < |qs| reads qs => qs[l].nodes)
  }

  /** Queues of tcbs as queues of tids. */
  ghost function Ids(lists: seq<seq<Tcb>>): (ids: seq<seq<nat>>)
    ensures |ids| == |lists| && forall l :: 0 <= l < |lists| ==> ids[l] == Tids(lists[l])
  {
    seq(|lists|, l requires 0 <= l < |lists| => Tids(lists[l]))
  }

  datatype Op = Push(queue: nat, thread: Tcb) | Pop(queue: nat)

  /** The threads are tcbs that stand in no queue when they are pushed. */
  ghost predicate Fits(lists: seq<seq<Tcb>>, op: Op) {
    op.queue < |lists| && (op.Push? ==> forall l :: 0 <= l < |lists| ==> op.thread !in lists[l])
  }

  /** What an operation does to sequences. */
  ghost function Apply(lists: seq<seq<Tcb>>, op: Op): seq<seq<Tcb>>
    requires op.queue < |lists|
  {
    var q := lists[op.queue];
    lists[op.queue := match op
                      case Push(_, t) => q + [t]
                      case Pop(_) => if q == [] then [] else q[1..]]
  }

  lemma ApplyKeepsDisjoint(lists: seq<seq<Tcb>>, op: Op)
    requires Disjoint(lists) && Fits(lists, op)
    ensures Disjoint(Apply(lists, op))
  {
  }

  method Perform(qs: seq<Queue>, op: Op, ghost all: set<Tcb>) returns (t: Tcb?)
    requires Family(qs, all) && Fits(NodeLists(qs), op) && (op.Push? ==> op.thread in all)
    modifies qs, all`next
    ensures Family(qs, all) && NodeLists(qs) == Apply(old(NodeLists(qs)), op)
    ensures t == Taken(old(NodeLists(qs)), op)
  {
    match op
    case Push(k, thread) =>
      PushTo(qs[k], qs, k, thread, all);
      t := null;
    case Pop(k) =>
      t := PopFrom(qs[k], qs, k, all);
  }

  /** Appending to one queue, seen from the others: none of their threads is touched. */
  method Link(q: Queue, ghost qs: seq<Queue>, ghost k: nat, ghost lists: seq<seq<Tcb>>, t: Tcb, ghost last: Tcb?)
    requires k < |qs| && qs[k] == q && q.Valid() && t !in qs[k].nodes && last == qs[k].tail
    requires NodeLists(qs) == lists
    requires forall l :: 0 <= l < |qs| && l != k ==> qs[l] != qs[k] && qs[l].Valid()
    requires forall l :: 0 <= l < |qs| && l != k ==> last !in lists[l] && t !in lists[l]
    modifies q, t`next, (if last == null then {} else {last})`next
    ensures forall l :: 0 <= l < |qs| ==> qs[l].Valid()
    ensures NodeLists(qs) == lists[k := lists[k] + [t]]
  {
    q.Enqueue(t);
  }

  method PushTo(q: Queue, ghost qs: seq<Queue>, ghost k: nat, t: Tcb, ghost all: set<Tcb>)
    requires k < |qs| && qs[k] == q && Family(qs, all) && t in all && Fits(NodeLists(qs), Push(k, t))
    modifies qs, all`next
    ensures Family(qs, all)
    ensures NodeLists(qs) == Apply(old(NodeLists(qs)), Push(k, t))
  {
    ghost var lists := NodeLists(qs);
    ghost var last := qs[k].tail;
    assert last != null ==> last in lists[k];
    assert forall l :: 0 <= l < |qs| && l != k ==> last !in lists[l] && t !in lists[l];
    ApplyKeepsDisjoint(lists, Push(k, t));
    Link(q, qs, k, lists, t, last);
    assert NodeLists(qs) == Apply(lists, Push(k, t));
  }

  /** Taking from one queue, seen from the others. */
  method Unlink(q: Queue, ghost qs: seq<Queue>, ghost k: nat, ghost lists: seq<seq<Tcb>>, ghost first: Tcb?) returns (t: Tcb?)
    requires k < |qs| && qs[k] == q && q.Valid() && first == qs[k].head
    requires NodeLists(qs) == lists
    requires forall l :: 0 <= l < |qs| && l != k ==> qs[l] != qs[k] && qs[l].Valid()
    requires forall l :: 0 <= l < |qs| && l != k ==> first !in lists[l]
    modifies q, (if first == null then {} else {first})`next
    ensures forall l :: 0 <= l < |qs| ==> qs[l].Valid()
    ensures NodeLists(qs) == lists[k := if lists[k] == [] then [] else lists[k][1..]]
    ensures t == if lists[k] == [] then null else lists[k][0]
  {
    t := q.Dequeue();
  }

  method PopFrom(q: Queue, ghost qs: seq<Queue>, ghost k: nat, ghost all: set<Tcb>) returns (t: Tcb?)
    requires k < |qs| && qs[k] == q && Family(qs, all)
    modifies qs, all`next
    ensures Family(qs, all)
    ensures NodeLists(qs) == Apply(old(NodeLists(qs)), Pop(k))
    ensures t == if old(qs[k].nodes) == [] then null else old(qs[k].nodes)[0]
  {
    ghost var lists := NodeLists(qs);
    ghost var first := qs[k].head;
    assert first != null ==> first in lists[k];
    assert forall l :: 0 <= l < |qs| && l != k ==> first !in lists[l];
    ApplyKeepsDisjoint(lists, Pop(k));
    t := Unlink(q, qs, k, lists, first);
    assert NodeLists(qs) == Apply(lists, Pop(k));
    assert forall n :: n in qs[k].nodes ==> n in lists[k];
  }

  /** Every history of the two operations, on any of the queues in any order. */
  ghost function ApplyAll(lists: seq<seq<Tcb>>, ops: seq<Op>): (r: seq<seq<Tcb>>)
    requires FitAll(lists, ops)
    decreases |ops|, 1
  {
    if ops == [] then lists else Apply(ApplyAll(lists, ops[..|ops| - 1]), ops[|ops| - 1])
  }

  ghost predicate FitAll(lists: seq<seq<Tcb>>, ops: seq<Op>)
    decreases |ops|, 0
  {
    ops == [] || (FitAll(lists, ops[..|ops| - 1]) && Fits(ApplyAll(lists, ops[..|ops| - 1]), ops[|ops| - 1]))
  }

  /** What an operation hands out: the first thread of a nonempty sequence. */
  ghost function Taken(lists: seq<seq<Tcb>>, op: Op): Tcb?
    requires op.queue < |lists|
  {
    if op.Pop? && lists[op.queue] != [] then lists[op.queue][0] else null
  }

  /** What each operation of a history hands out. */
  ghost function TakenAll(lists: seq<seq<Tcb>>, ops: seq<Op>): (r: seq<Tcb?>)
    requires FitAll(lists, ops)
    ensures |r| == |ops|
  {
    if ops == [] then []
    else TakenAll(lists, ops[..|ops| - 1]) + [Taken(ApplyAll(lists, ops[..|ops| - 1]), ops[|ops| - 1])]
  }

  /** Any interleaving of operations on the queues is the same interleaving on sequences, in what it leaves and
      in what each dequeue returns. */
  method PerformAll(qs: seq<Queue>, ops: seq<Op>, ghost all: set<Tcb>) returns (taken: seq<Tcb?>)
    requires Family(qs, all) && FitAll(NodeLists(qs), ops)
    requires forall i :: 0 <= i < |ops| && ops[i].Push? ==> ops[i].thread in all
    modifies qs, all`next
    ensures Family(qs, all) && NodeLists(qs) == ApplyAll(old(NodeLists(qs)), ops)
    ensures taken == TakenAll(old(NodeLists(qs)), ops)
  {
    hide Family, NodeLists, ApplyAll, TakenAll, FitAll;
    ghost var lists := NodeLists(qs);
    FitsPrefix(lists, ops, 0);
    NoOps(lists);
    taken := [];
    var i := 0;
    while i < |ops|
      invariant 0 <= i <= |ops| && Family(qs, all) && FitAll(lists, ops[..i])
      invariant NodeLists(qs) == ApplyAll(lists, ops[..i]) && taken == TakenAll(lists, ops[..i])
    {
      FitsPrefix(lists, ops, i + 1);
      LastOp(lists, ops[..i + 1]);
      assert ops[..i + 1][..i] == ops[..i];
      var t := Perform(qs, ops[i], all);
      taken := taken + [t];
      i := i + 1;
    }
    assert ops[..i] == ops;
  }

  lemma NoOps(lists: seq<seq<Tcb>>)
    ensures FitAll(lists, []) && ApplyAll(lists, []) == lists && TakenAll(lists, []) == []
  {
  }

  lemma LastOp(lists: seq<seq<Tcb>>, ops: seq<Op>)
    requires ops != [] && FitAll(lists, ops)
    ensures var l := |ops| - 1;
            && FitAll(lists, ops[..l]) && Fits(ApplyAll(lists, ops[..l]), ops[l])
            && ApplyAll(lists, ops) == Apply(ApplyAll(lists, ops[..l]), ops[l])
            && TakenAll(lists, ops) == TakenAll(lists, ops[..l]) + [Taken(ApplyAll(lists, ops[..l]), ops[l])]
  {
  }

  lemma {:induction false} FitsPrefix(lists: seq<seq<Tcb>>, ops: seq<Op>, i: nat)
    requires i <= |ops| && FitAll(lists, ops)
    ensures FitAll(lists, ops[..i])
  {
    if i == |ops| {
      assert ops[..i] == ops;
    } else {
      FitsPrefix(lists, ops[..|ops| - 1], i);
      assert ops[..|ops| - 1][..i] == ops[..i];
    }
  }
}
