/** In which order the queues hand out ids: by urgency as pushed, or by age. */
module QueueOrders {
  import opened Sequences
  import opened Ordering
  import opened TaskQueues

  ghost function Operate(q: Queue, op: Operation): Queue {
    match op
    case Pushing(id, priority, at) => Push(q, id, priority, at)
    case Removing(id) => Remove(q, id)
    case Popping => Pop(q).0
  }

  ghost function AfterOps(q: Queue, ops: seq<Operation>): Queue
    decreases |ops|
  {
    if ops == [] then q else AfterOps(Operate(q, ops[0]), ops[1..])
  }

  /** No id is pushed while it is queued, or while its removal is still noted. */
  ghost predicate Proper(q: Queue, ops: seq<Operation>)
    decreases |ops|
  {
    ops == []
    || ((ops[0].Pushing? ==> ops[0].id !in LiveIds(q) && ops[0].id !in NotedIds(q))
        && Proper(Operate(q, ops[0]), ops[1..]))
  }

  /** The last push of an id, and how many operations went before it. */
  datatype Entry = Entry(priority: int, at: real, position: nat)

  function LastPush(ops: seq<Operation>, id: TaskId): Option<Entry>
    decreases |ops|
  {
    if ops == [] then None
    else
      var last := ops[|ops| - 1];
      if last.Pushing? && last.id == id then Some(Entry(last.priority, last.at, |ops| - 1))
      else LastPush(ops[..|ops| - 1], id)
  }

  lemma LastPushNext(ops: seq<Operation>, op: Operation, id: TaskId)
    ensures LastPush(ops + [op], id)
         == if op.Pushing? && op.id == id then Some(Entry(op.priority, op.at, |ops|)) else LastPush(ops, id)
  {
    assert (ops + [op])[..|ops|] == ops;
  }

  lemma {:induction false} LastPushBound(ops: seq<Operation>, id: TaskId)
    ensures LastPush(ops, id).Some? ==> LastPush(ops, id).value.position < |ops|
  {
    if ops != [] { LastPushBound(ops[..|ops| - 1], id); }
  }

  /** What is queued agrees with the pushes so far: a live heap entry has the priority and time of the last push
      of its id, and a first-in-first-out queue is in order of last pushes. */
  ghost predicate Matches(q: Queue, ops: seq<Operation>) {
    match q
    case Fifo(deque) =>
      && (forall i :: 0 <= i < |deque| ==> LastPush(ops, deque[i]).Some?)
      && (forall i, j :: 0 <= i < j < |deque| ==>
            LastPush(ops, deque[i]).value.position < LastPush(ops, deque[j]).value.position)
    case Prio(heap, removed) =>
      forall i :: i in heap && i.id !in removed ==>
        && LastPush(ops, i.id).Some?
        && LastPush(ops, i.id).value.priority == -i.negPriority
        && LastPush(ops, i.id).value.at == i.enqueuedAt
  }

  lemma PushMatches(q: Queue, ops: seq<Operation>, id: TaskId, priority: int, at: real)
    requires Matches(q, ops) && id !in LiveIds(q) && id !in NotedIds(q)
    ensures Matches(Push(q, id, priority, at), ops + [Pushing(id, priority, at)])
  {
    hide LastPush;
    var op := Pushing(id, priority, at);
    forall x ensures LastPush(ops + [op], x) == if x == id then Some(Entry(priority, at, |ops|)) else LastPush(ops, x) {
      LastPushNext(ops, op, x);
    }
    match q
    case Fifo(deque) =>
      forall i | 0 <= i < |deque| ensures deque[i] != id && LastPush(ops, deque[i]).value.position < |ops| {
        assert deque[i] in Elems(deque);
        LastPushBound(ops, deque[i]);
      }
    case Prio(heap, removed) =>
      forall i | i in heap && i.id !in removed ensures i.id != id {
        assert i in Live(heap, removed);
      }
  }

  lemma SameLast(ops: seq<Operation>, op: Operation)
    requires !op.Pushing?
    ensures forall id :: LastPush(ops + [op], id) == LastPush(ops, id)
  {
    forall id ensures LastPush(ops + [op], id) == LastPush(ops, id) { LastPushNext(ops, op, id); }
  }

  /** The first occurrence of an element, or the length. */
  function FirstAt(s: seq<TaskId>, id: TaskId): (i: nat)
    ensures i <= |s| && (i < |s| ==> s[i] == id) && forall k :: 0 <= k < i ==> s[k] != id
  {
    if s == [] || s[0] == id then 0 else 1 + FirstAt(s[1..], id)
  }

  lemma RemoveMatches(q: Queue, ops: seq<Operation>, id: TaskId)
    requires Matches(q, ops)
    ensures Matches(Remove(q, id), ops + [Removing(id)])
  {
    hide LastPush, RemoveFirst;
    SameLast(ops, Removing(id));
    match q
    case Fifo(deque) => RemoveFirstAt(deque, id, FirstAt(deque, id));
    case Prio(heap, removed) =>
  }

  lemma PopMatches(q: Queue, ops: seq<Operation>)
    requires QueueOk(q) && Matches(q, ops)
    ensures Matches(Pop(q).0, ops + [Popping])
  {
    hide LastPush, PopHeap;
    SameLast(ops, Popping);
    match q
    case Fifo(deque) =>
    case Prio(heap, removed) =>
      PopRefines(heap, removed);
      var p := PopHeap(heap, removed).0;
      forall i | i in p.heap && i.id !in p.removed ensures i in heap && i.id !in removed {
        assert i in Live(p.heap, p.removed) && i in Live(heap, removed);
      }
  }

  lemma OperateKeeps(q: Queue, op: Operation, past: seq<Operation>)
    requires QueueOk(q) && Matches(q, past) && Proper(q, [op])
    ensures QueueOk(Operate(q, op)) && Matches(Operate(q, op), past + [op])
  {
    hide Matches, QueueOk, LiveIds, NotedIds, Push, Pop, Remove;
    match op
    case Pushing(id, priority, at) =>
      PushLive(q, id, priority, at);
      PushMatches(q, past, id, priority, at);
    case Removing(id) =>
      RemoveLive(q, id);
      RemoveMatches(q, past, id);
    case Popping =>
      PopLive(q);
      PopMatches(q, past);
  }

  lemma {:induction false} HistoryMatches(q: Queue, past: seq<Operation>, ops: seq<Operation>)
    requires QueueOk(q) && Matches(q, past) && Proper(q, ops)
    ensures QueueOk(AfterOps(q, ops)) && Matches(AfterOps(q, ops), past + ops)
    decreases |ops|
  {
    hide Matches, QueueOk, Operate, LiveIds, NotedIds;
    if ops == [] {
      assert past + ops == past;
    } else {
      assert Proper(q, [ops[0]]);
      OperateKeeps(q, ops[0], past);
      HistoryMatches(Operate(q, ops[0]), past + [ops[0]], ops[1..]);
      assert past + [ops[0]] + ops[1..] == past + ops;
    }
  }

  /** After any history of the priority queue, the id that comes out was pushed with the greatest priority of all
      that are queued; among those of that priority it was pushed with the least time, and among those of that
      time it is the least id. */
  lemma PopsMostUrgent(ops: seq<Operation>, id: TaskId, other: TaskId)
    requires Proper(Prio(multiset{}, {}), ops)
    requires var q := AfterOps(Prio(multiset{}, {}), ops);
             Pop(q).1 == Some(id) && other in LiveIds(q)
    ensures LastPush(ops, id).Some? && LastPush(ops, other).Some?
    ensures var a, b := LastPush(ops, id).value, LastPush(ops, other).value;
            || a.priority > b.priority
            || (a.priority == b.priority && a.at < b.at)
            || (a.priority == b.priority && a.at == b.at && LexLeq(id, other))
  {
    var empty := Prio(multiset{}, {});
    var q := AfterOps(empty, ops);
    HistoryMatches(empty, [], ops);
    assert [] + ops == ops;
    StaysPrio(empty, ops);
    PopRefines(q.heap, q.removed);
    var items := Live(q.heap, q.removed);
    var m :| IsLeast(m, items) && PlainPop(items) == (items - {m}, Some(m.id));
    var i :| i in items && i.id == other;
    assert ItemLeq(m, i);
  }

  lemma {:induction false} StaysPrio(q: Queue, ops: seq<Operation>)
    requires q.Prio?
    ensures AfterOps(q, ops).Prio?
    decreases |ops|
  {
    if ops != [] {
      if ops[0].Popping? { PopIsPrio(q.heap, q.removed); }
      StaysPrio(Operate(q, ops[0]), ops[1..]);
    }
  }

  lemma {:induction false} StaysFifo(q: Queue, ops: seq<Operation>)
    requires q.Fifo?
    ensures AfterOps(q, ops).Fifo?
    decreases |ops|
  {
    if ops != [] { StaysFifo(Operate(q, ops[0]), ops[1..]); }
  }

  lemma {:induction false} PopIsPrio(heap: multiset<Item>, removed: set<TaskId>)
    ensures PopHeap(heap, removed).0.Prio?
    decreases |heap|
  {
    if heap != multiset{} {
      PopIsPrio(heap - multiset{MinItem(heap)}, removed - {MinItem(heap).id});
    }
  }

  /** After any history of the first-in-first-out queue, the id that comes out was pushed before all others that
      are queued. */
  lemma PopsOldest(ops: seq<Operation>, id: TaskId, other: TaskId)
    requires Proper(Fifo([]), ops)
    requires var q := AfterOps(Fifo([]), ops);
             Pop(q).1 == Some(id) && other in LiveIds(q) && other != id
    ensures LastPush(ops, id).Some? && LastPush(ops, other).Some?
    ensures LastPush(ops, id).value.position < LastPush(ops, other).value.position
  {
    var q := AfterOps(Fifo([]), ops);
    HistoryMatches(Fifo([]), [], ops);
    assert [] + ops == ops;
    StaysFifo(Fifo([]), ops);
    var j :| 0 <= j < |q.deque| && q.deque[j] == other;
  }
}
