/** The two task queues of the scheduler. Removal from the priority queue is lazy: the id is only noted,
    and its heap entry is dropped when it comes up. */
module TaskQueues {
  import opened Sequences
  import opened Ordering

  type TaskId = string

  /** Heap entries; the smallest comes first. The id is the last component of the sort key. */
  datatype Item = Item(negPriority: int, enqueuedAt: real, id: TaskId)

  predicate ItemLeq(a: Item, b: Item) {
    || a.negPriority < b.negPriority
    || (a.negPriority == b.negPriority
        && (a.enqueuedAt < b.enqueuedAt || (a.enqueuedAt == b.enqueuedAt && LexLeq(a.id, b.id))))
  }

  lemma ItemOrder(a: Item, b: Item, c: Item)
    ensures ItemLeq(a, b) || ItemLeq(b, a)
    ensures ItemLeq(a, b) && ItemLeq(b, a) ==> a == b
    ensures ItemLeq(a, b) && ItemLeq(b, c) ==> ItemLeq(a, c)
  {
    LexTotal(a.id, b.id);
    if LexLeq(a.id, b.id) && LexLeq(b.id, c.id) { LexTransitive(a.id, b.id, c.id); }
  }

  ghost predicate IsMin(m: Item, heap: multiset<Item>) {
    m in heap && forall x :: x in heap ==> ItemLeq(m, x)
  }

  lemma {:induction false} MinExists(heap: multiset<Item>) returns (m: Item)
    requires heap != multiset{}
    ensures IsMin(m, heap)
    decreases |heap|
  {
    var x :| x in heap;
    var rest := heap - multiset{x};
    if rest == multiset{} {
      m := x;
      forall y | y in heap ensures ItemLeq(m, y) {
        assert heap == rest + multiset{x};
        ItemOrder(x, x, x);
      }
    } else {
      var n := MinExists(rest);
      ItemOrder(x, n, n);
      m := if ItemLeq(x, n) then x else n;
      forall y | y in heap ensures ItemLeq(m, y) {
        assert y == x || y in rest;
        ItemOrder(m, n, y);
        ItemOrder(m, x, x);
      }
    }
  }

  lemma MinUnique(a: Item, b: Item, heap: multiset<Item>)
    requires IsMin(a, heap) && IsMin(b, heap)
    ensures a == b
  {
    ItemOrder(a, b, b);
  }

  lemma MinIsThere(heap: multiset<Item>)
    requires heap != multiset{}
    ensures exists m :: IsMin(m, heap)
  {
    var m := MinExists(heap);
  }

  ghost function MinItem(heap: multiset<Item>): (m: Item)
    requires heap != multiset{}
    ensures IsMin(m, heap)
  {
    MinIsThere(heap);
    var m :| IsMin(m, heap);
    m
  }

  /* ---- queues as values ---- */

  datatype Queue = Fifo(deque: seq<TaskId>) | Prio(heap: multiset<Item>, removed: set<TaskId>)

  function Push(q: Queue, id: TaskId, priority: int, at: real): Queue {
    match q
    case Fifo(deque) => Fifo(deque + [id])
    case Prio(heap, removed) => Prio(heap + multiset{Item(-priority, at, id)}, removed)
  }

  function RemoveFirst(s: seq<TaskId>, id: TaskId): seq<TaskId> {
    if s == [] then [] else if s[0] == id then s[1..] else [s[0]] + RemoveFirst(s[1..], id)
  }

  function Remove(q: Queue, id: TaskId): Queue {
    match q
    case Fifo(deque) => Fifo(RemoveFirst(deque, id))
    case Prio(heap, removed) => Prio(heap, removed + {id})
  }

  /** A pop with nothing left to give stands for one that times out. */
  ghost function PopHeap(heap: multiset<Item>, removed: set<TaskId>): (Queue, Option<TaskId>)
    decreases |heap|
  {
    if heap == multiset{} then (Prio(heap, removed), None)
    else
      var m := MinItem(heap);
      var rest := heap - multiset{m};
      if m.id in removed then PopHeap(rest, removed - {m.id})
      else (Prio(rest, removed), Some(m.id))
  }

  ghost function Pop(q: Queue): (Queue, Option<TaskId>) {
    match q
    case Fifo(deque) => if deque == [] then (q, None) else (Fifo(deque[1..]), Some(deque[0]))
    case Prio(heap, removed) => PopHeap(heap, removed)
  }

  /* ---- lazy deletion refines real deletion ---- */

  /** No two heap entries for one id. */
  ghost predicate DistinctIds(heap: multiset<Item>) {
    && (forall a, b :: a in heap && b in heap && a.id == b.id ==> a == b)
    && (forall a :: a in heap ==> heap[a] == 1)
  }

  ghost function Ids(items: set<Item>): set<TaskId> {
    set i | i in items :: i.id
  }

  /** The entries that count: a plain priority queue with real deletion. */
  ghost function Live(heap: multiset<Item>, removed: set<TaskId>): set<Item> {
    set i | i in heap && i.id !in removed
  }

  ghost predicate IsLeast(m: Item, items: set<Item>) {
    m in items && forall x :: x in items ==> ItemLeq(m, x)
  }

  /** Pop of a plain priority queue. */
  ghost function PlainPop(items: set<Item>): (r: (set<Item>, Option<TaskId>))
    ensures r.1 == None <==> items == {}
    ensures r.1.Some? ==> exists m :: IsLeast(m, items) && r == (items - {m}, Some(m.id))
  {
    if items == {} then (items, None)
    else
      assert var x :| x in items; x in multiset(items);
      var m := MinItem(multiset(items));
      assert IsLeast(m, items);
      (items - {m}, Some(m.id))
  }

  ghost function Without(items: set<Item>, id: TaskId): set<Item> {
    set i | i in items && i.id != id
  }

  /** Popping returns the least live entry and deletes it; it returns nothing exactly when none is live. */
  lemma {:induction false} PopRefines(heap: multiset<Item>, removed: set<TaskId>)
    requires DistinctIds(heap)
    ensures PopHeap(heap, removed).0.Prio?
    ensures var (q, r) := PopHeap(heap, removed);
            && DistinctIds(q.heap) && q.heap <= heap && q.removed <= removed
            && (Live(q.heap, q.removed), r) == PlainPop(Live(heap, removed))
    decreases |heap|
  {
    if heap != multiset{} {
      var m := MinItem(heap);
      var rest := heap - multiset{m};
      DistinctRest(heap, m);
      if m.id in removed {
        PopRefines(rest, removed - {m.id});
        assert Live(rest, removed - {m.id}) == Live(heap, removed) by { LiveWithoutDead(heap, removed, m); }
      } else {
        LiveWithoutMin(heap, removed, m);
        LeastUnique(Live(heap, removed), m);
      }
    }
  }

  lemma LeastUnique(items: set<Item>, m: Item)
    requires IsLeast(m, items)
    ensures PlainPop(items) == (items - {m}, Some(m.id))
  {
    var n :| IsLeast(n, items) && PlainPop(items) == (items - {n}, Some(n.id));
    ItemOrder(m, n, n);
  }

  lemma DistinctRest(heap: multiset<Item>, m: Item)
    requires DistinctIds(heap) && m in heap
    ensures DistinctIds(heap - multiset{m})
    ensures forall x :: x in heap - multiset{m} <==> x in heap && x != m
    ensures forall x :: x in heap - multiset{m} ==> x.id != m.id
  {
    var rest := heap - multiset{m};
    forall x ensures x in rest <==> x in heap && x != m {
      assert rest[x] == if x == m then 0 else heap[x];
    }
    forall x | x in rest ensures rest[x] == 1 {
      assert rest[x] == heap[x];
    }
  }

  lemma LiveWithoutDead(heap: multiset<Item>, removed: set<TaskId>, m: Item)
    requires DistinctIds(heap) && m in heap && m.id in removed
    ensures Live(heap - multiset{m}, removed - {m.id}) == Live(heap, removed)
  {
    DistinctRest(heap, m);
  }

  lemma LiveWithoutMin(heap: multiset<Item>, removed: set<TaskId>, m: Item)
    requires DistinctIds(heap) && IsMin(m, heap) && m.id !in removed
    ensures IsLeast(m, Live(heap, removed))
    ensures Live(heap - multiset{m}, removed) == Live(heap, removed) - {m}
  {
    DistinctRest(heap, m);
  }

  /** A pushed entry becomes live exactly when its id has not been removed before. */
  lemma PushRefines(heap: multiset<Item>, removed: set<TaskId>, item: Item)
    requires DistinctIds(heap) && item.id !in Ids(Live(heap, {}))
    ensures DistinctIds(heap + multiset{item})
    ensures Live(heap + multiset{item}, removed) == Live(heap, removed) + {item} <==> item.id !in removed
  {
    var new' := heap + multiset{item};
    assert forall x :: x in new' <==> x in heap || x == item;
    assert item !in heap by { assert item in heap ==> item in Live(heap, {}); }
    forall a, b | a in new' && b in new' && a.id == b.id ensures a == b {
      assert a in heap ==> a in Live(heap, {}) && a.id in Ids(Live(heap, {}));
      assert b in heap ==> b in Live(heap, {}) && b.id in Ids(Live(heap, {}));
    }
    forall a | a in new' ensures new'[a] == 1 {
      assert new'[a] == heap[a] + (if a == item then 1 else 0);
    }
    assert item in Live(heap, removed) + {item};
  }

  lemma RemoveRefines(heap: multiset<Item>, removed: set<TaskId>, id: TaskId)
    ensures Live(heap, removed + {id}) == Without(Live(heap, removed), id)
  {
  }

  /* ---- whole histories ---- */

  datatype Operation = Pushing(id: TaskId, priority: int, at: real) | Removing(id: TaskId) | Popping

  /** The outputs of a history on the lazy queue. */
  ghost function LazyOutputs(heap: multiset<Item>, removed: set<TaskId>, ops: seq<Operation>): seq<Option<TaskId>>
    decreases |ops|
  {
    if ops == [] then []
    else
      match ops[0]
      case Pushing(id, priority, at) => LazyOutputs(heap + multiset{Item(-priority, at, id)}, removed, ops[1..])
      case Removing(id) => LazyOutputs(heap, removed + {id}, ops[1..])
      case Popping =>
        var (q, r) := PopHeap(heap, removed);
        if q.Prio? then [r] + LazyOutputs(q.heap, q.removed, ops[1..]) else [r]
  }

  /** The outputs of a history on a priority queue with real deletion. */
  ghost function PlainOutputs(items: set<Item>, ops: seq<Operation>): seq<Option<TaskId>>
    decreases |ops|
  {
    if ops == [] then []
    else
      match ops[0]
      case Pushing(id, priority, at) => PlainOutputs(items + {Item(-priority, at, id)}, ops[1..])
      case Removing(id) => PlainOutputs(Without(items, id), ops[1..])
      case Popping => [PlainPop(items).1] + PlainOutputs(PlainPop(items).0, ops[1..])
  }

  /** No id is pushed while it is queued, or while its removal is still noted. */
  ghost predicate PushesFresh(heap: multiset<Item>, removed: set<TaskId>, ops: seq<Operation>)
    decreases |ops|
  {
    if ops == [] then true
    else
      match ops[0]
      case Pushing(id, priority, at) =>
        IsFresh(heap, removed, id) && PushesFresh(heap + multiset{Item(-priority, at, id)}, removed, ops[1..])
      case Removing(id) => PushesFresh(heap, removed + {id}, ops[1..])
      case Popping =>
        var q := PopHeap(heap, removed).0;
        q.Prio? ==> PushesFresh(q.heap, q.removed, ops[1..])
  }

  ghost predicate IsFresh(heap: multiset<Item>, removed: set<TaskId>, id: TaskId) {
    id !in removed && id !in Ids(Live(heap, removed))
  }

  /** Over every such history the lazy queue answers like the plain one. */
  lemma {:induction false} LazyDeletionRefines(heap: multiset<Item>, removed: set<TaskId>, ops: seq<Operation>)
    requires DistinctIds(heap) && PushesFresh(heap, removed, ops)
    ensures LazyOutputs(heap, removed, ops) == PlainOutputs(Live(heap, removed), ops)
    decreases |ops|
  {
    hide DistinctIds, Live, PlainPop, PopHeap;
    if ops != [] {
      match ops[0]
      case Pushing(id, priority, at) =>
        var item := Item(-priority, at, id);
        NotQueued(heap, removed, item);
        PushRefines(heap, removed, item);
        LazyDeletionRefines(heap + multiset{item}, removed, ops[1..]);
      case Removing(id) =>
        RemoveRefines(heap, removed, id);
        LazyDeletionRefines(heap, removed + {id}, ops[1..]);
      case Popping =>
        PopRefines(heap, removed);
        var q := PopHeap(heap, removed).0;
        LazyDeletionRefines(q.heap, q.removed, ops[1..]);
    }
  }

  lemma NotQueued(heap: multiset<Item>, removed: set<TaskId>, item: Item)
    requires item.id !in removed && item.id !in Ids(Live(heap, removed))
    ensures item.id !in Ids(Live(heap, {}))
  {
    forall i | i in heap ensures i.id != item.id {
      assert i.id !in removed ==> i in Live(heap, removed);
    }
  }

  /** Without the proviso the queues differ: an id that is pushed after its removal is lost. */
  lemma PushAfterRemoveIsLost(id: TaskId, priority: int, at: real)
    ensures var ops := [Removing(id), Pushing(id, priority, at), Popping];
            && LazyOutputs(multiset{}, {}, ops) == [None]
            && PlainOutputs({}, ops) == [Some(id)]
  {
    var ops := [Removing(id), Pushing(id, priority, at), Popping];
    var item := Item(-priority, at, id);
    var removed := {} + {item.id};
    var heap := multiset{} + multiset{item};
    var two, one := ops[1..], ops[1..][1..];
    assert two[0] == Pushing(id, priority, at) && one[0] == Popping && one[1..] == [];
    assert MinItem(heap) == item;
    assert heap - multiset{item} == multiset{};
    assert PopHeap(heap, removed) == PopHeap(multiset{}, removed - {item.id});
    assert LazyOutputs(heap, removed, one) == [None];
    assert LazyOutputs(multiset{}, removed, two) == LazyOutputs(heap, removed, one);
    var items := Without({}, item.id) + {item};
    ItemOrder(item, item, item);
    assert items == {item};
    LeastUnique(items, item);
    assert PlainOutputs(items, one) == [Some(item.id)] + PlainOutputs({}, one[1..]);
    assert PlainOutputs(Without({}, item.id), two) == PlainOutputs(items, one);
  }

  /* ---- what the scheduler needs of either queue ---- */

  ghost predicate QueueOk(q: Queue) {
    match q
    case Fifo(deque) => NoDup(deque)
    case Prio(heap, removed) => DistinctIds(heap)
  }

  /** The ids that will come out. */
  ghost function LiveIds(q: Queue): set<TaskId> {
    match q
    case Fifo(deque) => Elems(deque)
    case Prio(heap, removed) => Ids(Live(heap, removed))
  }

  /** The ids noted as removed. */
  function NotedIds(q: Queue): set<TaskId> {
    match q
    case Fifo(deque) => {}
    case Prio(heap, removed) => removed
  }

  lemma PushLive(q: Queue, id: TaskId, priority: int, at: real)
    requires QueueOk(q) && id !in LiveIds(q) && id !in NotedIds(q)
    ensures var p := Push(q, id, priority, at);
            QueueOk(p) && LiveIds(p) == LiveIds(q) + {id} && NotedIds(p) == NotedIds(q)
  {
    match q
    case Fifo(deque) => NoDupAppend(deque, id);
    case Prio(heap, removed) =>
      var item := Item(-priority, at, id);
      NotQueued(heap, removed, item);
      PushRefines(heap, removed, item);
      IdsAdd(Live(heap, removed), item);
  }

  lemma IdsAdd(items: set<Item>, item: Item)
    ensures Ids(items + {item}) == Ids(items) + {item.id}
  {
    assert item in items + {item};
    forall id | id in Ids(items) ensures id in Ids(items + {item}) {
      var i :| i in items && i.id == id;
      assert i in items + {item};
    }
  }

  lemma PopLive(q: Queue)
    requires QueueOk(q)
    ensures var (p, r) := Pop(q);
            && QueueOk(p) && NotedIds(p) <= NotedIds(q)
            && (r == None <==> LiveIds(q) == {})
            && (r == None ==> LiveIds(p) == {})
            && (r.Some? ==> r.value in LiveIds(q) && LiveIds(p) == LiveIds(q) - {r.value})
  {
    match q
    case Fifo(deque) =>
      if deque != [] {
        assert deque == [deque[0]] + deque[1..];
        assert deque[0] !in deque[1..] && deque[0] in LiveIds(q);
      }
    case Prio(heap, removed) =>
      PopRefines(heap, removed);
      var items := Live(heap, removed);
      if items == {} {
      } else {
        var m :| IsLeast(m, items) && PlainPop(items) == (items - {m}, Some(m.id));
        IdsSub(heap, removed, m);
        assert m.id in Ids(items);
      }
  }

  lemma IdsSub(heap: multiset<Item>, removed: set<TaskId>, m: Item)
    requires DistinctIds(heap) && m in Live(heap, removed)
    ensures Ids(Live(heap, removed) - {m}) == Ids(Live(heap, removed)) - {m.id}
  {
    var items := Live(heap, removed);
    forall id | id in Ids(items) && id != m.id ensures id in Ids(items - {m}) {
      var i :| i in items && i.id == id;
      assert i in items - {m};
    }
  }

  lemma {:induction false} RemoveFirstElems(s: seq<TaskId>, id: TaskId)
    requires NoDup(s)
    ensures NoDup(RemoveFirst(s, id)) && Elems(RemoveFirst(s, id)) == Elems(s) - {id}
  {
    if s != [] {
      assert s == [s[0]] + s[1..] && s[0] !in s[1..];
      RemoveFirstElems(s[1..], id);
      var t := RemoveFirst(s[1..], id);
      assert forall x :: x in t <==> x in Elems(t);
      assert forall x :: x in s[1..] <==> x in Elems(s[1..]);
      if s[0] != id {
        assert s[0] !in t;
        assert forall x :: x in [s[0]] + t <==> x == s[0] || x in t;
      }
    }
  }

  lemma {:induction false} RemoveFirstAt(s: seq<TaskId>, id: TaskId, i: nat)
    requires i <= |s| && forall k :: 0 <= k < i ==> s[k] != id
    requires i < |s| ==> s[i] == id
    ensures RemoveFirst(s, id) == if i < |s| then s[..i] + s[i + 1..] else s
  {
    if i > 0 {
      RemoveFirstAt(s[1..], id, i - 1);
      if i < |s| {
        assert s[..i] == [s[0]] + s[1..][..i - 1];
        assert s[i + 1..] == s[1..][i..];
      }
    }
  }

  lemma RemoveLive(q: Queue, id: TaskId)
    requires QueueOk(q)
    ensures QueueOk(Remove(q, id)) && LiveIds(Remove(q, id)) == LiveIds(q) - {id}
    ensures NotedIds(Remove(q, id)) <= NotedIds(q) + {id}
  {
    match q
    case Fifo(deque) => RemoveFirstElems(deque, id);
    case Prio(heap, removed) =>
      RemoveRefines(heap, removed, id);
      var items := Live(heap, removed);
      forall x | x in Ids(items) && x != id ensures x in Ids(Without(items, id)) {
        var i :| i in items && i.id == x;
        assert i in Without(items, id);
      }
  }

  /* ---- the queue objects ---- */

  class FIFOQueue {
    var deque: seq<TaskId>

    ghost function View(): Queue
      reads this
    {
      Fifo(deque)
    }

    constructor ()
      ensures View() == Fifo([])
    {
      deque := [];
    }

    method PushTask(id: TaskId, priority: int, enqueuedAt: real)
      modifies this
      ensures View() == Push(old(View()), id, priority, enqueuedAt)
    {
      deque := deque + [id];
    }

    method PopTask() returns (r: Option<TaskId>)
      modifies this
      ensures (View(), r) == Pop(old(View()))
    {
      if deque == [] {
        return None;
      }
      r := Some(deque[0]);
      deque := deque[1..];
    }

    method RemoveTask(id: TaskId) returns (found: bool)
      modifies this
      ensures View() == Remove(old(View()), id) && found == (id in old(deque))
    {
      var i := 0;
      while i < |deque| && deque[i] != id
        invariant i <= |deque| && forall k :: 0 <= k < i ==> deque[k] != id
      {
        i := i + 1;
      }
      RemoveFirstAt(deque, id, i);
      if i == |deque| {
        return false;
      }
      deque := deque[..i] + deque[i + 1..];
      return true;
    }
  }

  class PriorityTaskQueue {
    var heap: multiset<Item>
    var removed: set<TaskId>

    ghost function View(): Queue
      reads this
    {
      Prio(heap, removed)
    }

    constructor ()
      ensures View() == Prio(multiset{}, {})
    {
      heap, removed := multiset{}, {};
    }

    method PushTask(id: TaskId, priority: int, enqueuedAt: real)
      modifies this
      ensures View() == Push(old(View()), id, priority, enqueuedAt)
    {
      heap := heap + multiset{Item(-priority, enqueuedAt, id)};
    }

    method PopTask() returns (r: Option<TaskId>)
      modifies this
      ensures (View(), r) == Pop(old(View()))
    {
      while heap != multiset{}
        invariant PopHeap(heap, removed) == PopHeap(old(heap), old(removed))
        decreases |heap|
      {
        MinIsThere(heap);
        var item :| item in heap && forall x :: x in heap ==> ItemLeq(item, x);
        MinUnique(item, MinItem(heap), heap);
        heap := heap - multiset{item};
        if item.id in removed {
          removed := removed - {item.id};
          continue;
        }
        return Some(item.id);
      }
      return None;
    }

    method RemoveTask(id: TaskId) returns (found: bool)
      modifies this
      ensures View() == Remove(old(View()), id) && found
    {
      removed := removed + {id};
      return true;
    }
  }
}
