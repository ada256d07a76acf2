/** The scheduler's runs meet the condition under which lazy deletion is sound. */
module SchedulerQueue {
  import opened Sequences
  import opened Ordering
  import opened TaskQueues
  import opened QueueOrders
  import opened Schedulers
  import opened SchedulerInvariant

  /** What an action does to the queue. */
  ghost function QueueOps(s: State, a: Action): seq<Operation>
    requires Enabled(s, a)
  {
    match a
    case Submit(id, priority, _, _, now) => [Pushing(id, priority, now)]
    case Cancel(id) => if CancelGranted(s, id) && s.records[id].status == Pending then [Removing(id)] else []
    case PopTask(_) => [Popping]
    case Conclude(w, now) =>
      var id := s.workers[w].id;
      if s.workers[w].outcome != Good && MayRetry(s.records[id])
      then [Pushing(id, s.records[id].priority, now)] else []
    case _ => []
  }

  /** What a run does to the queue. */
  ghost function History(s: State, actions: seq<Action>): seq<Operation>
    requires Runs(s, actions)
    decreases |actions|
  {
    if actions == [] then [] else QueueOps(s, actions[0]) + History(Apply(s, actions[0]), actions[1..])
  }

  /** What the workers get from the queue in a run, pop by pop. */
  ghost function Handed(s: State, actions: seq<Action>): seq<Option<TaskId>>
    requires Runs(s, actions)
    decreases |actions|
  {
    if actions == [] then []
    else
      (if actions[0].PopTask? then [Pop(s.queue).1] else []) + Handed(Apply(s, actions[0]), actions[1..])
  }

  /** The effect of operations on a lazy queue. */
  ghost predicate Performs(q: Queue, ops: seq<Operation>, p: Queue)
    requires q.Prio?
  {
    || (ops == [] && p == q)
    || (|ops| == 1 && p.Prio? &&
        match ops[0]
        case Pushing(id, priority, at) =>
          IsFresh(q.heap, q.removed, id) && p == Prio(q.heap + multiset{Item(-priority, at, id)}, q.removed)
        case Removing(id) => p == Prio(q.heap, q.removed + {id})
        case Popping => p == PopHeap(q.heap, q.removed).0)
  }

  lemma LiveIsFresh(q: Queue, id: TaskId)
    requires q.Prio? && id !in LiveIds(q) && id !in NotedIds(q)
    ensures IsFresh(q.heap, q.removed, id)
  {
  }

  lemma SubmitPerforms(s: State, a: Action)
    requires Inv(s) && Enabled(s, a) && s.queue.Prio? && a.Submit?
    ensures Performs(s.queue, QueueOps(s, a), Apply(s, a).queue)
  {
    InvSubmit(s, a.id, a.priority, a.maxRetries, a.timeoutSec, a.now);
    hide Inv, LiveIds, NotedIds, IsFresh;
    LiveIsFresh(s.queue, a.id);
  }

  lemma ConcludePerforms(s: State, a: Action)
    requires Inv(s) && Enabled(s, a) && s.queue.Prio? && a.Conclude?
    ensures Performs(s.queue, QueueOps(s, a), Apply(s, a).queue)
  {
    var id := s.workers[a.w].id;
    assert Owns(s, a.w, id);
    OwnerAlone(s, a.w, id);
    hide Inv, LiveIds, NotedIds, IsFresh;
    LiveIsFresh(s.queue, id);
  }

  lemma StepPerforms(s: State, a: Action)
    requires Inv(s) && Enabled(s, a) && s.queue.Prio?
    ensures Performs(s.queue, QueueOps(s, a), Apply(s, a).queue)
  {
    hide Inv;
    if a.Submit? {
      SubmitPerforms(s, a);
    } else if a.Conclude? {
      ConcludePerforms(s, a);
    } else if a.PopTask? {
      PopIsPrio(s.queue.heap, s.queue.removed);
    }
  }

  /** A run is a history of queue operations with fresh pushes, and hands out what that history outputs. */
  lemma {:induction false} RunIsHistory(s: State, actions: seq<Action>)
    requires Inv(s) && Runs(s, actions) && s.queue.Prio?
    ensures PushesFresh(s.queue.heap, s.queue.removed, History(s, actions))
    ensures Handed(s, actions) == LazyOutputs(s.queue.heap, s.queue.removed, History(s, actions))
    decreases |actions|
  {
    if actions == [] {
      NothingYet(s);
    } else {
      hide *;
      var a, t := actions[0], Apply(s, actions[0]);
      var ops, rest := QueueOps(s, a), History(t, actions[1..]);
      RunsFirst(s, actions);
      StepPerforms(s, a);
      StepHands(s, a);
      InvApply(s, a);
      PerformsPrio(s.queue, ops, t.queue);
      RunIsHistory(t, actions[1..]);
      Prepend(s.queue, ops, t.queue, rest);
    }
  }

  lemma NothingYet(s: State)
    requires s.queue.Prio?
    ensures History(s, []) == [] && Handed(s, []) == []
    ensures PushesFresh(s.queue.heap, s.queue.removed, []) && LazyOutputs(s.queue.heap, s.queue.removed, []) == []
  {
  }

  lemma RunsFirst(s: State, actions: seq<Action>)
    requires Runs(s, actions) && actions != []
    ensures Enabled(s, actions[0]) && Runs(Apply(s, actions[0]), actions[1..])
    ensures var t := Apply(s, actions[0]);
            && History(s, actions) == QueueOps(s, actions[0]) + History(t, actions[1..])
            && Handed(s, actions)
               == (if actions[0].PopTask? then [Pop(s.queue).1] else []) + Handed(t, actions[1..])
  {
  }

  lemma PerformsPrio(q: Queue, ops: seq<Operation>, p: Queue)
    requires q.Prio? && Performs(q, ops, p)
    ensures p.Prio?
  {
  }

  /** One operation, if any, in front of a history. */
  lemma Prepend(q: Queue, ops: seq<Operation>, p: Queue, rest: seq<Operation>)
    requires q.Prio? && p.Prio? && Performs(q, ops, p)
    ensures PushesFresh(p.heap, p.removed, rest) ==> PushesFresh(q.heap, q.removed, ops + rest)
    ensures LazyOutputs(q.heap, q.removed, ops + rest)
         == (if ops == [Popping] then [PopHeap(q.heap, q.removed).1] else []) + LazyOutputs(p.heap, p.removed, rest)
  {
    hide IsFresh, PopHeap;
    if ops == [] {
      assert ops + rest == rest;
    } else {
      assert (ops + rest)[0] == ops[0] && (ops + rest)[1..] == rest;
    }
  }

  lemma StepHands(s: State, a: Action)
    requires Enabled(s, a) && s.queue.Prio?
    ensures QueueOps(s, a) == [Popping] <==> a.PopTask?
    ensures Pop(s.queue) == PopHeap(s.queue.heap, s.queue.removed)
  {
  }

  /** In every run from the start under the priority policy, the workers are handed exactly what a priority
      queue with real deletion would hand them. */
  lemma RunsUseAPlainQueue(s: State, actions: seq<Action>)
    requires Initial(s) && s.queue.Prio? && Runs(s, actions)
    ensures Handed(s, actions) == PlainOutputs({}, History(s, actions))
  {
    InvInitial(s);
    RunIsHistory(s, actions);
    LazyDeletionRefines(s.queue.heap, s.queue.removed, History(s, actions));
    assert Live(s.queue.heap, s.queue.removed) == {};
  }

  /* ---- the order in which tasks are handed out ---- */

  lemma StepOperates(s: State, a: Action)
    requires Inv(s) && Enabled(s, a)
    ensures var ops := QueueOps(s, a);
            Proper(s.queue, ops) && Apply(s, a).queue == AfterOps(s.queue, ops)
  {
    var ops := QueueOps(s, a);
    assert |ops| <= 1;
    assert ops != [] ==> ops[1..] == [];
    if a.Submit? {
      InvSubmit(s, a.id, a.priority, a.maxRetries, a.timeoutSec, a.now);
    } else if a.Conclude? {
      assert Owns(s, a.w, s.workers[a.w].id) && WorkerOk(s, a.w);
      OwnerAlone(s, a.w, s.workers[a.w].id);
    }
  }

  /** Under either policy the queue of a run is what its history of fresh pushes, removals and pops makes it. */
  lemma {:induction false} RunOperates(s: State, actions: seq<Action>)
    requires Inv(s) && Runs(s, actions)
    ensures Proper(s.queue, History(s, actions))
    ensures After(s, actions).queue == AfterOps(s.queue, History(s, actions))
    decreases |actions|
  {
    hide Inv, Enabled, Apply, QueueOps, Operate, LiveIds, NotedIds;
    if actions != [] {
      var a, t := actions[0], Apply(s, actions[0]);
      StepOperates(s, a);
      InvApply(s, a);
      RunOperates(t, actions[1..]);
      AfterBoth(s.queue, QueueOps(s, a), History(t, actions[1..]));
    }
  }

  lemma {:induction false} AfterBoth(q: Queue, a: seq<Operation>, b: seq<Operation>)
    requires Proper(q, a) && Proper(AfterOps(q, a), b)
    ensures Proper(q, a + b) && AfterOps(q, a + b) == AfterOps(AfterOps(q, a), b)
    decreases |a|
  {
    hide Operate, LiveIds, NotedIds;
    if a == [] {
      assert a + b == b;
    } else {
      assert (a + b)[0] == a[0] && (a + b)[1..] == a[1..] + b;
      AfterBoth(Operate(q, a[0]), a[1..], b);
    }
  }

  /** Every task was pushed, and last with the priority of its record. */
  ghost predicate Pushed(s: State, past: seq<Operation>) {
    forall id :: id in s.records ==>
      LastPush(past, id).Some? && LastPush(past, id).value.priority == s.records[id].priority
  }

  lemma StepPushed(s: State, a: Action, past: seq<Operation>)
    requires Enabled(s, a) && Pushed(s, past)
    ensures Pushed(Apply(s, a), past + QueueOps(s, a))
  {
    hide LastPush, Push, Pop, Remove;
    var ops := QueueOps(s, a);
    if ops == [] {
      assert past + ops == past;
    } else {
      assert ops == [ops[0]];
      forall id ensures LastPush(past + ops, id) == if ops[0].Pushing? && ops[0].id == id
        then Some(Entry(ops[0].priority, ops[0].at, |past|)) else LastPush(past, id)
      {
        LastPushNext(past, ops[0], id);
      }
    }
  }

  lemma {:induction false} RunPushed(s: State, actions: seq<Action>, past: seq<Operation>)
    requires Runs(s, actions) && Pushed(s, past)
    ensures Pushed(After(s, actions), past + History(s, actions))
    decreases |actions|
  {
    hide Apply, Enabled, QueueOps, Pushed;
    if actions == [] {
      assert past + [] == past;
    } else {
      var a, t := actions[0], Apply(s, actions[0]);
      StepPushed(s, a, past);
      RunPushed(t, actions[1..], past + QueueOps(s, a));
      assert past + QueueOps(s, a) + History(t, actions[1..]) == past + History(s, actions);
    }
  }

  /** In every run from the start under the priority policy, the task that is handed out has the greatest
      priority of all that are queued; among those of its priority it was queued at the least time, and among
      those of that time it has the least id. */
  lemma HandsOutTheMostUrgent(s: State, actions: seq<Action>, id: TaskId, other: TaskId)
    requires Initial(s) && s.queue.Prio? && Runs(s, actions)
    requires Pop(After(s, actions).queue).1 == Some(id) && other in LiveIds(After(s, actions).queue)
    ensures var t, past := After(s, actions), History(s, actions);
            && id in t.records && other in t.records
            && LastPush(past, id).Some? && LastPush(past, other).Some?
            && var p, q := t.records[id].priority, t.records[other].priority;
               var at, since := LastPush(past, id).value.at, LastPush(past, other).value.at;
               || p > q
               || (p == q && at < since)
               || (p == q && at == since && LexLeq(id, other))
  {
    var t, past := After(s, actions), History(s, actions);
    InvInitial(s);
    InvAfter(s, actions);
    RunOperates(s, actions);
    RunPushed(s, actions, []);
    assert [] + past == past;
    PopLive(t.queue);
    PopsMostUrgent(past, id, other);
  }

  /** In every run from the start under the first-in-first-out policy, the task that is handed out was queued
      before all others that are queued. */
  lemma HandsOutTheOldest(s: State, actions: seq<Action>, id: TaskId, other: TaskId)
    requires Initial(s) && s.queue.Fifo? && Runs(s, actions)
    requires Pop(After(s, actions).queue).1 == Some(id) && other in LiveIds(After(s, actions).queue) && other != id
    ensures var past := History(s, actions);
            && LastPush(past, id).Some? && LastPush(past, other).Some?
            && LastPush(past, id).value.position < LastPush(past, other).value.position
  {
    InvInitial(s);
    RunOperates(s, actions);
    PopsOldest(History(s, actions), id, other);
  }

  /** Priority, retries and timeout of a task stay as they were submitted. */
  lemma SettingsStay(s: State, a: Action, id: TaskId)
    requires Enabled(s, a) && id in s.records
    ensures id in Apply(s, a).records
    ensures var r, q := s.records[id], Apply(s, a).records[id];
            q.priority == r.priority && q.maxRetries == r.maxRetries && q.timeoutSec == r.timeoutSec
  {
    hide Push, Pop, Remove;
  }

  lemma {:induction false} SettingsStayOverRun(s: State, actions: seq<Action>, id: TaskId)
    requires Runs(s, actions) && id in s.records
    ensures id in After(s, actions).records
    ensures var r, q := s.records[id], After(s, actions).records[id];
            q.priority == r.priority && q.maxRetries == r.maxRetries && q.timeoutSec == r.timeoutSec
    decreases |actions|
  {
    hide Apply, Enabled;
    if actions != [] {
      SettingsStay(s, actions[0], id);
      SettingsStayOverRun(Apply(s, actions[0]), actions[1..], id);
    }
  }

  lemma {:induction false} RecordIsAsSubmitted(s: State, actions: seq<Action>, k: nat)
    requires Runs(s, actions) && k < |actions| && actions[k].Submit?
    ensures actions[k].id in After(s, actions).records
    ensures var r := After(s, actions).records[actions[k].id];
            && r.priority == actions[k].priority && r.maxRetries == actions[k].maxRetries
            && r.timeoutSec == actions[k].timeoutSec
    decreases |actions|
  {
    hide Enabled, Push, Pop, Remove;
    if k == 0 {
      SettingsStayOverRun(Apply(s, actions[0]), actions[1..], actions[0].id);
    } else {
      RecordIsAsSubmitted(Apply(s, actions[0]), actions[1..], k - 1);
    }
  }
}
