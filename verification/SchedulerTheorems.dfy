/** What the ownership invariant buys: the main results about the scheduler protocol. */
module SchedulerTheorems {
  import opened Sequences
  import opened TaskQueues
  import opened Schedulers
  import opened SchedulerInvariant

  /** The task that an action is about; a pop that finds nothing is about no task. */
  ghost function Subject(s: State, a: Action): Option<TaskId>
    requires Enabled(s, a)
  {
    match a
    case Submit(id, _, _, _, _) => Some(id)
    case Cancel(id) => Some(id)
    case SetExecutor => None
    case PopTask(w) => Pop(s.queue).1
    case Claim(w) => Some(s.workers[w].id)
    case FindNoExecutor(w) => Some(s.workers[w].id)
    case SeeCancelled(w) => Some(s.workers[w].id)
    case Launch(w) => Some(s.workers[w].id)
    case Close(w) => Some(s.workers[w].id)
    case Execute(w, _) => Some(s.workers[w].id)
    case CheckCancelled(w) => Some(s.workers[w].id)
    case Conclude(w, _) => Some(s.workers[w].id)
  }

  /** Everything about a task is the same in both states. */
  ghost predicate SameTask(s: State, t: State, id: TaskId) {
    && (id in s.records <==> id in t.records)
    && (id in s.records ==> t.records[id] == s.records[id])
    && (id in LiveIds(s.queue) <==> id in LiveIds(t.queue))
    && (forall w :: Holds(s, w, id) <==> Holds(t, w, id))
    && (forall w :: Holds(s, w, id) ==> t.workers[w] == s.workers[w])
    && (s.executor ==> t.executor)
  }

  /** At most the worker w moved, and not with this task. */
  lemma OtherWorkerMoved(s: State, t: State, w: WorkerId, id: TaskId)
    requires s.executor ==> t.executor
    requires id in s.records <==> id in t.records
    requires id in s.records ==> t.records[id] == s.records[id]
    requires id in LiveIds(s.queue) <==> id in LiveIds(t.queue)
    requires forall v :: v in s.workers <==> v in t.workers
    requires forall v :: v in s.workers && v != w ==> t.workers[v] == s.workers[v]
    requires w in s.workers && t.workers[w] != s.workers[w] ==>
               Carries(s.workers[w]) != Some(id) && Carries(t.workers[w]) != Some(id)
    ensures SameTask(s, t, id)
  {
  }

  lemma Unaffected(s: State, a: Action, id: TaskId)
    requires Inv(s) && Enabled(s, a) && Subject(s, a) != Some(id)
    ensures SameTask(s, Apply(s, a), id)
  {
    hide *;
    match a
    case Submit(j, priority, maxRetries, timeoutSec, now) => UnaffectedClient(s, a, id);
    case Cancel(j) => UnaffectedClient(s, a, id);
    case SetExecutor => UnaffectedClient(s, a, id);
    case PopTask(w) => UnaffectedPop(s, w, id);
    case Claim(w) => UnaffectedMove(s, a, id);
    case FindNoExecutor(w) => UnaffectedMove(s, a, id);
    case SeeCancelled(w) => UnaffectedMove(s, a, id);
    case Launch(w) => UnaffectedMove(s, a, id);
    case Close(w) => UnaffectedEnd(s, a, id);
    case Execute(w, outcome) => UnaffectedMove(s, a, id);
    case CheckCancelled(w) => UnaffectedEnd(s, a, id);
    case Conclude(w, now) => UnaffectedConclude(s, w, now, id);
  }

  lemma UnaffectedClient(s: State, a: Action, id: TaskId)
    requires Inv(s) && Enabled(s, a) && (a.Submit? || a.Cancel? || a.SetExecutor?) && Subject(s, a) != Some(id)
    ensures SameTask(s, Apply(s, a), id)
  {
    QueueIsOk(s);
    if a.Submit? {
      InvSubmit(s, a.id, a.priority, a.maxRetries, a.timeoutSec, a.now);
      PushLive(s.queue, a.id, a.priority, a.now);
    } else if a.Cancel? {
      RemoveLive(s.queue, a.id);
    }
    hide Inv, SameTask, QueueOk, LiveIds;
    OtherWorkerMoved(s, Apply(s, a), 0, id);
  }

  lemma UnaffectedPop(s: State, w: WorkerId, id: TaskId)
    requires Inv(s) && Enabled(s, PopTask(w)) && Subject(s, PopTask(w)) != Some(id)
    ensures SameTask(s, Apply(s, PopTask(w)), id)
  {
    QueueIsOk(s);
    PopLive(s.queue);
    hide Inv, SameTask, QueueOk, LiveIds;
    OtherWorkerMoved(s, Apply(s, PopTask(w)), w, id);
  }

  lemma UnaffectedMove(s: State, a: Action, id: TaskId)
    requires Enabled(s, a) && Subject(s, a) != Some(id)
    requires a.Claim? || a.FindNoExecutor? || a.SeeCancelled? || a.Launch? || a.Execute?
    ensures SameTask(s, Apply(s, a), id)
  {
    hide SameTask, QueueOk, LiveIds, Pop;
    OtherWorkerMoved(s, Apply(s, a), a.w, id);
  }

  lemma UnaffectedEnd(s: State, a: Action, id: TaskId)
    requires Enabled(s, a) && (a.Close? || a.CheckCancelled?) && Subject(s, a) != Some(id)
    ensures SameTask(s, Apply(s, a), id)
  {
    hide SameTask, QueueOk, LiveIds, Pop;
    OtherWorkerMoved(s, Apply(s, a), a.w, id);
  }

  lemma QueueIsOk(s: State)
    requires Inv(s)
    ensures QueueOk(s.queue)
  {
  }

  lemma UnaffectedConclude(s: State, w: WorkerId, now: real, id: TaskId)
    requires Inv(s) && Enabled(s, Conclude(w, now)) && Subject(s, Conclude(w, now)) != Some(id)
    ensures SameTask(s, Apply(s, Conclude(w, now)), id)
  {
    var j := s.workers[w].id;
    assert Owns(s, w, j) && WorkerOk(s, w);
    OwnerAlone(s, w, j);
    PushLive(s.queue, j, s.records[j].priority, now);
    ConcludeElsewhere(s, w, now, id);
  }

  lemma ConcludeElsewhere(s: State, w: WorkerId, now: real, id: TaskId)
    requires Enabled(s, Conclude(w, now)) && s.workers[w].id != id
    requires var j := s.workers[w].id;
             id in LiveIds(Push(s.queue, j, s.records[j].priority, now)) <==> id in LiveIds(s.queue)
    ensures SameTask(s, Apply(s, Conclude(w, now)), id)
  {
    hide SameTask, LiveIds, Push, MayRetry;
    OtherWorkerMoved(s, Apply(s, Conclude(w, now)), w, id);
  }

  /** The status of a task about which a worker acts. */
  lemma SubjectStatus(s: State, a: Action, w: WorkerId, id: TaskId)
    requires Inv(s) && Enabled(s, a) && Holds(s, w, id)
    ensures id in s.records
    ensures !s.workers[w].Popped? ==> s.records[id].status == Running
    ensures s.workers[w].Popped? ==> s.records[id].status == Pending || s.records[id].status == Cancelled
  {
    assert WorkerOk(s, w);
    assert s.workers[w].Popped? ==> Waits(s, w, id);
    assert !s.workers[w].Popped? ==> Owns(s, w, id);
    assert RecordOk(s, id);
  }

  /* ---- terminal statuses are absorbing ---- */

  /** No action changes the record of a finished task: no verdict is ever overwritten. */
  lemma TerminalStep(s: State, a: Action, id: TaskId)
    requires Inv(s) && Enabled(s, a) && id in s.records && Terminal(s.records[id].status)
    ensures id in Apply(s, a).records && Apply(s, a).records[id] == s.records[id]
  {
    if Subject(s, a) != Some(id) {
      Unaffected(s, a, id);
    } else {
      match a
      case Submit(_, _, _, _, _) =>
      case Cancel(_) =>
      case PopTask(w) =>
      case Claim(w) => assert Holds(s, w, id); SubjectStatus(s, a, w, id);
      case FindNoExecutor(w) =>
      case SeeCancelled(w) =>
      case Launch(w) =>
      case Close(w) => assert Holds(s, w, id); SubjectStatus(s, a, w, id);
      case Execute(w, _) =>
      case CheckCancelled(w) => assert Holds(s, w, id); SubjectStatus(s, a, w, id);
      case Conclude(w, _) => assert Holds(s, w, id); SubjectStatus(s, a, w, id);
    }
  }

  lemma {:induction false} TerminalIsFinal(s: State, actions: seq<Action>, id: TaskId)
    requires Inv(s) && Runs(s, actions) && id in s.records && Terminal(s.records[id].status)
    ensures id in After(s, actions).records && After(s, actions).records[id] == s.records[id]
    decreases |actions|
  {
    hide Inv, Apply;
    if actions != [] {
      TerminalStep(s, actions[0], id);
      InvApply(s, actions[0]);
      TerminalIsFinal(Apply(s, actions[0]), actions[1..], id);
    }
  }

  /* ---- one token per task ---- */

  /** At every lock boundary of every interleaving: a pending task is either queued or held by exactly one
      worker that has popped it, a running task has exactly one owner, and the completion event is set
      exactly for finished tasks. */
  lemma TokensAndEvents(s: State, actions: seq<Action>, id: TaskId)
    requires Initial(s) && Runs(s, actions) && id in After(s, actions).records
    ensures var t := After(s, actions);
            var r := t.records[id];
            && (r.status == Pending ==> (id in LiveIds(t.queue) <==> !exists w :: Holds(t, w, id)))
            && (r.status == Pending ==> forall w :: Holds(t, w, id) ==> Waits(t, w, id))
            && (r.status == Running ==> exists w :: Owns(t, w, id))
            && (Terminal(r.status) ==> id !in LiveIds(t.queue) && forall w :: !Owns(t, w, id))
            && (forall v, w :: Holds(t, v, id) && Holds(t, w, id) ==> v == w)
            && (r.doneEvent <==> Terminal(r.status))
  {
    InvInitial(s);
    InvAfter(s, actions);
    var t := After(s, actions);
    assert RecordOk(t, id) && OneToken(t, id);
    assert forall w :: Waits(t, w, id) ==> Holds(t, w, id);
  }

  /** What a waiting client reports once it has seen the completion event: the result, or the failure. */
  datatype Answer = Result | Failure(status: Status)

  function WaitAnswer(r: Record): Answer {
    if r.status == Success then Result else Failure(r.status)
  }

  /** A client that has seen the event reads a final status, and every later reader the same one. */
  lemma WaitedAnswerIsFinal(s: State, actions: seq<Action>, later: seq<Action>, id: TaskId)
    requires Initial(s) && Runs(s, actions) && id in After(s, actions).records
    requires After(s, actions).records[id].doneEvent
    requires Runs(After(s, actions), later)
    ensures var r := After(s, actions).records[id];
            && WaitAnswer(r) != Failure(Pending) && WaitAnswer(r) != Failure(Running)
            && id in After(After(s, actions), later).records
            && WaitAnswer(After(After(s, actions), later).records[id]) == WaitAnswer(r)
  {
    TokensAndEvents(s, actions, id);
    InvInitial(s);
    InvAfter(s, actions);
    TerminalIsFinal(After(s, actions), later, id);
  }

  /* ---- bounded retries ---- */

  function MaxRetries(r: Record): nat {
    if r.maxRetries > 0 then r.maxRetries else 0
  }

  /** A task is claimed at most max(0, maxRetries) + 1 times, and a task without a positive timeout never
      times out. */
  lemma ClaimsBounded(s: State, actions: seq<Action>, id: TaskId)
    requires Initial(s) && Runs(s, actions) && id in After(s, actions).records
    ensures var r := After(s, actions).records[id];
            && r.retryCount <= MaxRetries(r) && r.claims <= MaxRetries(r) + 1
            && (r.status == TimedOut ==> r.timeoutSec != None && r.timeoutSec.value > 0.0)
  {
    InvInitial(s);
    InvAfter(s, actions);
    assert RecordOk(After(s, actions), id);
  }
}
