/** The agent scheduler as a protocol: any number of clients and workers, interleaved at the points where
    the source releases its lock. Every action below is one locked section, one queue access, or one
    unlocked read. The scheduler object in SchedulerSections.dfy is proved to perform these actions. */
module Schedulers {
  import opened Sequences
  import opened TaskQueues

  datatype Status = Pending | Running | Success | Failed | TimedOut | Cancelled

  predicate Terminal(status: Status) {
    status != Pending && status != Running
  }

  /** A task record with its completion event; `claims` is a history variable that counts how often a
      worker has taken the task to execution. */
  datatype Record = Record(
    status: Status, priority: int, maxRetries: int, retryCount: nat, timeoutSec: Option<real>,
    cancelled: bool, doneEvent: bool, claims: nat)

  /** How an execution came out: a successful agent result, an unsuccessful or malformed one, an exception,
      or a timeout. */
  datatype Outcome = Good | Unsuccessful | Crashed | Overdue

  /** Where a worker stands in its current task. */
  datatype Worker =
    | Idle
    | Popped(id: TaskId)                       // took the id off the queue, lock not yet acquired
    | Claimed(id: TaskId)                      // marked the record as running
    | Launched(id: TaskId)                     // found an executor and no cancellation, hands the call over
    | Closing(id: TaskId, verdict: Status)     // decided on a verdict without executing
    | Ran(id: TaskId, outcome: Outcome)        // execution returned
    | Checked(id: TaskId, outcome: Outcome)    // passed the cancellation check after execution

  type WorkerId = nat

  /** `executor` says whether an execution function is bound; it is never unbound. */
  datatype State = State(
    records: map<TaskId, Record>, queue: Queue, workers: map<WorkerId, Worker>, executor: bool)

  datatype Action =
    | Submit(id: TaskId, priority: int, maxRetries: int, timeoutSec: Option<real>, now: real)
    | Cancel(id: TaskId)
    | SetExecutor
    | PopTask(w: WorkerId)
    | Claim(w: WorkerId)
    | FindNoExecutor(w: WorkerId)
    | SeeCancelled(w: WorkerId)
    | Launch(w: WorkerId)
    | Close(w: WorkerId)
    | Execute(w: WorkerId, outcome: Outcome)
    | CheckCancelled(w: WorkerId)
    | Conclude(w: WorkerId, now: real)

  /* ---- the locked sections ---- */

  /** Writes a verdict without looking at the status, as the source does. */
  function Finalize(s: State, id: TaskId, verdict: Status): State
    requires id in s.records
  {
    s.(records := s.records[id := s.records[id].(status := verdict, doneEvent := true)])
  }

  predicate TimeoutSet(r: Record) {
    r.timeoutSec.Some? && r.timeoutSec.value > 0.0
  }

  predicate MayRetry(r: Record) {
    r.retryCount < r.maxRetries && !r.cancelled
  }

  function Requeue(s: State, id: TaskId, now: real): State
    requires id in s.records
  {
    var r := s.records[id];
    s.(records := s.records[id := r.(status := Pending, retryCount := r.retryCount + 1)],
       queue := Push(s.queue, id, r.priority, now))
  }

  function FailureVerdict(outcome: Outcome): Status {
    if outcome == Overdue then TimedOut else Failed
  }

  function HandleFailure(s: State, id: TaskId, outcome: Outcome, now: real): State
    requires id in s.records
  {
    if MayRetry(s.records[id]) then Requeue(s, id, now) else Finalize(s, id, FailureVerdict(outcome))
  }

  function At(s: State, w: WorkerId, pc: Worker): State {
    s.(workers := s.workers[w := pc])
  }

  function CancelGranted(s: State, id: TaskId): bool {
    id in s.records && !Terminal(s.records[id].status)
  }

  function CancelTask(s: State, id: TaskId): State {
    if !CancelGranted(s, id) then s
    else
      var r := s.records[id].(cancelled := true);
      if r.status == Pending then
        s.(records := s.records[id := r.(status := Cancelled, doneEvent := true)], queue := Remove(s.queue, id))
      else s.(records := s.records[id := r])
  }

  /* ---- actions ---- */

  predicate Enabled(s: State, a: Action) {
    match a
    case Submit(id, _, _, _, _) => id !in s.records
    case Cancel(id) => true
    case SetExecutor => true
    case PopTask(w) => w in s.workers && s.workers[w].Idle?
    case Claim(w) => w in s.workers && s.workers[w].Popped?
    case FindNoExecutor(w) => w in s.workers && s.workers[w].Claimed? && !s.executor
    case SeeCancelled(w) =>
      && w in s.workers && s.workers[w].Claimed? && s.executor
      && s.workers[w].id in s.records && s.records[s.workers[w].id].cancelled
    case Launch(w) =>
      && w in s.workers && s.workers[w].Claimed? && s.executor
      && s.workers[w].id in s.records && !s.records[s.workers[w].id].cancelled
    case Close(w) => w in s.workers && s.workers[w].Closing? && s.workers[w].id in s.records
    case Execute(w, outcome) =>
      && w in s.workers && s.workers[w].Launched? && s.workers[w].id in s.records
      && (outcome == Overdue ==> TimeoutSet(s.records[s.workers[w].id]))
    case CheckCancelled(w) => w in s.workers && s.workers[w].Ran? && s.workers[w].id in s.records
    case Conclude(w, _) => w in s.workers && s.workers[w].Checked? && s.workers[w].id in s.records
  }

  ghost function Apply(s: State, a: Action): State
    requires Enabled(s, a)
  {
    match a
    case Submit(id, priority, maxRetries, timeoutSec, now) =>
      s.(records := s.records[id := Record(Pending, priority, maxRetries, 0, timeoutSec, false, false, 0)],
         queue := Push(s.queue, id, priority, now))
    case Cancel(id) => CancelTask(s, id)
    case SetExecutor => s.(executor := true)
    case PopTask(w) =>
      var (q, r) := Pop(s.queue);
      s.(queue := q, workers := if r.None? then s.workers else s.workers[w := Popped(r.value)])
    case Claim(w) => ClaimTask(s, w)
    case FindNoExecutor(w) => At(s, w, Closing(s.workers[w].id, Failed))
    case SeeCancelled(w) => At(s, w, Closing(s.workers[w].id, Cancelled))
    case Launch(w) => At(s, w, Launched(s.workers[w].id))
    case Close(w) => At(Finalize(s, s.workers[w].id, s.workers[w].verdict), w, Idle)
    case Execute(w, outcome) => At(s, w, Ran(s.workers[w].id, outcome))
    case CheckCancelled(w) =>
      var Ran(id, outcome) := s.workers[w];
      if s.records[id].cancelled && outcome != Overdue then At(Finalize(s, id, Cancelled), w, Idle)
      else At(s, w, Checked(id, outcome))
    case Conclude(w, now) =>
      var Checked(id, outcome) := s.workers[w];
      At(if outcome == Good then Finalize(s, id, Success) else HandleFailure(s, id, outcome, now), w, Idle)
  }

  function ClaimTask(s: State, w: WorkerId): State
    requires w in s.workers && s.workers[w].Popped?
  {
    var id := s.workers[w].id;
    if id !in s.records || s.records[id].cancelled || s.records[id].status != Pending then At(s, w, Idle)
    else
      var r := s.records[id];
      At(s.(records := s.records[id := r.(status := Running, claims := r.claims + 1)]), w, Claimed(id))
  }

  /* ---- runs ---- */

  ghost predicate Runs(s: State, actions: seq<Action>)
    decreases |actions|
  {
    actions == [] || (Enabled(s, actions[0]) && Runs(Apply(s, actions[0]), actions[1..]))
  }

  ghost function After(s: State, actions: seq<Action>): State
    requires Runs(s, actions)
    decreases |actions|
  {
    if actions == [] then s else After(Apply(s, actions[0]), actions[1..])
  }

  ghost predicate Initial(s: State) {
    s.records == map[] && (s.queue == Fifo([]) || s.queue == Prio(multiset{}, {}))
    && forall w :: w in s.workers ==> s.workers[w] == Idle
  }

  /* ---- the ownership invariant ---- */

  /** The task that a worker carries. */
  function Carries(pc: Worker): Option<TaskId> {
    if pc.Idle? then None else Some(pc.id)
  }

  ghost predicate Holds(s: State, w: WorkerId, id: TaskId) {
    w in s.workers && Carries(s.workers[w]) == Some(id)
  }

  ghost predicate Waits(s: State, w: WorkerId, id: TaskId) {
    w in s.workers && s.workers[w] == Popped(id)
  }

  /** The worker is between claiming the task and handing it back. */
  ghost predicate Owns(s: State, w: WorkerId, id: TaskId) {
    Holds(s, w, id) && !s.workers[w].Popped?
  }

  /** A task is carried by one worker at most, and by none while it is queued. */
  ghost predicate OneToken(s: State, id: TaskId) {
    && (forall v, w :: Holds(s, v, id) && Holds(s, w, id) ==> v == w)
    && (id in LiveIds(s.queue) ==> forall w :: !Holds(s, w, id))
  }

  /** Records and tokens agree. */
  ghost predicate RecordOk(s: State, id: TaskId)
    requires id in s.records
  {
    var r := s.records[id];
    && (r.status == Pending ==> (id in LiveIds(s.queue) || exists w :: Waits(s, w, id)))
    && (r.status == Running ==> exists w :: Owns(s, w, id))
    && (id in LiveIds(s.queue) ==> r.status == Pending)
    && (forall w :: Waits(s, w, id) ==> r.status == Pending || r.status == Cancelled)
    && (forall w :: Owns(s, w, id) ==> r.status == Running)
    && (id in NotedIds(s.queue) ==> r.status == Cancelled)
    && (r.doneEvent <==> Terminal(r.status))
    && (r.status == Pending ==> !r.cancelled)
    && r.retryCount <= (if r.maxRetries > 0 then r.maxRetries else 0)
    && r.claims <= r.retryCount + 1
    && (r.status == Pending ==> r.claims == r.retryCount)
    && (r.status == Running ==> r.claims == r.retryCount + 1)
    && (r.status == TimedOut ==> TimeoutSet(r))
    && (r.status == Cancelled ==> r.cancelled)
  }

  /** What a worker carries is consistent with the record. */
  ghost predicate WorkerOk(s: State, w: WorkerId)
    requires w in s.workers
  {
    match s.workers[w]
    case Idle => true
    case Popped(id) => id in s.records
    case Claimed(id) => id in s.records
    case Launched(id) => id in s.records
    case Closing(id, verdict) =>
      id in s.records && (verdict == Failed || (verdict == Cancelled && s.records[id].cancelled))
    case Ran(id, outcome) => id in s.records && (outcome == Overdue ==> TimeoutSet(s.records[id]))
    case Checked(id, outcome) => id in s.records && (outcome == Overdue ==> TimeoutSet(s.records[id]))
  }

  ghost predicate Inv(s: State) {
    && QueueOk(s.queue)
    && LiveIds(s.queue) <= s.records.Keys && NotedIds(s.queue) <= s.records.Keys
    && (forall id :: OneToken(s, id))
    && (forall id :: id in s.records ==> RecordOk(s, id))
    && (forall w :: w in s.workers ==> WorkerOk(s, w))
  }
}
