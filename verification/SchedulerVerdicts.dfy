/** Where verdicts come from: every final status has its cause in the run. */
module SchedulerVerdicts {
  import opened Sequences
  import opened TaskQueues
  import opened Schedulers
  import opened SchedulerInvariant
  import opened SchedulerTheorems

  /** What can bring a task to its end: an execution that came out in some way, a worker that found no executor,
      or a granted cancel. */
  datatype Cause = Ended(outcome: Outcome) | NoExecutorFound | CancelAsked

  ghost function CauseOf(s: State, a: Action, id: TaskId): set<Cause>
    requires Enabled(s, a)
  {
    match a
    case Execute(w, outcome) => if s.workers[w].id == id then {Ended(outcome)} else {}
    case FindNoExecutor(w) => if s.workers[w].id == id then {NoExecutorFound} else {}
    case Cancel(c) => if c == id && CancelGranted(s, c) then {CancelAsked} else {}
    case _ => {}
  }

  /** Everything of the kind that happened to a task in a run. */
  ghost function Causes(s: State, actions: seq<Action>, id: TaskId): set<Cause>
    requires Runs(s, actions)
    decreases |actions|
  {
    if actions == [] then {} else CauseOf(s, actions[0], id) + Causes(Apply(s, actions[0]), actions[1..], id)
  }

  ghost predicate RecordExplained(r: Record, seen: set<Cause>) {
    && (r.status == Success ==> Ended(Good) in seen)
    && (r.status == TimedOut ==> Ended(Overdue) in seen)
    && (r.status == Failed ==> Ended(Unsuccessful) in seen || Ended(Crashed) in seen || NoExecutorFound in seen)
    && (r.status == Cancelled ==> CancelAsked in seen)
    && (r.cancelled ==> CancelAsked in seen)
  }

  ghost predicate WorkerExplained(pc: Worker, seen: set<Cause>) {
    match pc
    case Ran(_, outcome) => Ended(outcome) in seen
    case Checked(_, outcome) => Ended(outcome) in seen
    case Closing(_, verdict) =>
      (verdict == Failed && NoExecutorFound in seen) || (verdict == Cancelled && CancelAsked in seen)
    case _ => true
  }

  ghost predicate Explained(s: State, id: TaskId, seen: set<Cause>) {
    && (id in s.records ==> RecordExplained(s.records[id], seen))
    && (forall w :: Holds(s, w, id) ==> WorkerExplained(s.workers[w], seen))
  }

  lemma ExplainedStep(s: State, a: Action, id: TaskId, seen: set<Cause>)
    requires Inv(s) && Enabled(s, a) && Explained(s, id, seen)
    ensures Explained(Apply(s, a), id, seen + CauseOf(s, a, id))
  {
    var t := Apply(s, a);
    if Subject(s, a) != Some(id) {
      Unaffected(s, a, id);
    } else if a.Submit? || a.Cancel? || a.PopTask? {
      ClientExplained(s, a, id, seen);
    } else {
      SubjectExplained(s, a, id, seen);
    }
  }

  lemma ClientExplained(s: State, a: Action, id: TaskId, seen: set<Cause>)
    requires Inv(s) && Enabled(s, a) && Explained(s, id, seen)
    requires (a.Submit? || a.Cancel? || a.PopTask?) && Subject(s, a) == Some(id)
    ensures Explained(Apply(s, a), id, seen + CauseOf(s, a, id))
  {
    var t := Apply(s, a);
    hide Inv, Push, Pop, Remove;
    forall w | Holds(t, w, id) ensures WorkerExplained(t.workers[w], seen + CauseOf(s, a, id)) {
      assert t.workers[w] == s.workers[w] ==> Holds(s, w, id);
    }
  }

  lemma SubjectExplained(s: State, a: Action, id: TaskId, seen: set<Cause>)
    requires Inv(s) && Enabled(s, a) && Explained(s, id, seen)
    requires !a.Submit? && !a.Cancel? && !a.PopTask? && !a.SetExecutor? && Subject(s, a) == Some(id)
    ensures Explained(Apply(s, a), id, seen + CauseOf(s, a, id))
  {
    var t, w := Apply(s, a), a.w;
    assert Holds(s, w, id) && WorkerExplained(s.workers[w], seen);
    hide Inv, Push, Pop, Remove, WorkerExplained;
    SubjectRecord(s, a, id, seen);
    forall v | Holds(t, v, id) ensures WorkerExplained(t.workers[v], seen + CauseOf(s, a, id)) {
      if v == w {
        SubjectWorker(s, a, id, seen);
      } else {
        assert Holds(s, v, id);
        MoreSeen(s.workers[v], seen, seen + CauseOf(s, a, id));
      }
    }
  }

  lemma MoreSeen(pc: Worker, seen: set<Cause>, more: set<Cause>)
    requires WorkerExplained(pc, seen) && seen <= more
    ensures WorkerExplained(pc, more)
  {
  }

  lemma SubjectWorker(s: State, a: Action, id: TaskId, seen: set<Cause>)
    requires Enabled(s, a) && Explained(s, id, seen)
    requires !a.Submit? && !a.Cancel? && !a.PopTask? && !a.SetExecutor? && s.workers[a.w].id == id
    requires WorkerExplained(s.workers[a.w], seen)
    ensures WorkerExplained(Apply(s, a).workers[a.w], seen + CauseOf(s, a, id))
  {
    hide Push;
  }

  lemma SubjectRecord(s: State, a: Action, id: TaskId, seen: set<Cause>)
    requires Enabled(s, a) && Explained(s, id, seen)
    requires !a.Submit? && !a.Cancel? && !a.PopTask? && !a.SetExecutor? && s.workers[a.w].id == id
    requires WorkerExplained(s.workers[a.w], seen)
    ensures id in Apply(s, a).records ==> RecordExplained(Apply(s, a).records[id], seen + CauseOf(s, a, id))
  {
    hide Push;
  }

  lemma {:induction false} ExplainedOverRun(s: State, actions: seq<Action>, id: TaskId, seen: set<Cause>)
    requires Inv(s) && Runs(s, actions) && Explained(s, id, seen)
    ensures Explained(After(s, actions), id, seen + Causes(s, actions, id))
    decreases |actions|
  {
    hide Inv, Apply, Enabled, Explained, CauseOf;
    if actions == [] {
      assert seen + {} == seen;
    } else {
      var now := CauseOf(s, actions[0], id);
      ExplainedStep(s, actions[0], id, seen);
      InvApply(s, actions[0]);
      ExplainedOverRun(Apply(s, actions[0]), actions[1..], id, seen + now);
      assert seen + now + Causes(Apply(s, actions[0]), actions[1..], id) == seen + Causes(s, actions, id);
    }
  }

  /** In every run from the start: a task succeeds only if an execution of it came out well, times out only if an
      execution was overdue, fails only if an execution was unsuccessful or crashed or no executor was found, and
      is cancelled only if a cancel of it was granted. */
  lemma VerdictHasItsCause(s: State, actions: seq<Action>, id: TaskId)
    requires Initial(s) && Runs(s, actions) && id in After(s, actions).records
    ensures var r, causes := After(s, actions).records[id], Causes(s, actions, id);
            && (r.status == Success ==> Ended(Good) in causes)
            && (r.status == TimedOut ==> Ended(Overdue) in causes)
            && (r.status == Failed ==>
                  Ended(Unsuccessful) in causes || Ended(Crashed) in causes || NoExecutorFound in causes)
            && (r.status == Cancelled ==> CancelAsked in causes)
  {
    InvInitial(s);
    ExplainedOverRun(s, actions, id, {});
    assert {} + Causes(s, actions, id) == Causes(s, actions, id);
  }

  /** The end of an attempt: a good outcome succeeds, and any other is tried again while retries are left and no
      cancel was granted; otherwise an overdue one times out, and the rest fail. */
  lemma EndOfAttempt(s: State, w: WorkerId, now: real)
    requires Inv(s) && Enabled(s, Conclude(w, now))
    ensures var Checked(id, outcome) := s.workers[w];
            var t := Apply(s, Conclude(w, now));
            var r, q := s.records[id], t.records[id];
            && t.workers[w] == Idle
            && if outcome != Good && r.retryCount < r.maxRetries && !r.cancelled
               then q.status == Pending && q.retryCount == r.retryCount + 1 && !q.doneEvent && id in LiveIds(t.queue)
               else && q.status == (if outcome == Good then Success
                                    else if outcome == Overdue then TimedOut else Failed)
                    && q.retryCount == r.retryCount && q.doneEvent && t.queue == s.queue
  {
    var id := s.workers[w].id;
    assert Owns(s, w, id) && WorkerOk(s, w) && RecordOk(s, id);
    OwnerAlone(s, w, id);
    PushLive(s.queue, id, s.records[id].priority, now);
    hide Inv, LiveIds, NotedIds, QueueOk;
  }

  /** After a cancelled execution that is not overdue the task ends as cancelled; otherwise its worker goes on with
      the outcome. */
  lemma EndOfExecution(s: State, w: WorkerId)
    requires Inv(s) && Enabled(s, CheckCancelled(w))
    ensures var Ran(id, outcome) := s.workers[w];
            var t := Apply(s, CheckCancelled(w));
            if s.records[id].cancelled && outcome != Overdue
            then t.records[id].status == Cancelled && t.records[id].doneEvent && t.workers[w] == Idle
            else t.records == s.records && t.workers[w] == Checked(id, outcome)
  {
  }
}
