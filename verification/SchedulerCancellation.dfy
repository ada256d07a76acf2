/** What a granted cancel promises, and exactly when the task ends as cancelled. */
module SchedulerCancellation {
  import opened Sequences
  import opened TaskQueues
  import opened Schedulers
  import opened SchedulerInvariant
  import opened SchedulerTheorems
  import opened SchedulerProgress

  /* ---- cancellation ---- */

  /** A cancelled task is never claimed and never retried again. */
  lemma CancelledStep(s: State, a: Action, id: TaskId)
    requires Inv(s) && Enabled(s, a) && id in s.records && s.records[id].cancelled
    ensures id in Apply(s, a).records
    ensures var r, q := s.records[id], Apply(s, a).records[id];
            q.cancelled && q.claims == r.claims && q.retryCount == r.retryCount
  {
    if Subject(s, a) != Some(id) {
      Unaffected(s, a, id);
    }
  }

  lemma {:induction false} CancelStopsClaimsAndRetries(s: State, actions: seq<Action>, id: TaskId)
    requires Inv(s) && CancelGranted(s, id) && Runs(Apply(s, Cancel(id)), actions)
    ensures id in After(Apply(s, Cancel(id)), actions).records
    ensures var r := After(Apply(s, Cancel(id)), actions).records[id];
            r.cancelled && r.claims == s.records[id].claims && r.retryCount == s.records[id].retryCount
  {
    InvCancel(s, id);
    CancelledOverRun(Apply(s, Cancel(id)), actions, id);
  }

  lemma {:induction false} CancelledOverRun(s: State, actions: seq<Action>, id: TaskId)
    requires Inv(s) && Runs(s, actions) && id in s.records && s.records[id].cancelled
    ensures id in After(s, actions).records
    ensures var r := After(s, actions).records[id];
            r.cancelled && r.claims == s.records[id].claims && r.retryCount == s.records[id].retryCount
    decreases |actions|
  {
    hide Inv, Apply, Enabled;
    if actions != [] {
      CancelledStep(s, actions[0], id);
      InvApply(s, actions[0]);
      CancelledOverRun(Apply(s, actions[0]), actions[1..], id);
    }
  }

  /** A waiting client whose deadline passes cancels and gives up. Granted or not, the cancel makes sure that
      no claim and no retry of the task comes after it. */
  lemma GivingUpStopsTheTask(s: State, actions: seq<Action>, later: seq<Action>, id: TaskId)
    requires Initial(s) && Runs(s, actions) && id in After(s, actions).records
    requires Runs(Apply(After(s, actions), Cancel(id)), later)
    ensures var r := After(s, actions).records[id];
            var t := After(Apply(After(s, actions), Cancel(id)), later);
            id in t.records && t.records[id].claims == r.claims && t.records[id].retryCount == r.retryCount
  {
    InvInitial(s);
    InvAfter(s, actions);
    var u := After(s, actions);
    if CancelGranted(u, id) {
      CancelStopsClaimsAndRetries(u, later, id);
    } else {
      TerminalIsFinal(u, later, id);
    }
  }

  /** The verdicts that a cancelled task can still get from where its worker stands. */
  function Open(s: State, pc: Worker): set<Status> {
    match pc
    case Idle => {}
    case Popped(_) => {Cancelled}
    case Claimed(_) => if s.executor then {Cancelled} else {Cancelled, Failed}
    case Launched(id) => if id in s.records && TimeoutSet(s.records[id]) then {Cancelled, TimedOut} else {Cancelled}
    case Closing(_, verdict) => {verdict}
    case Ran(_, outcome) => if outcome == Overdue then {TimedOut} else {Cancelled}
    case Checked(_, outcome) => if outcome == Good then {Success} else {FailureVerdict(outcome)}
  }

  /** A cancelled task has ended, or can only end, in one of the given statuses. */
  ghost predicate EndsIn(s: State, id: TaskId, verdicts: set<Status>) {
    && id in s.records && s.records[id].cancelled
    && (Terminal(s.records[id].status) ==> s.records[id].status in verdicts)
    && (forall w :: Owns(s, w, id) ==> Open(s, s.workers[w]) <= verdicts)
  }

  lemma EndsInStep(s: State, a: Action, id: TaskId, verdicts: set<Status>)
    requires Inv(s) && Enabled(s, a) && EndsIn(s, id, verdicts)
    ensures EndsIn(Apply(s, a), id, verdicts)
  {
    var t := Apply(s, a);
    CancelledStep(s, a, id);
    if Terminal(s.records[id].status) {
      TerminalStep(s, a, id);
    }
    if Subject(s, a) != Some(id) {
      Unaffected(s, a, id);
      forall w | Owns(t, w, id) ensures Open(t, t.workers[w]) <= verdicts {
        assert Owns(s, w, id);
      }
    } else if !a.Submit? && !a.Cancel? && !a.PopTask? {
      SubjectEndsIn(s, a, id, verdicts);
    } else {
      assert forall w :: Owns(t, w, id) ==> Owns(s, w, id) && t.workers[w] == s.workers[w];
      assert RecordOk(s, id);
    }
  }

  lemma SubjectEndsIn(s: State, a: Action, id: TaskId, verdicts: set<Status>)
    requires Inv(s) && Enabled(s, a) && EndsIn(s, id, verdicts)
    requires !a.Submit? && !a.Cancel? && !a.PopTask? && !a.SetExecutor? && Subject(s, a) == Some(id)
    ensures EndsIn(Apply(s, a), id, verdicts)
  {
    var t := Apply(s, a);
    var w := a.w;
    assert Holds(s, w, id) && OneToken(s, id);
    SubjectStatus(s, a, w, id);
    CancelledStep(s, a, id);
    assert forall v :: v != w ==> (Owns(t, v, id) <==> Owns(s, v, id));
    assert !s.workers[w].Popped? ==> Owns(s, w, id);
    assert RecordOk(s, id);
  }

  lemma {:induction false} EndsInOverRun(s: State, actions: seq<Action>, id: TaskId, verdicts: set<Status>)
    requires Inv(s) && Runs(s, actions) && EndsIn(s, id, verdicts)
    ensures EndsIn(After(s, actions), id, verdicts)
    decreases |actions|
  {
    hide Inv, Apply, Enabled, EndsIn;
    if actions != [] {
      EndsInStep(s, actions[0], id, verdicts);
      InvApply(s, actions[0]);
      EndsInOverRun(Apply(s, actions[0]), actions[1..], id, verdicts);
    }
  }

  /** Upper bound: a granted cancel of a pending task ends it as cancelled at once; a running task can end only
      in a verdict that was still open where its worker stood. */
  lemma CancelOutcome(s: State, id: TaskId, actions: seq<Action>)
    requires Inv(s) && CancelGranted(s, id) && Runs(Apply(s, Cancel(id)), actions)
    ensures var t := After(Apply(s, Cancel(id)), actions);
            && id in t.records
            && (s.records[id].status == Pending ==> t.records[id].status == Cancelled)
            && (s.records[id].status == Running && Terminal(t.records[id].status) ==>
                  exists w :: Owns(s, w, id) && t.records[id].status in Open(s, s.workers[w]))
  {
    var u := Apply(s, Cancel(id));
    InvCancel(s, id);
    assert RecordOk(s, id) && OneToken(s, id);
    assert forall w :: Owns(u, w, id) <==> Owns(s, w, id);
    if s.records[id].status == Pending {
      TerminalIsFinal(u, actions, id);
    } else {
      var w :| Owns(s, w, id);
      assert forall v :: Owns(s, v, id) ==> v == w;
      EndsInOverRun(u, actions, id, Open(s, s.workers[w]));
    }
  }

  /** The run ends the task, and not as cancelled. */
  ghost predicate Escapes(s: State, actions: seq<Action>, id: TaskId) {
    && Runs(s, actions) && id in After(s, actions).records
    && Terminal(After(s, actions).records[id].status) && After(s, actions).records[id].status != Cancelled
  }

  /** The worker has passed the point at which it would have noticed a cancel: it has no executor to find, it
      decided to fail, its call may time out or has done so, or it has passed the check behind the call. */
  predicate TooLate(s: State, pc: Worker) {
    match pc
    case Idle => false
    case Popped(_) => false
    case Claimed(_) => !s.executor
    case Launched(id) => id in s.records && TimeoutSet(s.records[id])
    case Closing(_, verdict) => verdict != Cancelled
    case Ran(_, outcome) => outcome == Overdue
    case Checked(_, _) => true
  }

  /** The remaining steps of such a worker. */
  function WayOut(s: State, w: WorkerId): seq<Action>
    requires w in s.workers
  {
    match s.workers[w]
    case Idle => []
    case Popped(_) => []
    case Claimed(_) => [FindNoExecutor(w), Close(w)]
    case Launched(_) => [Execute(w, Overdue), CheckCancelled(w), Conclude(w, 0.0)]
    case Closing(_, _) => [Close(w)]
    case Ran(_, _) => [CheckCancelled(w), Conclude(w, 0.0)]
    case Checked(_, _) => [Conclude(w, 0.0)]
  }

  /** Exactly when a granted cancel promises nothing: some continuation ends the task with another verdict if
      and only if its owner, if it has one, was past the point of noticing. */
  lemma CancelEscapesIff(s: State, id: TaskId)
    requires Inv(s) && CancelGranted(s, id)
    ensures (exists actions :: Escapes(Apply(s, Cancel(id)), actions, id))
       <==> (exists w :: Owns(s, w, id) && TooLate(s, s.workers[w]))
  {
    assert RecordOk(s, id);
    if w :| Owns(s, w, id) && TooLate(s, s.workers[w]) {
      InvCancel(s, id);
      OwnerAlone(s, w, id);
      WayOutEscapes(Apply(s, Cancel(id)), w, id);
    } else {
      forall actions ensures !Escapes(Apply(s, Cancel(id)), actions, id) {
        if Escapes(Apply(s, Cancel(id)), actions, id) {
          CancelOutcome(s, id, actions);
        }
      }
    }
  }

  lemma WayOutEscapes(u: State, w: WorkerId, id: TaskId)
    requires Inv(u) && Owns(u, w, id) && TooLate(u, u.workers[w])
    requires id in u.records && u.records[id].cancelled
    ensures Escapes(u, WayOut(u, w), id)
  {
    assert WorkerOk(u, w);
    match u.workers[w]
    case Claimed(_) =>
      var v := Apply(u, FindNoExecutor(w));
      LastStep(v, Close(w));
      FirstStep(u, FindNoExecutor(w), [Close(w)]);
    case Launched(_) =>
      var v := Apply(u, Execute(w, Overdue));
      CheckAndConclude(v, w, id, Overdue);
      FirstStep(u, Execute(w, Overdue), [CheckCancelled(w), Conclude(w, 0.0)]);
    case Closing(_, _) => LastStep(u, Close(w));
    case Ran(_, outcome) => CheckAndConclude(u, w, id, outcome);
    case Checked(_, _) => LastStep(u, Conclude(w, 0.0));
  }

  lemma CheckAndConclude(u: State, w: WorkerId, id: TaskId, outcome: Outcome)
    requires w in u.workers && u.workers[w] == Ran(id, outcome) && outcome == Overdue
    requires id in u.records && u.records[id].cancelled
    ensures Escapes(u, [CheckCancelled(w), Conclude(w, 0.0)], id)
  {
    LastStep(Apply(u, CheckCancelled(w)), Conclude(w, 0.0));
    FirstStep(u, CheckCancelled(w), [Conclude(w, 0.0)]);
  }

  lemma LastStep(s: State, a: Action)
    requires Enabled(s, a)
    ensures Runs(s, [a]) && After(s, [a]) == Apply(s, a)
  {
    FirstStep(s, a, []);
  }

  lemma FirstStep(s: State, a: Action, rest: seq<Action>)
    requires Enabled(s, a) && Runs(Apply(s, a), rest)
    ensures Runs(s, [a] + rest) && After(s, [a] + rest) == After(Apply(s, a), rest)
  {
    assert ([a] + rest)[0] == a && ([a] + rest)[1..] == rest;
  }

  /** From the start of any scheduler: a cancel that comes when the worker has passed its check is granted, and
      the task still succeeds. */
  lemma CancelledTaskMaySucceed(s: State, submit: Action, w: WorkerId)
    requires Initial(s) && w in s.workers && submit.Submit?
    ensures var run := [SetExecutor] + ([submit] + Attempt(w, Good)[..5]);
            && Runs(s, run) && CancelGranted(After(s, run), submit.id)
            && Runs(After(s, run), [Cancel(submit.id), Conclude(w, 0.0)])
            && var t := After(After(s, run), [Cancel(submit.id), Conclude(w, 0.0)]);
               submit.id in t.records && t.records[submit.id].status == Success
  {
    var id := submit.id;
    InvInitial(s);
    var u := Apply(s, SetExecutor);
    InvSetExecutor(s);
    InvApply(u, submit);
    SubmittedMeasure(u, submit);
    var v := Apply(u, submit);
    AttemptStarts(v, w, id, Good);
    var t := After(v, Attempt(w, Good)[..5]);
    FirstStep(u, submit, Attempt(w, Good)[..5]);
    FirstStep(s, SetExecutor, [submit] + Attempt(w, Good)[..5]);
    assert CancelGranted(t, id);
    var z := Apply(t, Cancel(id));
    LastStep(z, Conclude(w, 0.0));
    FirstStep(t, Cancel(id), [Conclude(w, 0.0)]);
  }
}
