/** Every task is finished after boundedly many worker steps. */
module SchedulerProgress {
  import opened Sequences
  import opened TaskQueues
  import opened Schedulers
  import opened SchedulerInvariant
  import opened SchedulerTheorems

  /* ---- progress ---- */

  function PhaseOf(pc: Worker): nat {
    match pc
    case Idle => 0
    case Popped(_) => 5
    case Claimed(_) => 4
    case Launched(_) => 3
    case Ran(_, _) => 2
    case Checked(_, _) => 1
    case Closing(_, _) => 1
  }

  ghost function Phase(s: State, id: TaskId): nat {
    if id in LiveIds(s.queue) then 6
    else if w :| Holds(s, w, id) then PhaseOf(s.workers[w])
    else 0
  }

  ghost function Measure(s: State, id: TaskId): int
    requires id in s.records
  {
    6 * (MaxRetries(s.records[id]) - s.records[id].retryCount) + Phase(s, id)
  }

  lemma PhaseHeld(s: State, w: WorkerId, id: TaskId)
    requires Inv(s) && Holds(s, w, id)
    ensures Phase(s, id) == PhaseOf(s.workers[w]) && Phase(s, id) > 0
  {
    assert OneToken(s, id);
  }

  lemma PhaseSame(s: State, t: State, id: TaskId)
    requires Inv(s) && Inv(t) && SameTask(s, t, id)
    ensures Phase(t, id) == Phase(s, id)
  {
    if id !in LiveIds(s.queue) && (exists w :: Holds(s, w, id)) {
      var w :| Holds(s, w, id);
      PhaseHeld(s, w, id);
      PhaseHeld(t, w, id);
    }
  }

  /** A step that some worker takes with the task. */
  ghost predicate WorkerStep(s: State, a: Action, id: TaskId)
    requires Enabled(s, a)
  {
    !a.Submit? && !a.Cancel? && !a.SetExecutor? && Subject(s, a) == Some(id)
  }

  lemma HolderStep(s: State, t: State, w: WorkerId, id: TaskId)
    requires Inv(s) && Inv(t) && Holds(s, w, id) && id in t.records
    requires id in s.records && t.records[id].maxRetries == s.records[id].maxRetries
    requires w in t.workers && forall v :: v != w && Holds(t, v, id) ==> Holds(s, v, id)
    requires if t.workers[w].Idle? then id !in LiveIds(t.queue) || t.records[id].retryCount > s.records[id].retryCount
             else Holds(t, w, id) && PhaseOf(t.workers[w]) < PhaseOf(s.workers[w])
    requires t.records[id].retryCount >= s.records[id].retryCount
    ensures Measure(t, id) < Measure(s, id)
  {
    PhaseHeld(s, w, id);
    assert OneToken(s, id);
    if t.workers[w].Idle? {
      assert forall v :: !Holds(t, v, id);
    } else {
      PhaseHeld(t, w, id);
    }
  }

  /** Every worker step on a task makes its measure fall; nothing else makes it rise. */
  lemma MeasureFalls(s: State, a: Action, id: TaskId)
    requires Inv(s) && Enabled(s, a) && id in s.records
    ensures id in Apply(s, a).records
    ensures Measure(Apply(s, a), id) <= Measure(s, id)
    ensures WorkerStep(s, a, id) ==> Measure(Apply(s, a), id) < Measure(s, id)
  {
    hide Inv, Pop, LiveIds, Phase;
    var t := Apply(s, a);
    InvApply(s, a);
    if Subject(s, a) != Some(id) {
      Unaffected(s, a, id);
      PhaseSame(s, t, id);
    } else {
      match a
      case Submit(_, _, _, _, _) =>
      case Cancel(_) => CancelMeasure(s, id);
      case PopTask(w) => PopMeasure(s, w, id);
      case Claim(w) => ClaimMeasure(s, w, id);
      case FindNoExecutor(w) => MoveMeasure(s, w, Closing(id, Failed), id);
      case SeeCancelled(w) => MoveMeasure(s, w, Closing(id, Cancelled), id);
      case Launch(w) => MoveMeasure(s, w, Launched(id), id);
      case Close(w) => EndMeasure(s, w, id, s.workers[w].verdict);
      case Execute(w, outcome) => MoveMeasure(s, w, Ran(id, outcome), id);
      case CheckCancelled(w) =>
        var outcome := s.workers[w].outcome;
        if s.records[id].cancelled && outcome != Overdue {
          EndMeasure(s, w, id, Cancelled);
        } else {
          MoveMeasure(s, w, Checked(id, outcome), id);
        }
      case Conclude(w, now) => ConcludeMeasure(s, w, id, now);
    }
  }

  lemma PopMeasure(s: State, w: WorkerId, id: TaskId)
    requires Inv(s) && Enabled(s, PopTask(w)) && Pop(s.queue).1 == Some(id) && id in s.records
    ensures Measure(Apply(s, PopTask(w)), id) < Measure(s, id)
  {
    var t := Apply(s, PopTask(w));
    InvPop(s, w);
    PopLive(s.queue);
    assert Holds(t, w, id);
    hide Inv, Pop, LiveIds;
    PhaseHeld(t, w, id);
  }

  lemma CancelMeasure(s: State, id: TaskId)
    requires Inv(s) && id in s.records
    ensures Measure(CancelTask(s, id), id) <= Measure(s, id)
  {
    var t := CancelTask(s, id);
    InvCancel(s, id);
    RemoveLive(s.queue, id);
    assert OneToken(s, id);
    assert forall w :: Holds(t, w, id) <==> Holds(s, w, id);
    if w :| Holds(s, w, id) {
      PhaseHeld(s, w, id);
      PhaseHeld(t, w, id);
    }
  }

  lemma ClaimMeasure(s: State, w: WorkerId, id: TaskId)
    requires Inv(s) && Enabled(s, Claim(w)) && s.workers[w].id == id && id in s.records
    ensures Measure(ClaimTask(s, w), id) < Measure(s, id)
  {
    var t := ClaimTask(s, w);
    InvClaim(s, w);
    assert Holds(s, w, id) && OneToken(s, id);
    assert forall v :: v != w ==> (Holds(t, v, id) <==> Holds(s, v, id));
    HolderStep(s, t, w, id);
  }

  lemma MoveMeasure(s: State, w: WorkerId, pc: Worker, id: TaskId)
    requires Inv(s) && Inv(At(s, w, pc)) && Holds(s, w, id) && id in s.records
    requires Carries(pc) == Some(id) && PhaseOf(pc) < PhaseOf(s.workers[w])
    ensures Measure(At(s, w, pc), id) < Measure(s, id)
  {
    var t := At(s, w, pc);
    assert Holds(t, w, id);
    assert forall v :: v != w ==> (Holds(t, v, id) <==> Holds(s, v, id));
    HolderStep(s, t, w, id);
  }

  lemma EndMeasure(s: State, w: WorkerId, id: TaskId, verdict: Status)
    requires Inv(s) && Owns(s, w, id) && id in s.records
    requires Inv(At(Finalize(s, id, verdict), w, Idle))
    ensures Measure(At(Finalize(s, id, verdict), w, Idle), id) < Measure(s, id)
  {
    var t := At(Finalize(s, id, verdict), w, Idle);
    OwnerAlone(s, w, id);
    assert forall v :: v != w ==> (Holds(t, v, id) <==> Holds(s, v, id));
    HolderStep(s, t, w, id);
  }

  lemma ConcludeMeasure(s: State, w: WorkerId, id: TaskId, now: real)
    requires Inv(s) && Enabled(s, Conclude(w, now)) && s.workers[w].id == id
    ensures Measure(Apply(s, Conclude(w, now)), id) < Measure(s, id)
  {
    var t := Apply(s, Conclude(w, now));
    InvConclude(s, w, now);
    assert Owns(s, w, id);
    OwnerAlone(s, w, id);
    assert forall v :: v != w ==> (Holds(t, v, id) <==> Holds(s, v, id));
    HolderStep(s, t, w, id);
  }

  ghost function CountWorkerSteps(s: State, actions: seq<Action>, id: TaskId): nat
    requires Runs(s, actions)
    decreases |actions|
  {
    if actions == [] then 0
    else (if WorkerStep(s, actions[0], id) then 1 else 0) + CountWorkerSteps(Apply(s, actions[0]), actions[1..], id)
  }

  lemma {:induction false} MeasureOverRun(s: State, actions: seq<Action>, id: TaskId)
    requires Inv(s) && Runs(s, actions) && id in s.records
    ensures id in After(s, actions).records
    ensures Measure(After(s, actions), id) + CountWorkerSteps(s, actions, id) <= Measure(s, id)
    decreases |actions|
  {
    hide Inv, Apply, Measure, Enabled, WorkerStep;
    if actions != [] {
      MeasureFalls(s, actions[0], id);
      InvApply(s, actions[0]);
      MeasureOverRun(Apply(s, actions[0]), actions[1..], id);
    }
  }

  /** No run takes more than 6 * max(0, maxRetries) + 6 worker steps on a submitted task, and one that takes so
      many has finished it. */
  lemma TaskFinishes(s: State, submit: Action, actions: seq<Action>)
    requires Inv(s) && submit.Submit? && Enabled(s, submit) && Runs(Apply(s, submit), actions)
    ensures var steps := CountWorkerSteps(Apply(s, submit), actions, submit.id);
            && steps <= Bound(submit)
            && submit.id in After(Apply(s, submit), actions).records
            && (steps == Bound(submit) ==> Terminal(After(Apply(s, submit), actions).records[submit.id].status))
  {
    var t := Apply(s, submit);
    InvApply(s, submit);
    SubmittedMeasure(s, submit);
    MeasureOverRun(t, actions, submit.id);
    InvAfter(t, actions);
    MeasureZero(After(t, actions), submit.id);
  }

  function Bound(submit: Action): nat
    requires submit.Submit?
  {
    6 * (if submit.maxRetries > 0 then submit.maxRetries else 0) + 6
  }

  lemma SubmittedMeasure(s: State, submit: Action)
    requires Inv(s) && submit.Submit? && Enabled(s, submit)
    ensures submit.id in Apply(s, submit).records && Measure(Apply(s, submit), submit.id) == Bound(submit)
    ensures LiveIds(Apply(s, submit).queue) == LiveIds(s.queue) + {submit.id}
  {
    InvSubmit(s, submit.id, submit.priority, submit.maxRetries, submit.timeoutSec, submit.now);
    PushLive(s.queue, submit.id, submit.priority, submit.now);
  }

  lemma MeasureZero(s: State, id: TaskId)
    requires Inv(s) && id in s.records
    ensures Measure(s, id) >= 0
    ensures Measure(s, id) == 0 ==> Terminal(s.records[id].status)
  {
    assert RecordOk(s, id);
    if w :| Holds(s, w, id) {
      PhaseHeld(s, w, id);
    } else {
      assert forall w :: !Waits(s, w, id) || Holds(s, w, id);
    }
  }

  /* ---- somebody can always go on ---- */

  /** What a worker that carries a task can do next. */
  function NextStep(s: State, w: WorkerId): Action
    requires w in s.workers && !s.workers[w].Idle?
  {
    match s.workers[w]
    case Popped(_) => Claim(w)
    case Claimed(id) =>
      if !s.executor then FindNoExecutor(w)
      else if id in s.records && s.records[id].cancelled then SeeCancelled(w)
      else Launch(w)
    case Launched(_) => Execute(w, Good)
    case Closing(_, _) => Close(w)
    case Ran(_, _) => CheckCancelled(w)
    case Checked(_, _) => Conclude(w, 0.0)
  }

  lemma HolderCanMove(s: State, w: WorkerId, id: TaskId)
    requires Inv(s) && Holds(s, w, id)
    ensures Enabled(s, NextStep(s, w)) && WorkerStep(s, NextStep(s, w), id)
  {
    assert WorkerOk(s, w);
  }

  /** An unfinished task is queued, or a worker holds it and can take a step with it. */
  lemma UnfinishedCanMove(s: State, id: TaskId)
    requires Inv(s) && id in s.records && !Terminal(s.records[id].status)
    ensures id in LiveIds(s.queue)
         || exists w, a :: Holds(s, w, id) && Enabled(s, a) && WorkerStep(s, a, id)
  {
    assert RecordOk(s, id);
    if id !in LiveIds(s.queue) {
      var w :| Waits(s, w, id) || Owns(s, w, id);
      HolderCanMove(s, w, id);
      assert Holds(s, w, id) && Enabled(s, NextStep(s, w)) && WorkerStep(s, NextStep(s, w), id);
    }
  }

  /** So a reachable task that is not queued and that no worker can move is finished. */
  lemma UnmovableIsFinished(s: State, actions: seq<Action>, id: TaskId)
    requires Initial(s) && Runs(s, actions) && id in After(s, actions).records
    requires id !in LiveIds(After(s, actions).queue)
    requires forall a :: Enabled(After(s, actions), a) ==> !WorkerStep(After(s, actions), a, id)
    ensures Terminal(After(s, actions).records[id].status)
  {
    InvInitial(s);
    InvAfter(s, actions);
    if !Terminal(After(s, actions).records[id].status) {
      UnfinishedCanMove(After(s, actions), id);
    }
  }

  ghost predicate ByWorker(a: Action) {
    !a.Submit? && !a.Cancel? && !a.SetExecutor?
  }

  /** All that is left for workers are pops that find nothing. */
  ghost predicate Quiet(s: State) {
    forall a :: Enabled(s, a) && ByWorker(a) ==> Subject(s, a) == None
  }

  /** With at least one worker, a reachable state is quiet exactly when every worker is idle and every task
      has ended: no task is ever left behind. */
  lemma QuietIffAllFinished(s: State, actions: seq<Action>)
    requires Initial(s) && Runs(s, actions) && After(s, actions).workers != map[]
    ensures var t := After(s, actions);
            Quiet(t) <==> (forall w :: w in t.workers ==> t.workers[w].Idle?)
                          && (forall id :: id in t.records ==> Terminal(t.records[id].status))
  {
    var t := After(s, actions);
    InvInitial(s);
    InvAfter(s, actions);
    PopLive(t.queue);
    if Quiet(t) {
      QuietIsFinished(t);
    }
    if (forall w :: w in t.workers ==> t.workers[w].Idle?)
       && (forall id :: id in t.records ==> Terminal(t.records[id].status)) {
      FinishedIsQuiet(t);
    }
  }

  lemma QuietIsFinished(t: State)
    requires Inv(t) && Quiet(t) && t.workers != map[]
    ensures forall w :: w in t.workers ==> t.workers[w].Idle?
    ensures forall id :: id in t.records ==> Terminal(t.records[id].status)
  {
    forall w | w in t.workers ensures t.workers[w].Idle? {
      if !t.workers[w].Idle? {
        HolderCanMove(t, w, t.workers[w].id);
        assert ByWorker(NextStep(t, w));
      }
    }
    var w :| w in t.workers;
    assert Enabled(t, PopTask(w)) && ByWorker(PopTask(w));
    PopLive(t.queue);
    forall id | id in t.records ensures Terminal(t.records[id].status) {
      assert RecordOk(t, id);
      assert forall v :: !Holds(t, v, id);
      assert forall v :: !Waits(t, v, id) && !Owns(t, v, id);
    }
  }

  lemma FinishedIsQuiet(t: State)
    requires Inv(t) && (forall w :: w in t.workers ==> t.workers[w].Idle?)
    requires forall id :: id in t.records ==> Terminal(t.records[id].status)
    ensures Quiet(t)
  {
    PopLive(t.queue);
    forall id | id in t.records ensures id !in LiveIds(t.queue) { assert RecordOk(t, id); }
    forall a | Enabled(t, a) && ByWorker(a) ensures Subject(t, a) == None {
      assert a.PopTask?;
    }
  }

  /* ---- the bound is attained ---- */

  /** One more step in front of a run. */
  lemma StepFirst(s: State, a: Action, rest: seq<Action>, id: TaskId)
    requires Enabled(s, a) && Runs(Apply(s, a), rest)
    ensures Runs(s, [a] + rest) && After(s, [a] + rest) == After(Apply(s, a), rest)
    ensures CountWorkerSteps(s, [a] + rest, id)
         == (if WorkerStep(s, a, id) then 1 else 0) + CountWorkerSteps(Apply(s, a), rest, id)
  {
    assert ([a] + rest)[0] == a && ([a] + rest)[1..] == rest;
  }

  /** One attempt, as one worker makes it when nobody interferes. */
  function Attempt(w: WorkerId, o: Outcome): seq<Action> {
    [PopTask(w), Claim(w), Launch(w), Execute(w, o), CheckCancelled(w), Conclude(w, 0.0)]
  }

  /** A worker stands at pc with an uncancelled task, and nothing is queued. */
  ghost predicate Trying(s: State, w: WorkerId, pc: Worker, r: Record) {
    && w in s.workers && s.workers[w] == pc && !pc.Idle? && s.executor && LiveIds(s.queue) == {}
    && pc.id in s.records && s.records[pc.id] == r && !r.cancelled
  }

  ghost predicate Reporting(s: State, w: WorkerId, id: TaskId) {
    id in s.records && Trying(s, w, Checked(id, Crashed), s.records[id])
  }

  lemma PopTry(s: State, w: WorkerId, id: TaskId)
    requires Inv(s) && s.executor && w in s.workers && s.workers[w].Idle?
    requires LiveIds(s.queue) == {id} && id in s.records
    ensures Enabled(s, PopTask(w)) && WorkerStep(s, PopTask(w), id)
    ensures s.records[id].status == Pending
    ensures Trying(Apply(s, PopTask(w)), w, Popped(id), s.records[id])
  {
    PopLive(s.queue);
    assert RecordOk(s, id);
  }

  lemma ClaimTry(s: State, w: WorkerId, id: TaskId, r: Record)
    requires Trying(s, w, Popped(id), r) && r.status == Pending
    ensures Enabled(s, Claim(w)) && WorkerStep(s, Claim(w), id)
    ensures Trying(Apply(s, Claim(w)), w, Claimed(id), r.(status := Running, claims := r.claims + 1))
  {
  }

  lemma LaunchTry(s: State, w: WorkerId, id: TaskId, r: Record)
    requires Trying(s, w, Claimed(id), r)
    ensures Enabled(s, Launch(w)) && WorkerStep(s, Launch(w), id)
    ensures Trying(Apply(s, Launch(w)), w, Launched(id), r)
  {
  }

  lemma ExecuteTry(s: State, w: WorkerId, id: TaskId, r: Record, o: Outcome)
    requires o != Overdue && Trying(s, w, Launched(id), r)
    ensures Enabled(s, Execute(w, o)) && WorkerStep(s, Execute(w, o), id)
    ensures Trying(Apply(s, Execute(w, o)), w, Ran(id, o), r)
  {
  }

  lemma CheckTry(s: State, w: WorkerId, id: TaskId, r: Record, o: Outcome)
    requires o != Overdue && Trying(s, w, Ran(id, o), r)
    ensures Enabled(s, CheckCancelled(w)) && WorkerStep(s, CheckCancelled(w), id)
    ensures Trying(Apply(s, CheckCancelled(w)), w, Checked(id, o), r)
  {
  }

  lemma AttemptStarts(s: State, w: WorkerId, id: TaskId, o: Outcome)
    requires o != Overdue && Inv(s) && s.executor && w in s.workers && s.workers[w].Idle?
    requires LiveIds(s.queue) == {id} && id in s.records
    ensures Runs(s, Attempt(w, o)[..5]) && CountWorkerSteps(s, Attempt(w, o)[..5], id) == 5
    ensures var r, t := s.records[id], After(s, Attempt(w, o)[..5]);
            Inv(t) && Trying(t, w, Checked(id, o), r.(status := Running, claims := r.claims + 1))
  {
    hide *;
    var r := s.records[id];
    var q := r.(status := Running, claims := r.claims + 1);
    PopTry(s, w, id);
    var s1 := Apply(s, PopTask(w));
    ClaimTry(s1, w, id, r);
    var s2 := Apply(s1, Claim(w));
    LaunchTry(s2, w, id, q);
    var s3 := Apply(s2, Launch(w));
    ExecuteTry(s3, w, id, q, o);
    var s4 := Apply(s3, Execute(w, o));
    CheckTry(s4, w, id, q, o);
    var s5 := Apply(s4, CheckCancelled(w));
    NoSteps(s5, id);
    var a4 := [CheckCancelled(w)] + [];
    var a3 := [Execute(w, o)] + a4;
    var a2 := [Launch(w)] + a3;
    var a1 := [Claim(w)] + a2;
    StepFirst(s4, CheckCancelled(w), [], id);
    StepFirst(s3, Execute(w, o), a4, id);
    StepFirst(s2, Launch(w), a3, id);
    StepFirst(s1, Claim(w), a2, id);
    StepFirst(s, PopTask(w), a1, id);
    FiveSteps(w, o);
    InvAfter(s, Attempt(w, o)[..5]);
  }

  lemma FiveSteps(w: WorkerId, o: Outcome)
    ensures |Attempt(w, o)| == 6
    ensures Attempt(w, o)[..5]
         == [PopTask(w)] + ([Claim(w)] + ([Launch(w)] + ([Execute(w, o)] + ([CheckCancelled(w)] + []))))
  {
  }

  lemma NoSteps(s: State, id: TaskId)
    ensures Runs(s, []) && After(s, []) == s && CountWorkerSteps(s, [], id) == 0
  {
  }

  /** One run after another. */
  lemma {:induction false} RunsAppend(s: State, a: seq<Action>, b: seq<Action>, id: TaskId)
    requires Runs(s, a) && Runs(After(s, a), b)
    ensures Runs(s, a + b) && After(s, a + b) == After(After(s, a), b)
    ensures CountWorkerSteps(s, a + b, id) == CountWorkerSteps(s, a, id) + CountWorkerSteps(After(s, a), b, id)
    decreases |a|
  {
    hide Apply, Enabled, WorkerStep;
    if a == [] {
      assert a + b == b;
    } else {
      assert (a + b)[0] == a[0] && (a + b)[1..] == a[1..] + b;
      RunsAppend(Apply(s, a[0]), a[1..], b, id);
    }
  }

  /** The report either ends the task, with nothing left of its measure, or queues it alone once more. */
  lemma AttemptEnds(s: State, w: WorkerId, id: TaskId)
    requires Inv(s) && Reporting(s, w, id)
    ensures Enabled(s, Conclude(w, 0.0)) && WorkerStep(s, Conclude(w, 0.0), id)
    ensures var t := Apply(s, Conclude(w, 0.0));
            && Inv(t) && t.executor && w in t.workers && t.workers[w].Idle? && id in t.records
            && t.records[id].maxRetries == s.records[id].maxRetries
            && if s.records[id].retryCount < s.records[id].maxRetries
               then LiveIds(t.queue) == {id} && t.records[id].retryCount == s.records[id].retryCount + 1
               else Measure(t, id) == 0
  {
    var t := Apply(s, Conclude(w, 0.0));
    assert WorkerOk(s, w) && Owns(s, w, id);
    InvConclude(s, w, 0.0);
    OwnerAlone(s, w, id);
    assert RecordOk(s, id);
    PushLive(s.queue, id, s.records[id].priority, 0.0);
    assert forall v :: v != w ==> (Holds(t, v, id) <==> Holds(s, v, id));
  }

  /** A task alone in the queue whose calls all crash takes every step that its measure allows. */
  lemma {:induction false} AllAttemptsFail(s: State, w: WorkerId, id: TaskId) returns (actions: seq<Action>)
    requires Inv(s) && s.executor && w in s.workers && s.workers[w].Idle?
    requires LiveIds(s.queue) == {id} && id in s.records && !s.records[id].cancelled
    ensures Runs(s, actions) && CountWorkerSteps(s, actions, id) == Measure(s, id)
    decreases MaxRetries(s.records[id]) - s.records[id].retryCount
  {
    AttemptStarts(s, w, id, Crashed);
    var t := After(s, Attempt(w, Crashed)[..5]);
    assert Reporting(t, w, id);
    AttemptEnds(t, w, id);
    assert RecordOk(s, id);
    var u := Apply(t, Conclude(w, 0.0));
    var rest: seq<Action> := [];
    hide Inv, Apply, Reporting, WorkerStep, Enabled, Runs, After, LiveIds;
    if s.records[id].retryCount < s.records[id].maxRetries {
      rest := AllAttemptsFail(u, w, id);
    } else {
      NoSteps(u, id);
    }
    StepFirst(t, Conclude(w, 0.0), rest, id);
    RunsAppend(s, Attempt(w, Crashed)[..5], [Conclude(w, 0.0)] + rest, id);
    actions := Attempt(w, Crashed)[..5] + ([Conclude(w, 0.0)] + rest);
  }

  /** The bound is attained: some run takes exactly that many steps, and so finishes the task. */
  lemma BoundIsAttained(s: State, submit: Action, w: WorkerId) returns (actions: seq<Action>)
    requires Initial(s) && w in s.workers && submit.Submit?
    ensures Enabled(s, SetExecutor) && Enabled(Apply(s, SetExecutor), submit)
    ensures var t := Apply(Apply(s, SetExecutor), submit);
            && Runs(t, actions) && CountWorkerSteps(t, actions, submit.id) == Bound(submit)
  {
    InvInitial(s);
    var u := Apply(s, SetExecutor);
    InvSetExecutor(s);
    InvApply(u, submit);
    SubmittedMeasure(u, submit);
    assert LiveIds(u.queue) == {};
    actions := AllAttemptsFail(Apply(u, submit), w, submit.id);
  }
}
