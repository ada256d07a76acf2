/** The ownership invariant holds throughout every interleaving. */
module SchedulerInvariant {
  import opened Sequences
  import opened TaskQueues
  import opened Schedulers

  /** From s to t only the record, the queueing and the carrying of `id`, by w, changed. */
  ghost predicate Touches(s: State, t: State, id: TaskId, w: WorkerId) {
    && (forall j :: j != id ==> (j in s.records <==> j in t.records))
    && (forall j :: j != id && j in s.records ==> t.records[j] == s.records[j])
    && (forall j :: j != id ==> (j in LiveIds(s.queue) <==> j in LiveIds(t.queue)))
    && (forall j :: j != id && j in NotedIds(t.queue) ==> j in NotedIds(s.queue))
    && (forall v :: v in s.workers <==> v in t.workers)
    && (forall v :: v != w && v in s.workers ==> t.workers[v] == s.workers[v])
    && (w in s.workers ==> Carries(s.workers[w]) in {None, Some(id)} && Carries(t.workers[w]) in {None, Some(id)})
    && (id in s.records ==> id in t.records && t.records[id].timeoutSec == s.records[id].timeoutSec
                            && (s.records[id].cancelled ==> t.records[id].cancelled))
  }

  lemma OtherTask(s: State, t: State, id: TaskId, w: WorkerId, j: TaskId)
    requires Inv(s) && Touches(s, t, id, w) && j != id
    ensures OneToken(t, j)
    ensures j in t.records ==> RecordOk(t, j)
  {
    forall v ensures Holds(t, v, j) <==> Holds(s, v, j) {}
    forall v ensures Waits(t, v, j) <==> Waits(s, v, j) {}
    forall v ensures Owns(t, v, j) <==> Owns(s, v, j) {}
    assert OneToken(s, j);
    if j in t.records { SameRecord(s, t, j); }
  }

  lemma SameRecord(s: State, t: State, j: TaskId)
    requires j in s.records && j in t.records && t.records[j] == s.records[j] && RecordOk(s, j)
    requires forall v :: Waits(t, v, j) <==> Waits(s, v, j)
    requires forall v :: Owns(t, v, j) <==> Owns(s, v, j)
    requires j in LiveIds(t.queue) <==> j in LiveIds(s.queue)
    requires j in NotedIds(t.queue) ==> j in NotedIds(s.queue)
    ensures RecordOk(t, j)
  {
    var r := s.records[j];
    if r.status == Pending && j !in LiveIds(s.queue) {
      var w :| Waits(s, w, j);
      assert Waits(t, w, j);
    }
    if r.status == Running {
      var w :| Owns(s, w, j);
      assert Owns(t, w, j);
    }
  }

  lemma OtherWorker(s: State, t: State, id: TaskId, w: WorkerId, v: WorkerId)
    requires Inv(s) && Touches(s, t, id, w) && v != w && v in t.workers
    ensures WorkerOk(t, v)
  {
    assert WorkerOk(s, v);
  }

  /** What is left to show for an action on one task by one worker. */
  lemma Assemble(s: State, t: State, id: TaskId, w: WorkerId)
    requires Inv(s) && Touches(s, t, id, w)
    requires QueueOk(t.queue) && LiveIds(t.queue) <= t.records.Keys && NotedIds(t.queue) <= t.records.Keys
    requires OneToken(t, id) && (id in t.records ==> RecordOk(t, id))
    requires w in t.workers ==> WorkerOk(t, w)
    ensures Inv(t)
  {
    forall j ensures OneToken(t, j) && (j in t.records ==> RecordOk(t, j)) {
      if j != id { OtherTask(s, t, id, w, j); }
    }
    forall v | v in t.workers ensures WorkerOk(t, v) {
      if v != w { OtherWorker(s, t, id, w, v); }
    }
  }

  lemma InvInitial(s: State)
    requires Initial(s)
    ensures Inv(s)
  {
    assert LiveIds(s.queue) == {} && QueueOk(s.queue);
  }

  /* ---- clients ---- */

  /** A worker id that is not in use, for actions of clients. */
  lemma Nobody(s: State) returns (w: WorkerId)
    ensures w !in s.workers
  {
    w := Fresh(s.workers.Keys);
  }

  lemma Fresh(used: set<WorkerId>) returns (w: WorkerId)
    ensures w !in used
  {
    var rest, bound: nat := used, 0;
    while rest != {}
      invariant rest <= used && forall v :: v in used && v !in rest ==> v < bound
      decreases rest
    {
      var v :| v in rest;
      rest := rest - {v};
      if bound <= v { bound := v + 1; }
    }
    w := bound;
  }

  lemma InvSubmit(s: State, id: TaskId, priority: int, maxRetries: int, timeoutSec: Option<real>, now: real)
    requires Inv(s) && id !in s.records
    ensures id !in LiveIds(s.queue) && id !in NotedIds(s.queue)
    ensures Inv(Apply(s, Submit(id, priority, maxRetries, timeoutSec, now)))
  {
    var t := Apply(s, Submit(id, priority, maxRetries, timeoutSec, now));
    PushLive(s.queue, id, priority, now);
    var w := Nobody(s);
    forall v ensures !Holds(s, v, id) {
      assert v in s.workers ==> WorkerOk(s, v);
    }
    assert forall v :: Holds(t, v, id) <==> Holds(s, v, id);
    Assemble(s, t, id, w);
  }

  lemma InvCancel(s: State, id: TaskId)
    requires Inv(s)
    ensures Inv(CancelTask(s, id))
  {
    if CancelGranted(s, id) {
      var t := CancelTask(s, id);
      var w := Nobody(s);
      RemoveLive(s.queue, id);
      assert RecordOk(s, id) && OneToken(s, id);
      assert forall v :: Holds(t, v, id) <==> Holds(s, v, id);
      assert forall v :: Owns(t, v, id) <==> Owns(s, v, id);
      assert forall v :: Waits(t, v, id) <==> Waits(s, v, id);
      Assemble(s, t, id, w);
    }
  }

  lemma InvSetExecutor(s: State)
    requires Inv(s)
    ensures Inv(Apply(s, SetExecutor))
  {
    var w := Nobody(s);
    var t := Apply(s, SetExecutor);
    forall id ensures OneToken(t, id) && (id in t.records ==> RecordOk(t, id)) {
      OtherTask(s, t, id + "'", w, id);
    }
  }

  /* ---- workers ---- */

  lemma InvPop(s: State, w: WorkerId)
    requires Inv(s) && Enabled(s, PopTask(w))
    ensures Inv(Apply(s, PopTask(w)))
  {
    var t := Apply(s, PopTask(w));
    PopLive(s.queue);
    hide Pop, QueueOk, LiveIds, NotedIds;
    var r := Pop(s.queue).1;
    if r == None {
      IdlePop(s, t, "", w);
      Assemble(s, t, "", w);
    } else {
      BusyPop(s, t, r.value, w);
      Assemble(s, t, r.value, w);
    }
  }

  lemma BusyPop(s: State, t: State, id: TaskId, w: WorkerId)
    requires Inv(s) && t == s.(queue := t.queue, workers := s.workers[w := Popped(id)])
    requires w in s.workers && s.workers[w].Idle? && id in LiveIds(s.queue)
    requires LiveIds(t.queue) == LiveIds(s.queue) - {id} && NotedIds(t.queue) <= NotedIds(s.queue)
    ensures Touches(s, t, id, w)
    ensures OneToken(t, id) && id in t.records && RecordOk(t, id)
    ensures WorkerOk(t, w)
  {
    hide LiveIds, NotedIds, QueueOk;
    assert RecordOk(s, id) && OneToken(s, id);
    forall v | v != w ensures !Holds(t, v, id) {
      assert Holds(t, v, id) <==> Holds(s, v, id);
    }
    assert Waits(t, w, id);
  }

  lemma IdlePop(s: State, t: State, id: TaskId, w: WorkerId)
    requires Inv(s) && t.records == s.records && t.workers == s.workers
    requires w in s.workers && s.workers[w].Idle?
    requires LiveIds(t.queue) == LiveIds(s.queue) == {} && NotedIds(t.queue) <= NotedIds(s.queue)
    ensures Touches(s, t, id, w)
    ensures OneToken(t, id) && (id in t.records ==> RecordOk(t, id))
    ensures WorkerOk(t, w)
  {
    forall v ensures Holds(t, v, id) <==> Holds(s, v, id) {}
    forall v ensures Waits(t, v, id) <==> Waits(s, v, id) {}
    forall v ensures Owns(t, v, id) <==> Owns(s, v, id) {}
    assert OneToken(s, id);
    if id in s.records { SameRecord(s, t, id); }
  }

  lemma InvClaim(s: State, w: WorkerId)
    requires Inv(s) && Enabled(s, Claim(w))
    ensures Inv(Apply(s, Claim(w)))
  {
    var t := ClaimTask(s, w);
    var id := s.workers[w].id;
    assert WorkerOk(s, w) && Holds(s, w, id) && OneToken(s, id) && RecordOk(s, id);
    assert Waits(s, w, id);
    forall v | v != w ensures !Holds(t, v, id) {
      assert Holds(t, v, id) <==> Holds(s, v, id);
    }
    assert t.workers[w].Claimed? ==> Owns(t, w, id);
    assert forall v :: Waits(t, v, id) || Owns(t, v, id) ==> Holds(t, v, id);
    Assemble(s, t, id, w);
  }

  /** The worker moves on with its task; the record is untouched. */
  lemma InvMove(s: State, w: WorkerId, pc: Worker)
    requires Inv(s) && w in s.workers && !s.workers[w].Idle? && !s.workers[w].Popped?
    requires !pc.Idle? && !pc.Popped? && pc.id == s.workers[w].id
    requires WorkerOk(At(s, w, pc), w)
    ensures Inv(At(s, w, pc))
  {
    var t := At(s, w, pc);
    var id := pc.id;
    assert WorkerOk(s, w) && Holds(s, w, id) && OneToken(s, id) && RecordOk(s, id);
    forall v ensures Holds(t, v, id) <==> Holds(s, v, id) {}
    forall v ensures Waits(t, v, id) <==> Waits(s, v, id) {}
    forall v ensures Owns(t, v, id) <==> Owns(s, v, id) {}
    SameRecord(s, t, id);
    Assemble(s, t, id, w);
  }

  /** The owner of a task is alone with it, and its record is running. */
  lemma OwnerAlone(s: State, w: WorkerId, id: TaskId)
    requires Inv(s) && Owns(s, w, id)
    ensures id in s.records && s.records[id].status == Running
    ensures id !in LiveIds(s.queue) && id !in NotedIds(s.queue)
    ensures forall v :: v != w ==> !Holds(s, v, id)
  {
    assert WorkerOk(s, w);
    assert OneToken(s, id) && RecordOk(s, id);
  }

  lemma InvFinalize(s: State, w: WorkerId, id: TaskId, verdict: Status)
    requires Inv(s) && Owns(s, w, id) && Terminal(verdict)
    requires verdict == TimedOut ==> id in s.records && TimeoutSet(s.records[id])
    requires verdict == Cancelled ==> id in s.records && s.records[id].cancelled
    requires id in s.records
    ensures Inv(At(Finalize(s, id, verdict), w, Idle))
  {
    var t := At(Finalize(s, id, verdict), w, Idle);
    OwnerAlone(s, w, id);
    assert RecordOk(s, id);
    forall v ensures !Holds(t, v, id) {
      assert v != w ==> (Holds(t, v, id) <==> Holds(s, v, id));
    }
    assert forall v :: Waits(t, v, id) || Owns(t, v, id) ==> Holds(t, v, id);
    Assemble(s, t, id, w);
  }

  lemma InvRequeue(s: State, w: WorkerId, id: TaskId, now: real)
    requires Inv(s) && Owns(s, w, id) && id in s.records && MayRetry(s.records[id])
    ensures id !in LiveIds(s.queue) && id !in NotedIds(s.queue)
    ensures Inv(At(Requeue(s, id, now), w, Idle))
  {
    var t := At(Requeue(s, id, now), w, Idle);
    OwnerAlone(s, w, id);
    assert RecordOk(s, id);
    PushLive(s.queue, id, s.records[id].priority, now);
    forall v ensures !Holds(t, v, id) {
      assert v != w ==> (Holds(t, v, id) <==> Holds(s, v, id));
    }
    assert forall v :: Waits(t, v, id) || Owns(t, v, id) ==> Holds(t, v, id);
    Assemble(s, t, id, w);
  }

  lemma InvConclude(s: State, w: WorkerId, now: real)
    requires Inv(s) && Enabled(s, Conclude(w, now))
    ensures Inv(Apply(s, Conclude(w, now)))
  {
    var Checked(id, outcome) := s.workers[w];
    assert Owns(s, w, id) && WorkerOk(s, w);
    if outcome == Good {
      InvFinalize(s, w, id, Success);
    } else if MayRetry(s.records[id]) {
      InvRequeue(s, w, id, now);
    } else {
      InvFinalize(s, w, id, FailureVerdict(outcome));
    }
  }

  lemma InvCheck(s: State, w: WorkerId)
    requires Inv(s) && Enabled(s, CheckCancelled(w))
    ensures Inv(Apply(s, CheckCancelled(w)))
  {
    var Ran(id, outcome) := s.workers[w];
    assert Owns(s, w, id) && WorkerOk(s, w);
    if s.records[id].cancelled && outcome != Overdue {
      InvFinalize(s, w, id, Cancelled);
    } else {
      InvMove(s, w, Checked(id, outcome));
    }
  }

  /** Every action keeps the invariant. */
  lemma InvApply(s: State, a: Action)
    requires Inv(s) && Enabled(s, a)
    ensures Inv(Apply(s, a))
  {
    match a
    case Submit(id, priority, maxRetries, timeoutSec, now) => InvSubmit(s, id, priority, maxRetries, timeoutSec, now);
    case Cancel(id) => InvCancel(s, id);
    case SetExecutor => InvSetExecutor(s);
    case PopTask(w) => InvPop(s, w);
    case Claim(w) => InvClaim(s, w);
    case FindNoExecutor(w) => InvMoveFrom(s, w, Closing(s.workers[w].id, Failed));
    case SeeCancelled(w) => InvMoveFrom(s, w, Closing(s.workers[w].id, Cancelled));
    case Launch(w) => InvMoveFrom(s, w, Launched(s.workers[w].id));
    case Close(w) => InvClose(s, w);
    case Execute(w, outcome) => InvMoveFrom(s, w, Ran(s.workers[w].id, outcome));
    case CheckCancelled(w) => InvCheck(s, w);
    case Conclude(w, now) => InvConclude(s, w, now);
  }

  lemma InvClose(s: State, w: WorkerId)
    requires Inv(s) && Enabled(s, Close(w))
    ensures Inv(Apply(s, Close(w)))
  {
    var Closing(id, verdict) := s.workers[w];
    assert Owns(s, w, id) && WorkerOk(s, w);
    InvFinalize(s, w, id, verdict);
  }

  lemma InvMoveFrom(s: State, w: WorkerId, pc: Worker)
    requires Inv(s) && w in s.workers && (s.workers[w].Claimed? || s.workers[w].Launched?)
    requires !pc.Idle? && !pc.Popped? && !pc.Claimed? && !pc.Checked? && pc.id == s.workers[w].id
    requires pc.Closing? ==>
               pc.verdict == Failed || (pc.verdict == Cancelled && pc.id in s.records && s.records[pc.id].cancelled)
    requires pc.Ran? ==> (pc.outcome == Overdue ==> pc.id in s.records && TimeoutSet(s.records[pc.id]))
    ensures Inv(At(s, w, pc))
  {
    assert WorkerOk(s, w);
    InvMove(s, w, pc);
  }

  /** Every state of every interleaving satisfies the invariant. */
  lemma {:induction false} InvAfter(s: State, actions: seq<Action>)
    requires Inv(s) && Runs(s, actions)
    ensures Inv(After(s, actions))
    decreases |actions|
  {
    hide Inv, Apply;
    if actions != [] {
      InvApply(s, actions[0]);
      InvAfter(Apply(s, actions[0]), actions[1..]);
    }
  }
}
