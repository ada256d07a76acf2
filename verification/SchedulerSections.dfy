/** The scheduler object. Each method is one section that the source executes under its lock, or one step
    between two of them; the program counters of the workers are explicit, so that sections of different
    workers and clients can be interleaved in any order. */
module SchedulerSections {
  import opened Sequences
  import opened TaskQueues
  import opened Schedulers

  datatype QueuePolicy = FifoPolicy | PriorityPolicy

  /** How the execution function ends: with a result that says whether the agent succeeded, or by raising. */
  datatype CallEnd = Returned(success: bool) | Raised

  class AgentScheduler {
    const policy: QueuePolicy
    const fifo: FIFOQueue
    const prio: PriorityTaskQueue
    var records: map<TaskId, Record>
    var workers: map<WorkerId, Worker>
    var executorSet: bool

    ghost function QueueView(): Queue
      reads this, fifo, prio
    {
      if policy == FifoPolicy then fifo.View() else prio.View()
    }

    ghost function View(): State
      reads this, fifo, prio
    {
      State(records, QueueView(), workers, executorSet)
    }

    constructor (policy: QueuePolicy, workerIds: set<WorkerId>)
      ensures fresh(fifo) && fresh(prio)
      ensures this.policy == policy && Initial(View())
      ensures workers.Keys == workerIds
    {
      this.policy := policy;
      fifo := new FIFOQueue();
      prio := new PriorityTaskQueue();
      records := map[];
      workers := map w | w in workerIds :: Idle;
      executorSet := false;
    }

    method PushQueue(id: TaskId, priority: int, at: real)
      modifies fifo, prio
      ensures QueueView() == Push(old(QueueView()), id, priority, at)
    {
      if policy == FifoPolicy {
        fifo.PushTask(id, priority, at);
      } else {
        prio.PushTask(id, priority, at);
      }
    }

    method SubmitTask(id: TaskId, priority: int, maxRetries: int, timeoutSec: Option<real>, now: real)
      requires id !in records
      modifies this, fifo, prio
      ensures View() == Apply(old(View()), Submit(id, priority, maxRetries, timeoutSec, now))
    {
      records := records[id := Record(Pending, priority, maxRetries, 0, timeoutSec, false, false, 0)];
      PushQueue(id, priority, now);
    }

    method CancelTask(id: TaskId) returns (granted: bool)
      modifies this, fifo, prio
      ensures granted == CancelGranted(old(View()), id)
      ensures View() == Apply(old(View()), Cancel(id))
    {
      if id !in records {
        return false;
      }
      if records[id].status in {Success, Failed, TimedOut, Cancelled} {
        return false;
      }
      records := records[id := records[id].(cancelled := true)];
      if records[id].status == Pending {
        records := records[id := records[id].(status := Cancelled)];
        if policy == FifoPolicy {
          var _ := fifo.RemoveTask(id);
        } else {
          var _ := prio.RemoveTask(id);
        }
        records := records[id := records[id].(doneEvent := true)];
        return true;
      }
      return true;
    }

    method TakeFromQueue(w: WorkerId)
      requires Enabled(View(), PopTask(w))
      modifies this, fifo, prio
      ensures View() == Apply(old(View()), PopTask(w))
    {
      var r;
      if policy == FifoPolicy {
        r := fifo.PopTask();
      } else {
        r := prio.PopTask();
      }
      if r.None? {
        return;
      }
      workers := workers[w := Popped(r.value)];
    }

    /** The first locked section of a worker. */
    method ClaimSection(w: WorkerId)
      requires Enabled(View(), Claim(w))
      modifies this
      ensures View() == Apply(old(View()), Claim(w))
    {
      var id := workers[w].id;
      if id !in records {
        workers := workers[w := Idle];
        return;
      }
      var record := records[id];
      if record.cancelled || record.status != Pending {
        workers := workers[w := Idle];
        return;
      }
      records := records[id := record.(status := Running, claims := record.claims + 1)];
      workers := workers[w := Claimed(id)];
    }

    method SetExecutorFunction()
      modifies this
      ensures View() == Apply(old(View()), SetExecutor)
    {
      executorSet := true;
    }

    /** Between the sections, without the lock: decide on a verdict at once, or go on to execute. */
    method BeforeExecution(w: WorkerId) returns (ghost a: Action)
      requires w in workers && workers[w].Claimed? && workers[w].id in records
      modifies this
      ensures a == if !executorSet then FindNoExecutor(w)
                   else if old(records[workers[w].id].cancelled) then SeeCancelled(w)
                   else Launch(w)
      ensures Enabled(old(View()), a) && View() == Apply(old(View()), a)
    {
      var id := workers[w].id;
      if !executorSet {
        workers := workers[w := Closing(id, Failed)];
        return FindNoExecutor(w);
      }
      if records[id].cancelled {
        workers := workers[w := Closing(id, Cancelled)];
        return SeeCancelled(w);
      }
      workers := workers[w := Launched(id)];
      return Launch(w);
    }

    /** The call itself, which returns or raises, perhaps later than the task's timeout allows. A task without a
        positive timeout waits for its call however late it is. */
    method RunWithTimeout(w: WorkerId, end: CallEnd, late: bool) returns (outcome: Outcome)
      requires w in workers && workers[w].Launched? && workers[w].id in records
      modifies this
      ensures var timeout := old(records[workers[w].id].timeoutSec);
              outcome == Overdue <==> late && timeout != None && timeout.value > 0.0
      ensures outcome != Overdue ==> (outcome == Good <==> end == Returned(true))
      ensures outcome != Overdue ==> (outcome == Crashed <==> end == Raised)
      ensures Enabled(old(View()), Execute(w, outcome)) && View() == Apply(old(View()), Execute(w, outcome))
    {
      var timeout := records[workers[w].id].timeoutSec;
      if timeout == None || timeout.value <= 0.0 || !late {
        match end
        case Returned(success) => outcome := if success then Good else Unsuccessful;
        case Raised => outcome := Crashed;
      } else {
        outcome := Overdue;
      }
      workers := workers[w := Ran(workers[w].id, outcome)];
    }

    method FinalizeTask(id: TaskId, verdict: Status)
      requires id in records
      modifies this
      ensures View() == Finalize(old(View()), id, verdict)
    {
      records := records[id := records[id].(status := verdict)];
      records := records[id := records[id].(doneEvent := true)];
    }

    method CloseSection(w: WorkerId)
      requires Enabled(View(), Close(w))
      modifies this
      ensures View() == Apply(old(View()), Close(w))
    {
      FinalizeTask(workers[w].id, workers[w].verdict);
      workers := workers[w := Idle];
    }

    /** The locked section after execution. */
    method CheckSection(w: WorkerId)
      requires Enabled(View(), CheckCancelled(w))
      modifies this
      ensures View() == Apply(old(View()), CheckCancelled(w))
    {
      var Ran(id, outcome) := workers[w];
      if records[id].cancelled && outcome != Overdue {
        FinalizeTask(id, Cancelled);
        workers := workers[w := Idle];
        return;
      }
      workers := workers[w := Checked(id, outcome)];
    }

    /** The last locked section: success, retry, or a final failure. */
    method ConcludeSection(w: WorkerId, now: real)
      requires Enabled(View(), Conclude(w, now))
      modifies this, fifo, prio
      ensures View() == Apply(old(View()), Conclude(w, now))
    {
      var Checked(id, outcome) := workers[w];
      if outcome == Good {
        FinalizeTask(id, Success);
      } else {
        HandleFailureSection(id, outcome, now);
      }
      workers := workers[w := Idle];
    }

    method HandleFailureSection(id: TaskId, outcome: Outcome, now: real)
      requires id in records
      modifies this, fifo, prio
      ensures View() == HandleFailure(old(View()), id, outcome, now)
    {
      var record := records[id];
      if outcome == Overdue {
        if record.retryCount < record.maxRetries && !record.cancelled {
          records := records[id := record.(retryCount := record.retryCount + 1, status := Pending)];
          PushQueue(id, record.priority, now);
          return;
        }
        FinalizeTask(id, TimedOut);
        return;
      }
      if record.retryCount < record.maxRetries && !record.cancelled {
        records := records[id := record.(retryCount := record.retryCount + 1, status := Pending)];
        PushQueue(id, record.priority, now);
        return;
      }
      FinalizeTask(id, Failed);
    }
  }
}
