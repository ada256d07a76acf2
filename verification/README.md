# Verification of the agent platform's state machines

This project models, in Dafny, the parts of the backend that keep state and decide things, and proves what
they are relied on for.

`dafny verify dfyconfig.toml` checks the whole project. Where the backend changes objects step by step, the
model is a class whose methods do the same, each proved against a function of the old state; the lemmas are
about those functions.

**Workflow engine.** `WorkflowGraph.dfy` holds the graph object (construction, validation, Kahn's algorithm,
entry nodes, branch filters) and `WorkflowExecutor.dfy` the executor (skipping pass, ready nodes, waves, retries,
resume, rerun). `WorkflowRun.dfy` gives a run its meaning: the state after a start and any sequence of resumes
and reruns, for an arbitrary oracle that answers each execution of a node. `WorkflowInvariant.dfy`,
`WorkflowTheorems.dfy` and `WorkflowLog.dfy` prove the invariant, the main results and the dispatch log;
`WorkflowReruns.dfy` says exactly when a rerun is like a fresh run; `WorkflowExamples.dfy` holds two counterexamples. `Graph.dfy` has paths, cycles and reachability.

Four facts of the code shape the results. A branch edge holds its target back only once its source has taken the
branch, so a node with mixed in-edges may run before all of its predecessors are done; what holds is that all plain
sources are done (`RunLog.LoopProgress`). Skips do not spread through plain edges, so the executed nodes are the
locally active ones (`RunTheorems.CompletedRunExecutedActiveNodes`). Skipping is one pass in insertion order:
some acyclic graphs deadlock (`RunExamples.BackwardsDeadlocks`), exactly when a second pass would have gone on
(`RunTheorems.DeadlockIsAnUnfinishedPass`), and never when edges between nodes that can be skipped go forward in
insertion order (`RunTheorems.NoRunDeadlocks`), which is also necessary where no plain edge comes below such nodes
(`RunDeadlocks.DeadlockFreeIff`, in `WorkflowDeadlocks.dfy`). A rerun forgets the branch of its own node only, so it can differ
from a fresh run (`RunExamples.RerunIsNotAFreshRun`), and is like one for all behaviours of the nodes exactly when
no branch on record is misleading, which can be read off before the call (`RunReruns.RerunIsFreshIff`).

**Agent scheduler.** `Scheduler.dfy` is the protocol: any number of clients and workers, interleaved wherever the
code releases its lock, and `SchedulerSections.dfy` the object whose sections perform those actions.
Finalizing never looks at the status it overwrites; `SchedulerInvariant.dfy` proves the ownership that makes this
safe, and `SchedulerTheorems.dfy` that verdicts are final. `SchedulerProgress.dfy` bounds the steps of a task, tightly,
and shows that no task is left behind; `SchedulerCancellation.dfy` says exactly when a granted cancel can still end
otherwise. `SchedulerVerdicts.dfy` traces every verdict to its cause. `QueueOrder.dfy` says in which order ids come out,
by urgency or by age. `TaskQueue.dfy` proves that the heap with lazy deletion is a priority queue as long as pushes are fresh, and
`SchedulerQueue.dfy` that in every run of the scheduler they are.

**Smaller cores.** `GpuAllocator.dfy` (greedy choice with rollback), `Splitter.dfy` and `Text.dfy` (document
splitting), `Cache.dfy` (the expiring FIFO store and the embedding cache over it), `PartialJson.dfy` (the decoder for
unfinished JSON strings), `Prompts.dfy` (prompt inheritance), `ModelRegistry.dfy` (the alias indexes) and
`Failover.dfy` (rotation over healthy providers). `Sequences.dfy` and `Ordering.dfy` hold shared facts, among them
the stable sort.

Where code and comment disagree, the code is modelled: the failover selector's docstring speaks of weights, but
selection is a plain rotation.

## Model

| member | source | states |
|---|---|---|
| RunTheorems.InvDrive | backend/app/workflow/executor.py:74-259 | From a fresh start through any sequence of resumes and reruns, for any behaviour of the nodes, the run ends (never left as running) and keeps its invariant; a run marked completed has every node completed or skipped. |
| RunTheorems.CompletedRunExecutedActiveNodes | backend/app/workflow/executor.py:261-346 | In every completed run the executed nodes are exactly those without in-edges, with a plain in-edge, or with an in-edge whose condition is the branch recorded for its source; every other node is skipped. |
| RunTheorems.ActiveMeaning | backend/app/workflow/executor.py:293-319 | That declarative reading of the edges agrees with the required-predecessor sets the executor computes. |
| RunTheorems.Confluence | backend/app/workflow/executor.py:159-346 | Two completed runs of one acyclic graph whose commonly executed nodes ended alike executed the same nodes, with the same completions, skips and branches: wave order cannot matter. |
| RunTheorems.PausesDoNotMatter | backend/app/workflow/executor.py:112-157 | The same for runs under any two node behaviours, each paused and resumed at will. |
| RunTheorems.ResumesKeepBranchesCurrent | backend/app/workflow/executor.py:112-157 | Starts and resumes record branches for completed nodes only, which is what confluence needs. |
| RunReruns.RerunIsFreshIff | backend/app/workflow/executor.py:637-671 | Exactly when a rerun is like a fresh run, from what is known before the call, for a run in any reachable state (completed, failed or waiting): in a graph whose skippable nodes are inserted sources-first, the rerun, resumed any number of times, and a fresh run, resumed any number of times, execute, complete and skip the same nodes for all behaviours of the nodes, whenever both complete and their common nodes end alike, if and only if no recorded branch is misleading. A branch is misleading when its target has nothing firmer to go by and its source is run again without being sure to complete, or is not completed as it is. |
| RunReruns.HarmlessRerunIsFresh | backend/app/workflow/executor.py:637-671 | One half of that for every acyclic graph, whatever its insertion order: without a misleading branch the rerun agrees with every such fresh run. |
| RunReruns.HarmfulRerunDiverges | backend/app/workflow/executor.py:650-668 | The other half with its witnesses: behaviours of the nodes under which the rerun and a fresh run both complete without a pause, their common nodes end alike, and they executed different nodes. |
| RunReruns.AgreementIff | backend/app/workflow/executor.py:293-346 | After the call: a completed run and a fresh one whose common nodes ended alike executed the same nodes if and only if dropping the branches of nodes that are not completed changes nobody's activity. |
| RunReruns.HarmlessMisleadsNobody | backend/app/workflow/executor.py:650-668 | Without a misleading branch, no stale branch changes who takes part in the rerun. |
| RunReruns.CalmCompletes | backend/app/workflow/executor.py:159-259 | From every state that satisfies the invariant, a resumed one included, the loop completes the run if no node waits or fails for good and skippable nodes are inserted sources-first. |
| RunReruns.LoopTraces | backend/app/workflow/executor.py:192-246 | Every new result is what the node answered, the branch of a node that is not completed is the one it had before the loop, and an undone node with a result has stopped the run. |
| RunReruns.ContinuedFollows | backend/app/workflow/executor.py:637-671 | Through a rerun and any number of resumes, whatever the reset left done keeps its outcome and branch, and the invariant holds. |
| RunTheorems.DeadlockIsAnUnfinishedPass | backend/app/workflow/executor.py:171-188 | When nothing is ready after the skipping pass, "Deadlock" is reported if and only if a second pass would skip more. |
| RunTheorems.LateSource | backend/app/workflow/executor.py:321-346 | For a node that one pass leaves skippable, an edge into it whose source was skipped later in that pass, has only branches coming in as the node itself has, and stands behind it in insertion order. |
| RunTheorems.NeverStuck | backend/app/workflow/executor.py:171-188 | If edges between nodes that have only branch in-edges go forward in insertion order, a state with nothing ready has every node done: one pass is a fixed point. |
| RunTheorems.LoopNeverDeadlocks | backend/app/workflow/executor.py:159-259 | From any state that satisfies the invariant the loop of such a graph never ends in "Deadlock". |
| RunTheorems.NoRunDeadlocks | backend/app/workflow/executor.py:74-259 | No run of such a graph ends in "Deadlock", whatever its nodes do and however often it is resumed or rerun. |
| RunTheorems.TopologicalInsertionIsSafe | backend/app/workflow/executor.py:159-346 | Insertion of every edge's source before its target rules out cycles and deadlocks for all node behaviours and all calls. |
| RunDeadlocks.DeadlockFreeIff | backend/app/workflow/executor.py:159-346 | Exactly which insertion orders are safe, for acyclic graphs in which no plain edge comes below a node that has only branches coming in: no behaviour of the nodes and no calls lead to "Deadlock" if and only if edges between nodes with only branches coming in go forward in insertion order. |
| RunDeadlocks.BackwardEdgeDeadlocks | backend/app/workflow/executor.py:321-346 | In any graph, an edge between two such nodes that goes backwards leads to "Deadlock" in a first run or in a rerun of its source, if everything downstream of the source has only branches coming in. |
| RunExamples.BackwardsDeadlocks | backend/app/workflow/executor.py:321-346 | The acyclic graph C -true-> A -true-> B inserted as B, A, C ends in "Deadlock" when C comes out false. |
| RunExamples.RerunIsNotAFreshRun | backend/app/workflow/executor.py:650-668 | A rerun need not be like a fresh run with the new outcomes: a kept branch of a downstream node makes the rerun execute a node that the fresh run skips. |
| RunLog.LoopProgress | backend/app/workflow/executor.py:159-259 | One execution of the loop dispatches nodes only while they are undone and only after all their plain sources are done, each is done before the next dispatch, and whatever was done before keeps its outcome, result and branch. |
| RunLog.ProgressNoRepeat | backend/app/workflow/executor.py:192-246 | Hence no node is dispatched twice in one execution of the loop. |
| RunLog.RepeatedOnlyAfterPause | backend/app/workflow/executor.py:112-157 | However often a run is resumed, a node is dispatched a second time only if the run had paused for an approval right behind the first dispatch. |
| RunLog.RerunTouchesOnlyDownstream | backend/app/workflow/executor.py:637-671 | A rerun neither dispatches a done node outside the rerun node and its descendants nor changes its outcome, result or branch. |
| RunLog.ExecutedIsLogged | backend/app/workflow/executor.py:192-201 | Without reruns the nodes with a result are exactly the nodes that were dispatched. |
| RunInvariant.InvDispatch | backend/app/workflow/executor.py:192-246 | Dispatching a ready node keeps the invariant: completed and skipped are disjoint sets of nodes, every result is justified by done predecessors, every automatic skip by untaken branches, and the status fits. |
| RunInvariant.InvSkipFrom | backend/app/workflow/executor.py:321-346 | The skipping pass keeps the invariant. |
| RunInvariant.ReadyStable | backend/app/workflow/executor.py:261-291 | A ready node stays ready through the dispatch of any other node, so the snapshot that a wave works through never goes stale. |
| RunInvariant.ReadyList | backend/app/workflow/executor.py:261-291 | The ready list holds exactly the ready nodes, each once, in the order of their ids. |
| Ordering.LexMeaning | backend/app/workflow/executor.py:291 | The order of ids is that of strings: prefixes first, and else the smaller character at the first difference. |
| RunInvariant.RequiredKept | backend/app/workflow/executor.py:293-319 | Required predecessors that are done stay required and done; a branch taken later adds only done ones. |
| RunInvariant.LoopDecreases | backend/app/workflow/executor.py:169-253 | A wave that leaves the run going finishes a node that was undone, which makes the loop end. |
| RunInvariant.AllDone | backend/app/workflow/executor.py:177-186 | Comparing the sizes of the two sets with the number of nodes tests exactly whether every node is done. |
| RunInvariant.InvReset | backend/app/workflow/executor.py:650-668 | The reset of a rerun restores the loop invariant, and no node that stays done has a predecessor among the reset ones. |
| RunInvariant.InvObey | backend/app/workflow/executor.py:112-157 | Resume and rerun keep the invariant, and a call that is refused changes nothing. |
| Runs.TriesMeaning | backend/app/workflow/executor.py:364-400 | The number of executions of a dispatched node: k exactly when k is at least 1 and at most one more than its positive max_retries, all but the last failed, and the last failed only if that limit was reached. |
| Runs.DispatchMeaning | backend/app/workflow/executor.py:192-246 | Everything a dispatch does, in terms of max_retries, on_failure and the answers of the node: how often it executes, that it records the last answer with that number, and whether the node is completed, skipped, waiting or fails the run, with the branch of a conditional node. |
| Runs.SkipFromGrows | backend/app/workflow/executor.py:321-346 | Automatic skipping changes nothing but the set of skipped nodes, which only grows. |
| Executors.WorkflowExecutor.Predecessors | backend/app/workflow/executor.py:348-362 | The list of predecessors has exactly the sources of the in-edges. |
| Executors.WorkflowExecutor.RequiredPredecessors | backend/app/workflow/executor.py:293-319 | The required predecessors are the sources of plain in-edges and of in-edges whose condition the source has taken. |
| Executors.WorkflowExecutor.AutoSkipUnreachable | backend/app/workflow/executor.py:321-346 | One call is one pass in insertion order, each node seeing the skips made before it. |
| Executors.WorkflowExecutor.ReadyNodes | backend/app/workflow/executor.py:261-291 | Returns the sorted ready nodes of the state and changes nothing. |
| Executors.WorkflowExecutor.ExecuteNodeWithRecovery | backend/app/workflow/executor.py:364-400 | Executes the node until an answer is not a failure, once and at most max_retries times more; returns the last answer with the number of attempts, a failure only if the attempts were used up. |
| Executors.WorkflowExecutor.DispatchNode | backend/app/workflow/executor.py:192-246 | Records the result and files the outcome: complete, wait, or by the failure action skip, continue or fail. |
| Executors.WorkflowExecutor.ExecuteLoop | backend/app/workflow/executor.py:159-259 | The loop computes the run's meaning from any state; the "No progress" branch and the final correction of the status are unreachable. |
| Executors.WorkflowExecutor.StartRun | backend/app/workflow/executor.py:74-110 | Rejects exactly the invalid graphs with their error; otherwise keeps a fresh run under its id and drives it to its end. |
| Executors.WorkflowExecutor.ResumeRun | backend/app/workflow/executor.py:112-157 | Refused for an unknown run and for one that does not wait for an approval, and then nothing changes; otherwise the run goes on from where it paused. |
| Executors.WorkflowExecutor.RerunStep | backend/app/workflow/executor.py:637-671 | Refused for an unknown run or node, and then nothing changes; otherwise that node and its descendants are reset and the run goes on. |
| Executors.WorkflowExecutor.CollectDownstream | backend/app/workflow/executor.py:673-694 | The search returns exactly the strict descendants of the node, on cyclic graphs too. |
| Executors.SearchDone | backend/app/workflow/executor.py:673-694 | An exhausted search has visited exactly what is reachable. |
| Graphs.MinimalNode | backend/app/workflow/graph.py:175-214 | Without a cycle every non-empty set of nodes has a member without a predecessor inside it. |
| Graphs.CycleInside | backend/app/workflow/graph.py:175-214 | A finite non-empty set in which every node has a predecessor contains a cycle. |
| Graphs.OrderedOffCycle | backend/app/workflow/graph.py:175-214 | A node ordered behind all its sources lies on no cycle. |
| WorkflowGraphs.KahnComplete | backend/app/workflow/graph.py:175-214 | The counting run orders every node if and only if there is no cycle and every root is a start. |
| WorkflowGraphs.KahnOrders | backend/app/workflow/graph.py:106-139 | A run that orders every node over the kept edges is a permutation of the nodes in which every kept edge goes forward, and it orders every node exactly when all roots of the kept graph are starts. |
| WorkflowGraphs.ForwardEdges | backend/app/workflow/graph.py:72-139 | In such an order the source of each kept edge stands before its target. |
| WorkflowGraphs.KeptSubgraph | backend/app/workflow/graph.py:91-104 | Filtering edges by branches can create no cycle. |
| WorkflowGraphs.KeptMeaning | backend/app/workflow/edge.py:25-31 | The filter drops an edge exactly if it names a branch for the source that is not the condition of the edge, plain edges included. |
| WorkflowGraphs.ValidationMeaning | backend/app/workflow/graph.py:54-70 | A graph is valid exactly if it has a node, no cycle, and an entry node if it names one; the first of these that fails is reported. |
| WorkflowGraphs.RootsMeaning | backend/app/workflow/graph.py:106-137 | Ordering reaches everything exactly if each node all of whose in-edges are dropped is the entry node, if one is named, and else has no in-edge. |
| WorkflowGraphs.UnfilteredAlwaysOrders | backend/app/workflow/graph.py:72-139 | With no filter and no entry id, ordering succeeds for every valid graph. |
| WorkflowGraphs.RootExists | backend/app/workflow/graph.py:60-66 | A non-empty acyclic graph has a node without in-edges, so the missing-entry error of validation never occurs. |
| WorkflowGraphs.BuildTables | backend/app/workflow/graph.py:85-104 | The in-degree table and the adjacency lists count and list exactly the kept edges, parallel edges included. |
| WorkflowGraphs.Drain | backend/app/workflow/graph.py:120-133 | The queue loop yields an order in which everything stands behind all its sources and everything left out is a root that is no start or has a source left out. |
| WorkflowGraphs.WorkflowGraph.AddNode | backend/app/workflow/graph.py:24-30 | Appends the node, or refuses a duplicate id and changes nothing. |
| WorkflowGraphs.WorkflowGraph.AddEdge | backend/app/workflow/graph.py:32-52 | Appends the edge, or refuses an unknown end and changes nothing. |
| WorkflowGraphs.WorkflowGraph.EntryNodes | backend/app/workflow/graph.py:163-173 | Exactly the nodes without in-edges, each once. |
| WorkflowGraphs.WorkflowGraph.AssertAcyclic | backend/app/workflow/graph.py:175-214 | Fails if and only if the graph has a cycle, self-loops and parallel edges included. |
| WorkflowGraphs.WorkflowGraph.Validate | backend/app/workflow/graph.py:54-70 | Accepts exactly the non-empty acyclic graphs whose entry id, if given, is a node, and names the first fault otherwise. |
| WorkflowGraphs.WorkflowGraph.TopologicalOrder | backend/app/workflow/graph.py:72-139 | Fails exactly on invalid graphs and where some root of the kept graph is no start; a result is a permutation of all nodes with every kept edge forward and the roots first. |
| TaskQueues.PopRefines | backend/app/scheduler/queue.py:149-169 | Popping with lazy deletion is popping a plain priority queue of the live entries; it returns nothing exactly when no entry is live. |
| QueueOrders.PopsMostUrgent | backend/app/scheduler/queue.py:132-169 | After any history of fresh pushes, removals and pops, the id that comes out was pushed with the greatest priority of all that are queued; among those it was pushed with the least time, and among those it is the least id. |
| QueueOrders.PopsOldest | backend/app/scheduler/queue.py:78-104 | After any such history of the first-in-first-out queue, the id that comes out was pushed before all others that are queued. |
| QueueOrders.HistoryMatches | backend/app/scheduler/queue.py:121-169 | What is queued under either policy agrees with the last push of its id throughout. |
| TaskQueues.PushRefines | backend/app/scheduler/queue.py:132-147 | A pushed entry becomes live if and only if its id was not removed before. |
| TaskQueues.RemoveRefines | backend/app/scheduler/queue.py:171-175 | Noting an id as removed deletes exactly its entry from the live ones. |
| TaskQueues.LazyDeletionRefines | backend/app/scheduler/queue.py:121-175 | Over every history that pushes no id while it is queued or while its removal is still noted, the lazy queue answers like a priority queue with real deletion. |
| TaskQueues.PushAfterRemoveIsLost | backend/app/scheduler/queue.py:132-175 | Without that condition it does not: an id pushed after its removal never comes out. |
| TaskQueues.ItemOrder | backend/app/scheduler/queue.py:30-33 | The heap order is total, antisymmetric and transitive, so the least entry is unique. |
| TaskQueues.PushLive | backend/app/scheduler/queue.py:78-147 | Under either policy a push of a new id adds it to the ids that will come out. |
| TaskQueues.PopLive | backend/app/scheduler/queue.py:92-169 | Under either policy a pop takes one id out of those, or finds none exactly when there is none. |
| TaskQueues.RemoveLive | backend/app/scheduler/queue.py:106-175 | Under either policy a removal takes exactly its id out of them. |
| TaskQueues.FIFOQueue.PushTask | backend/app/scheduler/queue.py:78-90 | Appends the id. |
| TaskQueues.FIFOQueue.PopTask | backend/app/scheduler/queue.py:92-104 | Takes the id that was pushed first, or none from an empty queue. |
| TaskQueues.FIFOQueue.RemoveTask | backend/app/scheduler/queue.py:106-113 | Deletes the first occurrence and says whether there was one. |
| TaskQueues.PriorityTaskQueue.PushTask | backend/app/scheduler/queue.py:132-147 | Adds a heap entry without looking at the removed ids. |
| TaskQueues.PriorityTaskQueue.PopTask | backend/app/scheduler/queue.py:149-169 | Drops removed entries and their notes until a live one is on top. |
| TaskQueues.PriorityTaskQueue.RemoveTask | backend/app/scheduler/queue.py:171-175 | Notes the id and always reports success, known id or not. |
| SchedulerInvariant.InvApply | backend/app/scheduler/scheduler.py:88-420 | Every step of every client and worker keeps the ownership invariant: one token per task, records that agree with who holds the task, and the completion event set exactly on terminal statuses. |
| SchedulerInvariant.InvAfter | backend/app/scheduler/scheduler.py:88-420 | Every state of every interleaving of any number of clients and workers satisfies it. |
| SchedulerInvariant.OwnerAlone | backend/app/scheduler/scheduler.py:398-420 | A worker about to write a verdict is the only holder of a running, unqueued task. |
| SchedulerTheorems.TerminalStep | backend/app/scheduler/scheduler.py:398-420 | No step changes the record of a finished task, although finalizing never looks at the status. |
| SchedulerTheorems.TerminalIsFinal | backend/app/scheduler/scheduler.py:194-420 | Terminal statuses are final over every run. |
| SchedulerTheorems.TokensAndEvents | backend/app/scheduler/scheduler.py:88-420 | At every lock boundary a pending task is either queued or held by exactly one worker that popped it, a running task has exactly one owner, a finished one is neither queued nor owned, and the event is set if and only if the status is terminal. |
| SchedulerTheorems.WaitedAnswerIsFinal | backend/app/scheduler/scheduler.py:127-192 | A client that saw the event reads a terminal status, and every later reader gets the same answer. |
| SchedulerTheorems.ClaimsBounded | backend/app/scheduler/scheduler.py:343-396 | A task is claimed at most max(0, max_retries) + 1 times, its retry count stays within max(0, max_retries), and it times out only with a positive timeout. |
| SchedulerProgress.MeasureFalls | backend/app/scheduler/scheduler.py:251-396 | A measure of remaining retries and phase falls at every worker step on a task and rises at no step. |
| SchedulerProgress.MeasureOverRun | backend/app/scheduler/scheduler.py:251-396 | Summed over a run, the worker steps on a task never exceed what its measure has lost. |
| SchedulerProgress.TaskFinishes | backend/app/scheduler/scheduler.py:88-396 | No run takes more than 6 * max(0, max_retries) + 6 worker steps on a submitted task, and one that takes so many has finished it. |
| SchedulerProgress.BoundIsAttained | backend/app/scheduler/scheduler.py:251-396 | The bound is tight: for every number of retries some run from the start takes exactly that many steps. |
| SchedulerProgress.UnfinishedCanMove | backend/app/scheduler/scheduler.py:251-396 | An unfinished task is queued, or held by a worker that can take a step with it. |
| SchedulerProgress.UnmovableIsFinished | backend/app/scheduler/scheduler.py:251-396 | A reachable task that is not queued and that no worker can move has finished. |
| SchedulerProgress.QuietIffAllFinished | backend/app/scheduler/scheduler.py:251-396 | With at least one worker, a reachable state leaves workers nothing but empty pops if and only if every worker is idle and every task has finished. |
| SchedulerCancellation.CancelStopsClaimsAndRetries | backend/app/scheduler/scheduler.py:194-226 | After a granted cancel the task is never claimed and never retried again. |
| SchedulerCancellation.CancelEscapesIff | backend/app/scheduler/scheduler.py:194-341 | Exactly when a granted cancel promises nothing: some continuation ends the task with another verdict if and only if its owner was past noticing, that is without an executor, decided on failure, in a call that has a timeout, out of a call that timed out, or past the check behind the call. |
| SchedulerCancellation.CancelOutcome | backend/app/scheduler/scheduler.py:194-341 | A granted cancel of a pending task ends it as cancelled; a running one can end only in a verdict still open where its worker stood. |
| SchedulerCancellation.GivingUpStopsTheTask | backend/app/scheduler/scheduler.py:157-167 | A waiting client whose deadline passes cancels and gives up; granted or not, no claim and no retry of the task comes after that. |
| SchedulerCancellation.CancelledTaskMaySucceed | backend/app/scheduler/scheduler.py:302-321 | From the start of any scheduler with a worker, a run in which a cancel is granted and the task still succeeds. |
| SchedulerQueue.RunIsHistory | backend/app/scheduler/scheduler.py:357-389 | Every run is a history of queue operations that pushes no id while it is queued or noted as removed, and workers are handed what that history outputs. |
| SchedulerQueue.RunsUseAPlainQueue | backend/app/scheduler/scheduler.py:88-396 | In every run from the start under the priority policy the workers are handed, pop by pop, exactly what a priority queue with real deletion would hand them. |
| SchedulerQueue.RunOperates | backend/app/scheduler/scheduler.py:88-396 | Under either policy the queue of a run is what its pushes, removals and pops make of it, and all pushes are fresh. |
| SchedulerQueue.HandsOutTheMostUrgent | backend/app/scheduler/queue.py:132-169 | In every run from the start under the priority policy, the task handed to a worker has the greatest priority of all queued ones; among those it was queued at the least time, and among those it has the least id. |
| SchedulerQueue.HandsOutTheOldest | backend/app/scheduler/queue.py:78-104 | In every run from the start under the first-in-first-out policy, the task handed to a worker was queued before all others that are queued. |
| SchedulerQueue.RecordIsAsSubmitted | backend/app/scheduler/scheduler.py:88-125 | Priority, retries and timeout of a record are those of its submission throughout every run. |
| SchedulerVerdicts.VerdictHasItsCause | backend/app/scheduler/scheduler.py:251-420 | In every run from the start, a task succeeds only if an execution of it came out well, times out only if one was overdue, fails only if one was unsuccessful or crashed or no executor was found, and is cancelled only if a cancel of it was granted. |
| SchedulerVerdicts.EndOfAttempt | backend/app/scheduler/scheduler.py:311-396 | A good outcome ends as success; any other is queued again with one more retry while retries are left and no cancel was granted, and else ends as timed out exactly if it was overdue and as failed if not. |
| SchedulerVerdicts.EndOfExecution | backend/app/scheduler/scheduler.py:296-309 | A cancelled task whose call was not overdue ends as cancelled; otherwise its worker goes on with the outcome. |
| SchedulerTheorems.Unaffected | backend/app/scheduler/scheduler.py:251-341 | A step about one task leaves record, queueing and holder of every other task alone. |
| SchedulerSections.AgentScheduler.SubmitTask | backend/app/scheduler/scheduler.py:88-125 | Stores a fresh pending record and queues it. |
| SchedulerSections.AgentScheduler.CancelTask | backend/app/scheduler/scheduler.py:194-226 | Grants exactly the cancels of known unfinished tasks; ends a pending one at once and only flags a running one. |
| SchedulerSections.AgentScheduler.TakeFromQueue | backend/app/scheduler/worker.py:63-72 | A worker takes an id out of the queue without touching its record. |
| SchedulerSections.AgentScheduler.ClaimSection | backend/app/scheduler/scheduler.py:251-264 | Starts the task if it is still pending and not cancelled, and lets it go otherwise. |
| SchedulerSections.AgentScheduler.SetExecutorFunction | backend/app/scheduler/scheduler.py:69-72 | Binds the execution function. |
| SchedulerSections.AgentScheduler.BeforeExecution | backend/app/scheduler/scheduler.py:266-282 | Without the lock: fails a task for lack of an executor, stops a cancelled one, or goes on to execute. |
| SchedulerSections.AgentScheduler.CloseSection | backend/app/scheduler/scheduler.py:266-282 | Finalizes the verdict reached without executing. |
| SchedulerSections.AgentScheduler.RunWithTimeout | backend/app/scheduler/worker.py:97-122 | Reports a timeout exactly for a call that is late on a task with a positive timeout, and otherwise the result of the call or its exception. |
| SchedulerSections.AgentScheduler.CheckSection | backend/app/scheduler/scheduler.py:296-309 | After execution: an overdue call goes on as overdue, a cancelled task is finalized as cancelled, and the lock is given up. |
| SchedulerSections.AgentScheduler.ConcludeSection | backend/app/scheduler/scheduler.py:311-341 | Success is finalized; a failure or an overdue call goes to failure handling. |
| SchedulerSections.AgentScheduler.HandleFailureSection | backend/app/scheduler/scheduler.py:343-396 | Retries while retries are left and no cancel was granted, with the retry count raised and the id queued again; otherwise finalizes. |
| SchedulerSections.AgentScheduler.FinalizeTask | backend/app/scheduler/scheduler.py:398-420 | Writes the verdict and sets the event whatever the status was. |
| GpuAllocators.PickIsNext | backend/app/gpu/allocator.py:134-166 | After any picks and bookings, the best remaining candidate is the next index in one stable ranking of the original scan. |
| GpuAllocators.ChoiceMembers | backend/app/gpu/allocator.py:134-166 | The ranking's indices are exactly the indices of eligible devices, each once. |
| GpuAllocators.ChoiceIsRanking | backend/app/gpu/allocator.py:134-166 | With distinct device indices the choice is the stable sort of the eligible devices by (score, -free) itself. |
| GpuAllocators.RankingIsStable | backend/app/gpu/allocator.py:134-166 | That ranking permutes the candidates, is ordered, and keeps ties in scan order. |
| GpuAllocators.ChoiceIsBest | backend/app/gpu/allocator.py:134-166 | Each granted device has enough memory left and is preferred if there are preferences, and goes before all such devices not granted before it: less utilization plus a twentieth of the temperature, at equal load more memory left, and at equal memory earlier in the scan; nothing else can be used. |
| GpuAllocators.GrantedMemory | backend/app/gpu/allocator.py:60-77 | A grant adds the requested memory and one record to each chosen device and nothing to any other. |
| GpuAllocators.ReleaseUndoesAllocate | backend/app/gpu/allocator.py:86-88 | Releasing every id of a grant restores the ledger as it was. |
| GpuAllocators.GPUAllocator.PickGpuIndex | backend/app/gpu/allocator.py:134-166 | Returns the first of the sorted candidates outside the excluded indices, or none exactly when there is none. |
| GpuAllocators.GPUAllocator.ApplyToDevice | backend/app/gpu/allocator.py:182-191 | The first device with the index gains the memory and one record, and nothing else changes. |
| GpuAllocators.GPUAllocator.Rollback | backend/app/gpu/allocator.py:193-195 | Removes exactly the given records. |
| GpuAllocators.GPUAllocator.Allocate | backend/app/gpu/allocator.py:38-84 | Succeeds if and only if at least gpu_count indices of the scan can be used; it then grants the best of them in order, by load, memory left and place in the scan, with one record each for the memory and the owner of the request, and otherwise leaves the ledger as it was. |
| GpuAllocators.GPUAllocator.Release | backend/app/gpu/allocator.py:86-88 | Removes one record and says whether it existed. |
| GpuAllocators.GPUAllocator.ReleaseAll | backend/app/gpu/allocator.py:90-104 | Removes exactly the owner's records, or all for no owner, and returns how many went. |
| GpuAllocators.GPUAllocator.MergeDeviceAllocations | backend/app/gpu/allocator.py:106-132 | Each device gets the sum and the number of the ledger's records on it; nothing else of it changes. |
| Splitters.EndsIff | backend/app/knowledge/splitter.py:101-142 | With slices and limits of any sign, splitting a paragraph ends if and only if max_chunk_chars is positive or the paragraph is empty. |
| Splitters.AdvancesIffPositive | backend/app/knowledge/splitter.py:113-140 | A turn of the splitting loop advances if and only if the limit is positive. |
| Splitters.CeilDivMeaning | backend/app/knowledge/splitter.py:113-140 | The bound on the number of pieces is a quotient rounded up. |
| Splitters.PiecesFacts | backend/app/knowledge/splitter.py:113-140 | From any start the pieces are non-empty, within the limit, at most one per min(max, max // 4 + 2) characters, and carry the non-white characters of the rest in order. |
| Splitters.ParagraphFacts | backend/app/knowledge/splitter.py:101-142 | The same for a paragraph; one longer than the limit yields at most ceil(len / min(max, max // 4 + 2)) segments. |
| Splitters.SplitBlankInk | backend/app/knowledge/splitter.py:77-81 | Splitting at blank lines loses white space only. |
| Splitters.SplitLinesInk | backend/app/knowledge/splitter.py:85-89 | Splitting into lines loses white space only. |
| Splitters.SegmentsFacts | backend/app/knowledge/splitter.py:72-99 | For every text and positive limit each segment is non-empty and within the limit, the segments in order carry exactly the non-white characters, and there are none exactly for a blank text. |
| Splitters.DocumentIdMeaning | backend/app/knowledge/document.py:24-39 | A document goes by the id in its metadata, unless that is missing, empty or zero, and else by a digest of its content. |
| Splitters.ChunkIdsDiffer | backend/app/knowledge/splitter.py:32-50 | A chunk is named after its document and index, so chunks of one document have different ids exactly when their indices differ; the rest of the metadata is the document's. |
| Splitters.DocumentSplitter.SplitLongParagraph | backend/app/knowledge/splitter.py:101-142 | A paragraph within the limit stays one. Of a longer one the segments are the non-empty stripped stretches between cuts, each but the last ending with the first character of the last line break, full stop or stop before a blank in its window, if that lies beyond a quarter of the limit, and else with the window. |
| Splitters.BlankMeaning | backend/app/knowledge/splitter.py:77-81 | Blocks are cut at the first blank line, then at the first behind it, and so on, and joined by blank lines they are the text. |
| Splitters.LinesMeaning | backend/app/knowledge/splitter.py:85-89 | Lines are cut at every line boundary, a carriage return and a line feed being one, and with their ends they are the text. |
| Splitters.StripAllMeaning | backend/app/knowledge/splitter.py:77-89 | Of the parts the stripped ones are kept that are not empty. |
| Splitters.DocumentSplitter.SegmentText | backend/app/knowledge/splitter.py:72-99 | Paragraphs, or lines when there is at most one paragraph, each split and joined in order; a blank text has no segments under any limit. |
| Splitters.DocumentSplitter.Split | backend/app/knowledge/splitter.py:19-57 | One chunk per segment, with its index, parent, splitter and id written over the metadata of the document; a blank document comes back as it is. |
| Text.InkStrip | backend/app/knowledge/splitter.py:77-89 | Stripping removes white space only, and everything exactly from a blank text. |
| Text.StripMeaning | backend/app/knowledge/splitter.py:77-89 | Stripping takes all white space off both ends, and nothing else. |
| CacheStores.EvictIsFifo | backend/app/cache/memory.py:66-70 | Eviction removes the key inserted first, and only that. |
| CacheStores.StoreHistory | backend/app/cache/memory.py:30-70 | After any history of gets, sets, deletes and clears at any times the store holds at most max(1, max_entries) entries, and each is the latest write of its key. |
| CacheStores.ReadsLatestWrite | backend/app/cache/memory.py:30-54 | A read returns nothing but the latest write of its key, and never an expired one. |
| CacheStores.SetThenGet | backend/app/cache/memory.py:30-54 | A value just stored is found until its time to live is over. |
| CacheStores.GetMeaning | backend/app/cache/memory.py:30-38 | A read keeps every entry but an expired one of its own key, and finds exactly what has not expired. |
| CacheStores.SetMeaning | backend/app/cache/memory.py:40-54 | A write keeps every other entry and its place, except that a new key in a full store takes the place of the oldest. |
| CacheStores.DeleteMeaning | backend/app/cache/memory.py:56-58 | A deletion keeps every other entry, in its place among the rest. |
| CacheStores.MemoryCacheStore.Get | backend/app/cache/memory.py:30-38 | Returns an unexpired entry and removes an expired one. |
| CacheStores.MemoryCacheStore.Set | backend/app/cache/memory.py:40-54 | Makes room for a new key at capacity; a known key keeps its place. |
| CacheStores.MemoryCacheStore.Delete | backend/app/cache/memory.py:56-58 | Removes the key and says whether it was there. |
| CacheStores.MemoryCacheStore.Clear | backend/app/cache/memory.py:60-64 | Empties the store and returns how many entries it held. |
| CacheStores.MemoryCacheStore.EvictOne | backend/app/cache/memory.py:66-70 | Removes the oldest entry if there is one. |
| EmbeddingCaches.ReplayCoherent | backend/app/cache/layers.py:84-112 | Whatever fair users of the shared store do, every vector under the model's keys stays the one that the model computes. |
| EmbeddingCaches.EmbeddingCache.GetMany | backend/app/cache/layers.py:84-98 | One answer per text: it is found exactly when the store of that moment, after everything other users did, has it unexpired, and then it is what the model computes. |
| EmbeddingCaches.EmbeddingCache.SetMany | backend/app/cache/layers.py:100-112 | The store goes through the writes of all vectors in order, interleaved with what other users do, and stays coherent. |
| EmbeddingCaches.CachedEmbeddingProvider.Embed | backend/app/cache/cached_embedding.py:24-50 | For every list of texts, duplicates included, every clock, expiry, eviction and other fair user, the result is that of the wrapped provider, and the cache stays coherent. |
| EmbeddingCaches.CachedEmbeddingProvider.FillGaps | backend/app/cache/cached_embedding.py:36-48 | Consuming the computed vectors in order wherever nothing was cached puts each at its text. |
| PartialJson.UnescapePartialJsonString | backend/app/llm/openai_provider.py:559-598 | The loop computes the decoding defined token by token. |
| PartialJson.DecodesIffKnown | backend/app/llm/openai_provider.py:559-598 | For every legal JSON string body (section 7 of RFC 8259), surrogate escapes included, closed by a quote and followed by anything, the decoder returns the text denoted, compared by UTF-16 code units, if and only if the body uses none of \b, \f and \u. |
| PartialJson.EncodeFacts | backend/app/llm/openai_provider.py:559-598 | The encoder spells every text as a legal body that denotes it. |
| PartialJson.RoundTripIffPrintable | backend/app/llm/openai_provider.py:559-598 | It inverts the encoder exactly on texts whose only control characters are line feed, carriage return and tab. |
| PartialJson.TruncatedSpelling | backend/app/llm/openai_provider.py:559-598 | Any truncation of a body of known tokens decodes to a prefix of the text, up to one trailing backslash. |
| PartialJson.TruncationIsPrefix | backend/app/llm/openai_provider.py:559-598 | The same for the encoding of any printable text cut anywhere. |
| Prompts.ResolveMeaning | backend/app/prompts/repository.py:85-116 | Resolving ends on every repository, cyclic ones included; it returns if and only if the chain of parents is finite, present and repeats no id, and then gives the separator-join of the non-empty stripped contents from root to leaf. |
| Prompts.FailureMeaning | backend/app/prompts/repository.py:85-116 | It fails with an error if and only if a walk along parents explains it: it comes back to one of its own ids, or breaks off at the missing prompt or version named. |
| Prompts.ChainResolves | backend/app/prompts/repository.py:97-116 | With any stack, a chain of distinct ids off the stack resolves to that join. |
| Prompts.ResolvedHasChain | backend/app/prompts/repository.py:97-116 | With any stack, success comes from such a chain. |
| Prompts.JoinNested | backend/app/prompts/repository.py:110-116 | Joining parent and child level by level is joining the whole chain at once. |
| Prompts.JoinMeaning | backend/app/prompts/repository.py:116 | Joining two lists of parts puts the separator between them and keeps their order. |
| Prompts.RootFirstAt | backend/app/prompts/repository.py:97-116 | The stripped contents stand from the root of the chain to the prompt asked for. |
| Prompts.GetMeaning | backend/app/prompts/repository.py:55-74 | A version asked for is the one returned; without one, or with an empty one, it is the newest. |
| Prompts.RegisterMeaning | backend/app/prompts/repository.py:32-53 | A registered prompt is found under its version, other prompts and versions stay, and a version that exists is refused unless it may be overwritten. |
| Prompts.RegisterElsewhere | backend/app/prompts/repository.py:32-53 | Registering a prompt whose id is not on a chain leaves what the chain resolves to unchanged. |
| Prompts.PromptRepository.Register | backend/app/prompts/repository.py:32-53 | Refuses a version that exists unless told to overwrite, and otherwise files it under its id and version. |
| Prompts.PromptRepository.Get | backend/app/prompts/repository.py:55-74 | The version asked for or else the newest, with an error naming what is missing. |
| Prompts.PromptRepository.ResolveContent | backend/app/prompts/repository.py:85-116 | The recursion computes the resolution from any stack. |
| ModelRegistries.RegisterSoundIff | backend/app/model_registry/repository.py:25-56 | A registration that is not refused at its name, completed or stopped at an alias, keeps every index entry pointing to a registered model that owns the key if and only if the new model owns every key that already led to its name. |
| ModelRegistries.NewNameIsCovered | backend/app/model_registry/repository.py:25-56 | A name not in use meets that condition. |
| ModelRegistries.UnregisterSound | backend/app/model_registry/repository.py:58-72 | Removing a model keeps the indexes sound and leaves no alias that leads to it. |
| ModelRegistries.RunsAreSoundIff | backend/app/model_registry/repository.py:25-72 | A run keeps the indexes sound after every operation if and only if every accepted registration, failed at an alias or not, owns every key that leads to its name. |
| ModelRegistries.NewNamesCover | backend/app/model_registry/repository.py:25-72 | In particular every run that replaces no live model does. |
| ModelRegistries.RemovalDanglesIff | backend/app/model_registry/repository.py:25-72 | Registering a model and removing it again leaves a dangling entry if and only if it did not own every key that led to its name. |
| ModelRegistries.RegisterErrorMeaning | backend/app/model_registry/repository.py:31-56 | A registration fails exactly if its name is taken, or an alias belongs to another model, and it may not overwrite; the error names what stands in the way. |
| ModelRegistries.RegisterKeepsOthers | backend/app/model_registry/repository.py:37-56 | A registration touches no key that the model does not own, no other model id and no other model. |
| ModelRegistries.UnregisterKeepsOthers | backend/app/model_registry/repository.py:58-72 | A removal drops the model, its model id and those of its keys that lead to it, and nothing else. |
| ModelRegistries.OwnsMeaning | backend/app/model_registry/repository.py:39-46 | The keys of a model are those of its name, its model id and its aliases. |
| ModelRegistries.RunsNeverDangle | backend/app/model_registry/repository.py:85-108 | After a run whose accepted registrations own the keys of their names, no lookup follows a dangling name. |
| ModelRegistries.SoundLookups | backend/app/model_registry/repository.py:85-108 | On sound indexes a lookup finds only a live model that goes by the text, and misses only if neither name nor alias matches. |
| ModelRegistries.RegisteredIsFound | backend/app/model_registry/repository.py:25-108 | After a registration without error every key of the model leads to it, unless the text is itself a model's name. |
| ModelRegistries.ReplacingMayDangle | backend/app/model_registry/repository.py:25-72 | Replacing a live model by one with fewer aliases and removing it leaves a dangling alias. |
| ModelRegistries.ModelRegistryRepository.RegisterModel | backend/app/model_registry/repository.py:25-56 | Files the model under name, name key, model id and aliases, stopping at the first alias that another model has. |
| ModelRegistries.ModelRegistryRepository.UnregisterModel | backend/app/model_registry/repository.py:58-72 | Removes the model and those of its keys that still lead to it. |
| ModelRegistries.ModelRegistryRepository.ResolveModel | backend/app/model_registry/repository.py:85-108 | Looks up by name, by normalised alias, and by model id, in that order. |
| Failovers.SelectRound | backend/app/service/failover.py:31-45 | Called as often as there are healthy nodes of the kind, selection returns every one of them, and each once, from any state of the selector. |
| Failovers.EveryCandidateOnce | backend/app/service/failover.py:38-41 | The indices of any n turns in a row over a list of n are those of the list, each once, from any value of the counter. |
| Failovers.TurnIsRotation | backend/app/service/failover.py:38-41 | The i-th selection of a series takes the index i places further on, around the end. |
| Failovers.ListMeaning | backend/app/service/registry.py:59-81 | The list holds exactly the nodes of the kind, if one is asked for, that are healthy, if that is asked for, each once, by name of the kind and then by id. |
| Failovers.MarkMeaning | backend/app/service/registry.py:114-129 | A check sets time and status; a good one counts and clears failures, a bad one counts and keeps its reason. |
| Failovers.TouchMeaning | backend/app/service/registry.py:91-102 | A heartbeat makes nodes of unknown or stale health healthy, and leaves unhealthy ones unhealthy. |
| Failovers.NewestHundred | backend/app/service/failover.py:64-68 | The log is the newest hundred events, in order. |
| Failovers.UrlMeaning | backend/app/service/registry.py:141-147 | A base URL is stored stripped, without slashes at its end, and with "/v1" behind it unless it is there; if nothing is left, it is refused. |
| Failovers.FailoverSelector.Select | backend/app/service/failover.py:31-45 | Returns the candidate whose turn it is, moves that kind's counter on and makes the node active; with no candidate nothing changes. |
| Failovers.FailoverSelector.ReportFailure | backend/app/service/failover.py:47-70 | Marks just that node unhealthy, returns the healthy node of the same kind whose turn it is, never the failed one, and none exactly when none is healthy; the log is the newest 100 of all events so far. |
| Failovers.FailoverSelector.EnsureActive | backend/app/service/failover.py:80-87 | Keeps a healthy active node without rotating, rotates otherwise, and fails exactly for an active id that has left the registry. |
| Failovers.ProviderRegistry.Register | backend/app/service/registry.py:25-46 | Refuses a known id unless told to overwrite, an empty base URL and a weight below 1; a new registration starts with unknown health and a normalised URL and keeps its place. |
| Failovers.NormalizedUrl | backend/app/service/registry.py:141-147 | A stored base URL ends with "/v1", and normalising it again changes nothing. |
| Failovers.ProviderRegistry.ListNodes | backend/app/service/registry.py:59-81 | Returns that list and changes nothing. |
| Failovers.ProviderRegistry.TouchHeartbeat | backend/app/service/registry.py:87-102 | Records the time and revives nodes of unknown or stale health, but not unhealthy ones. |
| Failovers.ProviderRegistry.MarkHealth | backend/app/service/registry.py:104-129 | Changes just that node, recording the time and counting failures and successes; an unknown id changes nothing. |
| Failovers.ProviderRegistry.MarkStale | backend/app/service/registry.py:131-138 | Makes just that node stale; an unknown id changes nothing. |
## Left out

- RunTheorems.NoRunDeadlocks: its condition on the insertion order is necessary only under the condition on plain edges of RunDeadlocks.DeadlockFreeIff; elsewhere, whether a backward edge bites depends on which other nodes are still ready when the pass ends. The exact condition for every graph is stated per state, in RunTheorems.DeadlockIsAnUnfinishedPass.
- RunTheorems.Confluence: speaks of acyclic graphs and of runs without stale branches; RunReruns.AgreementIff and RunReruns.RerunIsFreshIff say exactly when reruns keep to that.
- RunReruns.RerunIsFreshIff: asks for an acyclic graph whose skippable nodes are inserted sources-first, so that no deadlock cuts the compared runs short; RunReruns.HarmlessRerunIsFresh does without the order. It speaks of all behaviours of the nodes, among them conditional nodes that fail or complete without a branch. The code's own conditional nodes always complete, with "true" or "false" (executor.py:579-600); for them a harmless rerun is still like a fresh one, but a misleading branch need not mislead, since both branches may lead to its source; RunReruns.AgreementIff is the exact statement there.
- RunReruns.HarmfulRerunDiverges: its witnesses use such nodes, which are freer than the code's own conditional nodes.
- Executors.WorkflowExecutor.ExecuteNodeWithRecovery: what a node does (agents, tools, approvals, conditions, templates, the shared context) is an arbitrary function of the node and of how many executions the run has made so far.
- Executors.WorkflowExecutor.ResumeRun: the approval payload, which only nodes read, is part of what the nodes answer.
- Executors.WorkflowExecutor.StartRun: the generated run id and the contents of the shared context are not modelled.
- Executors.WorkflowExecutor.RerunStep: a graph object changed by its owner after the run has started is not modelled; the run keeps the graph it started with.
- SchedulerSections.AgentScheduler.TakeFromQueue: a pop that waits and times out is a pop that finds nothing; worker threads and condition variables are not modelled.
- SchedulerSections.AgentScheduler.RunWithTimeout: a call still running after its timeout is not modelled, and nothing is claimed about overlapping calls; whether the call is late is an input.
- SchedulerSections.AgentScheduler.FinalizeTask: the error text, the result value and the time stamps of a record are not modelled.
- SchedulerTheorems.WaitedAnswerIsFinal: which result or error text a client gets is not modelled; a client that gives up at its deadline is, in SchedulerCancellation.GivingUpStopsTheTask.
- SchedulerSections.AgentScheduler.SubmitTask: ids are required to be new, as uuid4 supplies them; a queue access inside a locked section is one step with it.
- SchedulerProgress.TaskFinishes: bounds worker steps; that workers keep taking steps, and that an executor returns, is not claimed.
- TaskQueues.PriorityTaskQueue.PopTask: the heap is a multiset from which the least entry is taken; the array layout of heapq is not modelled.
- GpuAllocators.GPUAllocator.Allocate: memory and scores are reals, so rounding is not modelled, and no quota across requests is claimed, since each request starts from a raw scan.
- Splitters.DocumentSplitter.SplitLongParagraph: covers exactly the inputs on which the loop ends, by Splitters.EndsIff; for a limit of zero or less and a paragraph that is not empty there is no result to state.
- Splitters.DocumentSplitter.Split: the digest that names a document without an id and the writing of numbers are parameters; the conversion to the retrieval format is not modelled.
- EmbeddingCaches.CachedEmbeddingProvider.Embed: the wrapped provider is a function of one text; cache keys are the triple that the code hashes, and stored vectors are kept as they are, so collisions and JSON number formatting are not modelled.
- Prompts.PromptRepository.Get: which version is newest is a parameter, so that every theorem holds for every ordering of versions; the comparison of semantic versions and the built-in prompts are not modelled.
- ModelRegistries.ModelRegistryRepository.ResolveModel: the normalisation of lookup keys is a parameter, and only name, model id and aliases of a model appear.
- Failovers.SelectRound: speaks of an unchanged list; the moment between listing the nodes and taking the turn, in which the code holds no lock, is not modelled.
- Failovers.ProviderRegistry.Register: the API key and the metadata of a node, upsert and removal of nodes are not modelled.
- The other caches, monitoring, routing, memory, HTTP, Redis, vector stores, model clients, benchmarks and dashboards: input and output around these cores, or registries that would only add easy members.
