/** The meaning of a workflow run: one scheduling step at a time, as functions from state to state.
    The executor object in WorkflowExecutor.dfy is proved to compute exactly these. */
module Runs {
  import opened Sequences
  import opened Ordering
  import opened Graphs

  datatype RunStatus = Running | WaitingApproval | Completed | Failed

  datatype RunError = NoError | Deadlock | NodeError(node: NodeId)

  datatype NodeStatus = NodeCompleted | NodeFailed | NodeWaiting

  /** What one execution of a node yields; `branch` is the branch entry of its data. */
  datatype NodeResult = NodeResult(status: NodeStatus, branch: Option<string>, attempts: nat)

  /** Everything behind a node (agent, tool, approval, condition): the k-th execution in the life of a
      run may depend on anything that happened before it, so it is an arbitrary function of k and the node. */
  type Oracle = (nat, NodeId) -> NodeResult

  /** A log entry: which node was dispatched, and which nodes were done at that moment. */
  datatype Dispatched = Dispatched(node: NodeId, done: set<NodeId>)

  datatype Run = Run(
    completed: set<NodeId>,
    skipped: set<NodeId>,
    branch: map<NodeId, Option<string>>,
    results: map<NodeId, NodeResult>,
    status: RunStatus,
    pending: Option<NodeId>,
    error: RunError,
    clock: nat,
    log: seq<Dispatched>)
  {
    function Done(): set<NodeId> {
      completed + skipped
    }

    function BranchOf(n: NodeId): Option<string> {
      if n in branch then branch[n] else None
    }
  }

  const FRESH := Run({}, {}, map[], map[], Running, None, NoError, 0, [])

  /* ---- predecessors ---- */

  function PredsAmong(edges: seq<Edge>, n: NodeId): set<NodeId> {
    set e | e in edges && e.dst == n :: e.src
  }

  function Preds(g: Graph, n: NodeId): set<NodeId> {
    PredsAmong(g.edges, n)
  }

  /** An in-edge holds its target back when it is plain, or when its source has taken that branch. */
  predicate Counts(s: Run, e: Edge) {
    e.condition.None? || e.MatchesBranch(s.BranchOf(e.src))
  }

  function RequiredAmong(edges: seq<Edge>, s: Run, n: NodeId): set<NodeId> {
    set e | e in edges && e.dst == n && Counts(s, e) :: e.src
  }

  function Required(g: Graph, s: Run, n: NodeId): set<NodeId> {
    RequiredAmong(g.edges, s, n)
  }

  lemma PredsAppend(edges: seq<Edge>, e: Edge, s: Run, n: NodeId)
    ensures PredsAmong(edges + [e], n) == PredsAmong(edges, n) + (if e.dst == n then {e.src} else {})
    ensures RequiredAmong(edges + [e], s, n)
         == RequiredAmong(edges, s, n) + (if e.dst == n && Counts(s, e) then {e.src} else {})
  {
    var all := edges + [e];
    assert e in all && forall x :: x in all <==> x in edges || x == e;
    forall p ensures p in PredsAmong(all, n) <==> p in PredsAmong(edges, n) || (e.dst == n && p == e.src) {
      if p in PredsAmong(edges, n) {
        var x :| x in edges && x.dst == n && x.src == p;
        assert x in all;
      }
    }
    forall p
      ensures p in RequiredAmong(all, s, n)
         <==> p in RequiredAmong(edges, s, n) || (e.dst == n && Counts(s, e) && p == e.src)
    {
      if p in RequiredAmong(edges, s, n) {
        var x :| x in edges && x.dst == n && Counts(s, x) && x.src == p;
        assert x in all;
      }
    }
  }

  /* ---- one pass of automatic skipping ---- */

  predicate Skippable(g: Graph, s: Run, n: NodeId) {
    && n !in s.Done()
    && Preds(g, n) != {}
    && Required(g, s, n) == {}
    && Preds(g, n) <= s.Done()
  }

  function SkipOne(g: Graph, s: Run, n: NodeId): Run {
    if Skippable(g, s, n) then s.(skipped := s.skipped + {n}) else s
  }

  /** Nodes are visited once, in insertion order, each seeing the skips made before it. */
  function SkipFrom(g: Graph, s: Run, i: nat): Run
    requires i <= |g.order|
    decreases |g.order| - i
  {
    if i == |g.order| then s else SkipFrom(g, SkipOne(g, s, g.order[i]), i + 1)
  }

  function SkipPass(g: Graph, s: Run): Run {
    SkipFrom(g, s, 0)
  }

  /* ---- readiness ---- */

  predicate IsReady(g: Graph, s: Run, n: NodeId) {
    && n !in s.Done()
    && (s.pending == Some(n)
        || if Required(g, s, n) == {} then Preds(g, n) == {} else Required(g, s, n) <= s.Done())
  }

  function ReadyTest(g: Graph, s: Run): NodeId -> bool {
    n => IsReady(g, s, n)
  }

  function Ready(g: Graph, s: Run): seq<NodeId> {
    Sort(Filter(g.order, ReadyTest(g, s)), LexLeq)
  }

  /* ---- executing one node ---- */

  function MaxAttempts(node: Node): nat {
    if node.maxRetries + 1 > 1 then node.maxRetries + 1 else 1
  }

  /** The number of executions that a dispatch makes, given that `made` have failed already. */
  function Attempts(o: Oracle, n: NodeId, clock: nat, made: nat, limit: nat): (k: nat)
    requires made < limit
    ensures made < k <= limit
    ensures forall c {:trigger o(c, n)} :: clock + made <= c < clock + k - 1 ==> o(c, n).status == NodeFailed
    ensures o(clock + k - 1, n).status == NodeFailed ==> k == limit
    decreases limit - made
  {
    if o(clock + made, n).status != NodeFailed || made + 1 >= limit then made + 1
    else Attempts(o, n, clock, made + 1, limit)
  }

  function Tries(g: Graph, o: Oracle, s: Run, n: NodeId): nat
    requires n in g.nodes
  {
    Attempts(o, n, s.clock, 0, MaxAttempts(g.nodes[n]))
  }

  /** A dispatch executes its node k times exactly when k is at least one and at most one more than the retries
      that the node allows, all but the last execution failed, and the last one did not fail unless that limit
      was reached. */
  lemma TriesMeaning(g: Graph, o: Oracle, s: Run, n: NodeId, k: nat)
    requires n in g.nodes
    ensures var limit := if g.nodes[n].maxRetries > 0 then g.nodes[n].maxRetries + 1 else 1;
            Tries(g, o, s, n) == k
            <==> (&& 1 <= k <= limit
                  && (forall c {:trigger o(c, n)} :: s.clock <= c < s.clock + k - 1 ==> o(c, n).status == NodeFailed)
                  && (o(s.clock + k - 1, n).status == NodeFailed ==> k == limit))
  {
    var t := Tries(g, o, s, n);
    if t < k {
      assert o(s.clock + t - 1, n).status == NodeFailed ==> t == MaxAttempts(g.nodes[n]);
    } else if 1 <= k < t {
      assert o(s.clock + k - 1, n).status == NodeFailed;
    }
  }

  /** The result that a dispatch of n in state s records: that of its last execution. */
  function ResultOf(g: Graph, o: Oracle, s: Run, n: NodeId): NodeResult
    requires n in g.nodes
  {
    o(s.clock + Tries(g, o, s, n) - 1, n).(attempts := Tries(g, o, s, n))
  }

  function Complete(g: Graph, s: Run, n: NodeId, r: NodeResult): Run
    requires n in g.nodes
  {
    s.(completed := s.completed + {n},
       branch := if g.nodes[n].kind == Conditional then s.branch[n := r.branch] else s.branch)
  }

  function Settle(g: Graph, s: Run, n: NodeId, r: NodeResult): Run
    requires n in g.nodes
  {
    match r.status
    case NodeWaiting => s.(status := WaitingApproval, pending := Some(n))
    case NodeCompleted => Complete(g, s, n, r)
    case NodeFailed =>
      match g.nodes[n].onFailure
      case Skip => s.(skipped := s.skipped + {n})
      case Continue => Complete(g, s, n, r)
      case Fail => s.(status := Failed, error := NodeError(n))
      case Retry => s.(status := Failed, error := NodeError(n))
  }

  /** Executes n, with retries, and files the outcome. */
  function Dispatch(g: Graph, o: Oracle, s: Run, n: NodeId): Run
    requires n in g.nodes
  {
    var r := ResultOf(g, o, s, n);
    Settle(g, s.(results := s.results[n := r],
                 clock := s.clock + Tries(g, o, s, n),
                 log := s.log + [Dispatched(n, s.Done())]), n, r)
  }

  /** Everything about a dispatch, in terms of the node's settings and answers. It asks the node k times, at
      most once more than its positive retries, until an answer is not a failure; it records the last answer
      with k, and files the node by that answer and its failure action. */
  lemma DispatchMeaning(g: Graph, o: Oracle, s: Run, n: NodeId)
    requires n in g.nodes
    ensures var t, node := Dispatch(g, o, s, n), g.nodes[n];
            var k, limit := t.clock - s.clock, if node.maxRetries > 0 then node.maxRetries + 1 else 1;
            && 1 <= k <= limit
            && (forall c {:trigger o(c, n)} :: s.clock <= c < t.clock - 1 ==> o(c, n).status == NodeFailed)
            && (o(t.clock - 1, n).status == NodeFailed ==> k == limit)
            && t.results == s.results[n := o(t.clock - 1, n).(attempts := k)]
            && t.log == s.log + [Dispatched(n, s.completed + s.skipped)]
    ensures var t, node := Dispatch(g, o, s, n), g.nodes[n];
            var answer := o(t.clock - 1, n);
            var forgiven := answer.status == NodeFailed && node.onFailure == Continue;
            var stopped := answer.status == NodeFailed && (node.onFailure == Fail || node.onFailure == Retry);
            && t.completed == s.completed + (if answer.status == NodeCompleted || forgiven then {n} else {})
            && t.skipped == s.skipped + (if answer.status == NodeFailed && node.onFailure == Skip then {n} else {})
            && t.branch == (if (answer.status == NodeCompleted || forgiven) && node.kind == Conditional
                            then s.branch[n := answer.branch] else s.branch)
            && t.status == (if answer.status == NodeWaiting then WaitingApproval
                            else if stopped then Failed else s.status)
            && t.pending == (if answer.status == NodeWaiting then Some(n) else s.pending)
            && t.error == (if stopped then NodeError(n) else s.error)
  {
    TriesMeaning(g, o, s, n, Tries(g, o, s, n));
    hide Tries;
  }

  /* ---- waves and the loop ---- */

  /** Dispatches a list of nodes, stopping when the run waits or fails. */
  function Wave(g: Graph, o: Oracle, s: Run, todo: seq<NodeId>): (r: Run)
    requires forall n :: n in todo ==> n in g.nodes
    ensures s.completed <= r.completed && s.skipped <= r.skipped
    ensures r.status == Running && todo != [] ==> todo[0] in r.Done()
    decreases |todo|
  {
    if todo == [] then s
    else
      var t := Dispatch(g, o, s, todo[0]);
      if t.status != Running then t else Wave(g, o, t, todo[1..])
  }

  function Undone(g: Graph, s: Run): set<NodeId> {
    set n | n in g.order && n !in s.Done()
  }

  /** Skipping changes nothing but the set of skipped nodes, which grows. */
  lemma {:induction false} SkipFromGrows(g: Graph, s: Run, i: nat)
    requires i <= |g.order|
    ensures s.skipped <= SkipFrom(g, s, i).skipped
    ensures SkipFrom(g, s, i) == s.(skipped := SkipFrom(g, s, i).skipped)
    decreases |g.order| - i
  {
    if i < |g.order| {
      SkipFromGrows(g, SkipOne(g, s, g.order[i]), i + 1);
    }
  }

  /** Ready nodes are registered and were undone before the pass. */
  lemma ReadyAreUndone(g: Graph, s: Run, ready: seq<NodeId>)
    requires g.WellFormed() && ready == Ready(g, SkipPass(g, s))
    ensures forall n :: n in ready ==> n in g.nodes && n in Undone(g, s)
    ensures s.skipped <= SkipPass(g, s).skipped
    ensures SkipPass(g, s) == s.(skipped := SkipPass(g, s).skipped)
  {
    SkipFromGrows(g, s, 0);
    assert forall n :: n in ready ==> n in Elems(g.order);
  }

  /** How the loop ends when nothing is ready. */
  function Conclude(g: Graph, s: Run): Run {
    if |s.completed| + |s.skipped| == |g.nodes| then s.(status := Completed)
    else s.(status := Failed, error := if s.error == NoError then Deadlock else s.error)
  }

  /** The scheduling loop. */
  function Loop(g: Graph, o: Oracle, s: Run): Run
    requires g.WellFormed()
    decreases Undone(g, s)
  {
    if s.status != Running then s
    else
      var t := SkipPass(g, s);
      var ready := Ready(g, t);
      if ready == [] then Conclude(g, t)
      else
        ReadyAreUndone(g, s, ready);
        var u := Wave(g, o, t, ready);
        if u.status != Running then u
        else
          assert ready[0] in Undone(g, s);
          Loop(g, o, u)
  }

  /* ---- the calls a client makes ---- */

  datatype Call = Resume | Rerun(node: NodeId)

  function Resumed(s: Run): Run {
    s.(status := Running, pending := None)
  }

  ghost function Downstream(g: Graph, n: NodeId): set<NodeId> {
    set m | m in g.nodes && m != n && Reaches(g.edges, n, m)
  }

  ghost function Reset(g: Graph, s: Run, n: NodeId): Run {
    var gone := {n} + Downstream(g, n);
    s.(completed := s.completed - gone,
       skipped := s.skipped - gone,
       results := s.results - gone,
       branch := s.branch - {n},
       status := Running, pending := None, error := NoError)
  }

  /** A call that the executor rejects leaves the run as it is. */
  ghost function Obey(g: Graph, o: Oracle, s: Run, c: Call): Run
    requires g.WellFormed()
  {
    match c
    case Resume => if s.status != WaitingApproval then s else Loop(g, o, Resumed(s))
    case Rerun(n) => if n !in g.nodes then s else Loop(g, o, Reset(g, s, n))
  }

  /** A run from its start through any sequence of calls. */
  ghost function Drive(g: Graph, o: Oracle, calls: seq<Call>): Run
    requires g.WellFormed()
  {
    if calls == [] then Loop(g, o, FRESH)
    else Obey(g, o, Drive(g, o, calls[..|calls| - 1]), calls[|calls| - 1])
  }
}
