/** The executor object: the scheduling loop and its helpers, updating an active run in place. */
module Executors {
  import opened Sequences
  import opened Ordering
  import opened Graphs
  import opened Runs
  import opened WorkflowGraphs

  class ActiveRun {
    const graph: Graph
    var completed: set<NodeId>
    var skipped: set<NodeId>
    var branchByNode: map<NodeId, Option<string>>
    var nodeResults: map<NodeId, NodeResult>
    var status: RunStatus
    var pendingNodeId: Option<NodeId>
    var error: RunError
    var clock: nat
    ghost var log: seq<Dispatched>

    ghost function View(): Run
      reads this
    {
      Run(completed, skipped, branchByNode, nodeResults, status, pendingNodeId, error, clock, log)
    }

    constructor (graph: Graph)
      ensures this.graph == graph && View() == FRESH
    {
      this.graph := graph;
      completed, skipped, branchByNode, nodeResults := {}, {}, map[], map[];
      status, pendingNodeId, error, clock, log := Running, None, NoError, 0, [];
    }
  }

  type RunId = string

  datatype CallError = UnknownRun | NotWaiting | NoSuchNode

  class WorkflowExecutor {
    const execute: Oracle
    var runs: map<RunId, ActiveRun>

    constructor (execute: Oracle)
      ensures this.execute == execute && runs == map[]
    {
      this.execute, runs := execute, map[];
    }

    /** Only valid graphs ever get into the table of runs. */
    ghost predicate RunsValid()
      reads this
    {
      forall id :: id in runs ==> runs[id].graph.WellFormed()
    }

    /** The state of a run, or a blank one for an unknown id. */
    ghost function ViewOf(id: RunId): Run
      reads this, if id in runs then {runs[id]} else {}
    {
      if id in runs then runs[id].View() else FRESH
    }

    method Predecessors(graph: Graph, n: NodeId) returns (preds: seq<NodeId>)
      ensures Elems(preds) == Preds(graph, n)
    {
      preds := [];
      for i := 0 to |graph.edges|
        invariant Elems(preds) == PredsAmong(graph.edges[..i], n)
      {
        var edge := graph.edges[i];
        assert graph.edges[..i + 1] == graph.edges[..i] + [edge];
        PredsAppend(graph.edges[..i], edge, FRESH, n);
        if edge.dst == n {
          preds := preds + [edge.src];
        }
      }
      assert graph.edges[..|graph.edges|] == graph.edges;
    }

    method RequiredPredecessors(active: ActiveRun, n: NodeId) returns (required: set<NodeId>)
      ensures required == Required(active.graph, active.View(), n)
    {
      var edges := active.graph.edges;
      required := {};
      for i := 0 to |edges|
        invariant required == RequiredAmong(edges[..i], active.View(), n)
      {
        var edge := edges[i];
        assert edges[..i + 1] == edges[..i] + [edge];
        PredsAppend(edges[..i], edge, active.View(), n);
        if edge.dst != n {
          continue;
        }
        if edge.condition == None {
          required := required + {edge.src};
          continue;
        }
        var branch := if edge.src in active.branchByNode then active.branchByNode[edge.src] else None;
        if edge.MatchesBranch(branch) {
          required := required + {edge.src};
        }
      }
      assert edges[..|edges|] == edges;
    }

    method AutoSkipUnreachable(active: ActiveRun)
      modifies active
      ensures active.View() == SkipPass(active.graph, old(active.View()))
    {
      var order := active.graph.order;
      for i := 0 to |order|
        invariant SkipFrom(active.graph, active.View(), i) == SkipPass(active.graph, old(active.View()))
      {
        var n := order[i];
        assert SkipFrom(active.graph, active.View(), i)
            == SkipFrom(active.graph, SkipOne(active.graph, active.View(), n), i + 1);
        if n in active.completed || n in active.skipped {
          continue;
        }
        var preds := Predecessors(active.graph, n);
        assert preds == [] <==> Elems(preds) == {} by {
          assert preds != [] ==> preds[0] in Elems(preds);
        }
        if preds == [] {
          continue;
        }
        var required := RequiredPredecessors(active, n);
        if required != {} {
          continue;
        }
        assert (forall p :: p in preds ==> p in active.completed || p in active.skipped)
            <==> Elems(preds) <= active.View().Done() by {
          assert forall p :: p in preds <==> p in Elems(preds);
        }
        if forall p :: p in preds ==> p in active.completed || p in active.skipped {
          active.skipped := active.skipped + {n};
        }
      }
    }

    method ReadyNodes(active: ActiveRun) returns (ready: seq<NodeId>)
      ensures ready == Ready(active.graph, active.View())
    {
      var order := active.graph.order;
      var found: seq<NodeId> := [];
      ghost var test := ReadyTest(active.graph, active.View());
      for i := 0 to |order|
        invariant found == Filter(order[..i], test)
      {
        var n := order[i];
        assert order[..i + 1] == order[..i] + [n];
        FilterAppend(order[..i], [n], test);
        assert Filter([n], test) == if test(n) then [n] else [];
        if n in active.completed || n in active.skipped {
          continue;
        }
        if active.pendingNodeId == Some(n) {
          found := found + [n];
          continue;
        }
        var required := RequiredPredecessors(active, n);
        if required == {} {
          var preds := Predecessors(active.graph, n);
          assert preds == [] <==> Elems(preds) == {} by {
            assert preds != [] ==> preds[0] in Elems(preds);
          }
          if preds == [] {
            found := found + [n];
          }
          continue;
        }
        if required <= active.completed + active.skipped {
          found := found + [n];
        }
      }
      assert order[..|order|] == order;
      ready := Sort(found, LexLeq);
    }

    /** Executes a node until it does not fail, at most max(1, maxRetries + 1) times. */
    method ExecuteNodeWithRecovery(active: ActiveRun, n: NodeId) returns (last: NodeResult)
      requires n in active.graph.nodes
      modifies active`clock
      ensures last == ResultOf(active.graph, execute, old(active.View()), n)
      ensures active.clock == old(active.clock) + Tries(active.graph, execute, old(active.View()), n)
      ensures var node, k := active.graph.nodes[n], active.clock - old(active.clock);
              var limit := if node.maxRetries > 0 then node.maxRetries + 1 else 1;
              && 1 <= k <= limit
              && (forall c {:trigger execute(c, n)} :: old(active.clock) <= c < active.clock - 1 ==>
                    execute(c, n).status == NodeFailed)
              && last == execute(active.clock - 1, n).(attempts := k)
              && (last.status == NodeFailed ==> k == limit)
    {
      ghost var start := active.View();
      var attempts := 0;
      var node := active.graph.nodes[n];
      var maxAttempts := if node.maxRetries + 1 > 1 then node.maxRetries + 1 else 1;
      assert maxAttempts == MaxAttempts(node);
      assert Unsettled(active.graph, execute, start, n, 0);
      TriesMeaning(active.graph, execute, start, n, Tries(active.graph, execute, start, n));
      hide *;
      while attempts < maxAttempts
        invariant attempts < maxAttempts && active.clock == start.clock + attempts
        invariant Unsettled(active.graph, execute, start, n, attempts)
        decreases maxAttempts - attempts
      {
        AttemptStep(active.graph, execute, start, n, attempts);
        last := execute(active.clock, n);
        active.clock := active.clock + 1;
        attempts := attempts + 1;
        last := last.(attempts := attempts);
        if last.status != NodeFailed {
          return;
        }
        if attempts >= maxAttempts {
          return;
        }
      }
      assert false;
    }

    /** One node of a wave: executes it, records the result and files the outcome. */
    method DispatchNode(active: ActiveRun, n: NodeId)
      requires n in active.graph.nodes
      modifies active
      ensures active.View() == Dispatch(active.graph, execute, old(active.View()), n)
    {
      hide ResultOf, Tries;
      var node := active.graph.nodes[n];
      var result := ExecuteNodeWithRecovery(active, n);
      active.log := active.log + [Dispatched(n, active.View().Done())];
      active.nodeResults := active.nodeResults[n := result];
      assert Dispatch(active.graph, execute, old(active.View()), n) == Settle(active.graph, active.View(), n, result);
      if result.status == NodeWaiting {
        active.status := WaitingApproval;
        active.pendingNodeId := Some(n);
        return;
      }
      if result.status == NodeFailed {
        if node.onFailure == Skip {
          active.skipped := active.skipped + {n};
          return;
        }
        if node.onFailure == Continue {
          active.completed := active.completed + {n};
          if node.kind == Conditional {
            active.branchByNode := active.branchByNode[n := result.branch];
          }
          return;
        }
        active.status := Failed;
        active.error := NodeError(n);
        return;
      }
      active.completed := active.completed + {n};
      if node.kind == Conditional {
        active.branchByNode := active.branchByNode[n := result.branch];
      }
    }

    method ExecuteLoop(active: ActiveRun)
      requires active.graph.WellFormed()
      modifies active
      ensures active.View() == Loop(active.graph, execute, old(active.View()))
    {
      hide SkipPass, Ready, Dispatch;
      var graph := active.graph;
      while active.status == Running
        invariant Loop(graph, execute, active.View()) == Loop(graph, execute, old(active.View()))
        decreases Undone(graph, active.View()), active.status == Running
      {
        ghost var s := active.View();
        AutoSkipUnreachable(active);
        ghost var t := active.View();
        var ready := ReadyNodes(active);
        ReadyAreUndone(graph, s, ready);
        if ready == [] {
          if |active.completed| + |active.skipped| == |graph.nodes| {
            active.status := Completed;
          } else {
            active.status := Failed;
            active.error := if active.error == NoError then Deadlock else active.error;
          }
          break;
        }
        var progressed := false;
        for i := 0 to |ready|
          invariant active.status == Running && progressed == (i > 0)
          invariant Wave(graph, execute, active.View(), ready[i..]) == Wave(graph, execute, t, ready)
        {
          DispatchNode(active, ready[i]);
          assert ready[i..][1..] == ready[i + 1..];
          if active.status != Running {
            return;
          }
          progressed := true;
        }
        assert active.View() == Wave(graph, execute, t, ready);
        assert ready[0] in Undone(graph, s) && ready[0] !in Undone(graph, active.View());
        if !progressed {
          // "No progress in scheduling wave" cannot be reached.
          assert false;
        }
      }
      if active.status == Running {
        // Neither can the final correction of a run that is still marked as running.
        assert false;
      }
    }

    /** Starts a run and keeps it under its id, unless validation rejects the graph. */
    method StartRun(graph: WorkflowGraph, id: RunId) returns (r: Outcome<ActiveRun>)
      requires graph.Valid() && RunsValid()
      modifies this
      ensures RunsValid()
      ensures match ValidationError(graph.View())
              case Some(error) => r == Error(error) && runs == old(runs)
              case None => r.Ok? && fresh(r.value) && r.value.graph == graph.View()
                           && r.value.View() == Drive(graph.View(), execute, [])
                           && runs == old(runs)[id := r.value]
    {
      var invalid := graph.Validate();
      if invalid.Some? {
        return Error(invalid.value);
      }
      var active := new ActiveRun(Graph(graph.order, graph.nodes, graph.edges, graph.entry));
      runs := runs[id := active];
      ExecuteLoop(active);
      return Ok(active);
    }

    /** Refused for an unknown run, and unless the run is waiting for an approval. */
    method ResumeRun(id: RunId) returns (refusal: Option<CallError>)
      requires RunsValid()
      modifies if id in runs then {runs[id]} else {}
      ensures refusal == if id !in runs then Some(UnknownRun)
                         else if old(ViewOf(id)).status != WaitingApproval then Some(NotWaiting)
                         else None
      ensures id in runs ==>
                runs[id].View() == Obey(runs[id].graph, execute, old(ViewOf(id)), Resume)
    {
      if id !in runs {
        return Some(UnknownRun);
      }
      var active := runs[id];
      if active.status != WaitingApproval {
        return Some(NotWaiting);
      }
      active.status := Running;
      active.pendingNodeId := None;
      ExecuteLoop(active);
      return None;
    }

    /** Runs a node and everything downstream of it once more; refused for an unknown run or node. */
    method RerunStep(id: RunId, n: NodeId) returns (refusal: Option<CallError>)
      requires RunsValid()
      modifies if id in runs then {runs[id]} else {}
      ensures refusal == if id !in runs then Some(UnknownRun)
                         else if n !in runs[id].graph.nodes then Some(NoSuchNode)
                         else None
      ensures id in runs ==>
                runs[id].View() == Obey(runs[id].graph, execute, old(ViewOf(id)), Rerun(n))
    {
      hide Loop, Downstream;
      if id !in runs {
        return Some(UnknownRun);
      }
      var active := runs[id];
      if n !in active.graph.nodes {
        return Some(NoSuchNode);
      }
      var downstream := CollectDownstream(active.graph, n);
      var gone := {n} + downstream;
      active.completed := active.completed - gone;
      active.skipped := active.skipped - gone;
      active.nodeResults := active.nodeResults - gone;
      active.branchByNode := active.branchByNode - {n};
      active.status := Running;
      active.pendingNodeId := None;
      active.error := NoError;
      assert active.View() == Reset(active.graph, old(active.View()), n);
      ExecuteLoop(active);
      return None;
    }

    /** Breadth-first search: the nodes reachable from n along at least one edge, without n itself. */
    method CollectDownstream(graph: Graph, n: NodeId) returns (downstream: set<NodeId>)
      requires graph.WellFormed() && n in graph.nodes
      ensures downstream == Downstream(graph, n)
    {
      var visited: set<NodeId> := {};
      var queue := [n];
      while queue != []
        invariant SearchInv(graph, n, visited, queue)
        decreases graph.nodes.Keys - visited, |queue|
      {
        var current := queue[0];
        queue := queue[1..];
        ghost var before, rest := visited, queue;
        for i := 0 to |graph.edges|
          invariant before <= visited && (visited == before ==> queue == rest)
          invariant ScanInv(graph, n, visited, queue, current, i)
        {
          var edge := graph.edges[i];
          ScanStep(graph, n, visited, queue, current, i);
          if edge.src != current {
            continue;
          }
          if edge.dst in visited {
            continue;
          }
          visited := visited + {edge.dst};
          queue := queue + [edge.dst];
        }
      }
      SearchDone(graph, n, visited);
      downstream := visited - {n};
    }
  }

  /** After `made` failures the number of attempts is still open. */
  ghost predicate Unsettled(g: Graph, o: Oracle, s: Run, n: NodeId, made: nat)
    requires n in g.nodes && made < MaxAttempts(g.nodes[n])
  {
    var limit := MaxAttempts(g.nodes[n]);
    Attempts(o, n, s.clock, made, limit) == Attempts(o, n, s.clock, 0, limit)
  }

  /** One more attempt is the last one, or leaves the number of attempts to the rest of the loop. */
  lemma AttemptStep(g: Graph, o: Oracle, s: Run, n: NodeId, made: nat)
    requires n in g.nodes && made < MaxAttempts(g.nodes[n]) && Unsettled(g, o, s, n, made)
    ensures if o(s.clock + made, n).status != NodeFailed || made + 1 >= MaxAttempts(g.nodes[n])
            then Tries(g, o, s, n) == made + 1 && ResultOf(g, o, s, n) == o(s.clock + made, n).(attempts := made + 1)
            else Unsettled(g, o, s, n, made + 1)
  {
  }

  /** Everything visited is reachable; a visited node or n itself is queued or has all its targets visited. */
  ghost predicate SearchInv(g: Graph, n: NodeId, visited: set<NodeId>, queue: seq<NodeId>) {
    && visited <= g.nodes.Keys
    && (forall q :: q in queue ==> q in visited || q == n)
    && (forall m :: m in visited ==> Reaches(g.edges, n, m))
    && (forall e :: e in g.edges && (e.src in visited || e.src == n) && e.src !in queue ==> e.dst in visited)
  }

  /** The same while the edges of `current` are being scanned. */
  ghost predicate ScanInv(g: Graph, n: NodeId, visited: set<NodeId>, queue: seq<NodeId>, current: NodeId, i: nat)
    requires i <= |g.edges|
  {
    && visited <= g.nodes.Keys
    && (current in visited || current == n)
    && (forall q :: q in queue ==> q in visited || q == n)
    && (forall m :: m in visited ==> Reaches(g.edges, n, m))
    && (forall e :: e in g.edges && (e.src in visited || e.src == n) && e.src !in queue && e.src != current ==>
          e.dst in visited)
    && (forall e :: e in g.edges[..i] && e.src == current ==> e.dst in visited)
  }

  lemma ScanStep(g: Graph, n: NodeId, visited: set<NodeId>, queue: seq<NodeId>, current: NodeId, i: nat)
    requires g.WellFormed() && i < |g.edges| && ScanInv(g, n, visited, queue, current, i)
    ensures g.edges[i].src != current || g.edges[i].dst in visited ==> ScanInv(g, n, visited, queue, current, i + 1)
    ensures g.edges[i].src == current && g.edges[i].dst !in visited ==>
              ScanInv(g, n, visited + {g.edges[i].dst}, queue + [g.edges[i].dst], current, i + 1)
  {
    var e := g.edges[i];
    assert g.edges[..i + 1] == g.edges[..i] + [e];
    if e.src == current {
      assert HasEdge(g.edges, current, e.dst);
      if current == n {
        EdgeReaches(g.edges, n, e.dst);
      } else {
        ReachesExtend(g.edges, n, current, e.dst);
      }
    }
  }

  lemma {:induction false} PathVisited(g: Graph, n: NodeId, visited: set<NodeId>, p: seq<NodeId>)
    requires SearchInv(g, n, visited, [])
    requires |p| >= 2 && IsPath(g.edges, p) && p[0] == n
    ensures p[|p| - 1] in visited
    decreases |p|
  {
    var q := p[..|p| - 1];
    assert Linked(g.edges, p, |p| - 2);
    if |q| >= 2 {
      forall i | 0 <= i < |q| - 1 ensures Linked(g.edges, q, i) { assert Linked(g.edges, p, i); }
      PathVisited(g, n, visited, q);
    }
  }

  /** An exhausted search has visited exactly what is reachable. */
  lemma SearchDone(g: Graph, n: NodeId, visited: set<NodeId>)
    requires SearchInv(g, n, visited, [])
    ensures visited - {n} == Downstream(g, n)
  {
    forall m | Reaches(g.edges, n, m) ensures m in visited {
      var p :| Connects(g.edges, p, n, m);
      PathVisited(g, n, visited, p);
    }
  }
}
