/** The graph object: construction, validation, and topological ordering by in-degree counting. */
module WorkflowGraphs {
  import opened Sequences
  import opened Ordering
  import opened Graphs

  datatype Outcome<+T> = Ok(value: T) | Error(error: GraphError)

  datatype GraphError = DuplicateNode | UnknownNode | NoNodes | Cyclic | NoEntry | UnknownEntry | Unreachable

  /** Keeps from each node that the filter names only the edges of the named branch. */
  type BranchFilter = Option<map<NodeId, Option<string>>>

  predicate Kept(filter: BranchFilter, e: Edge) {
    filter.None? || e.src !in filter.value || filter.value[e.src].None? || e.MatchesBranch(filter.value[e.src])
  }

  function Keeper(filter: BranchFilter): Edge -> bool {
    e => Kept(filter, e)
  }

  function KeptEdges(filter: BranchFilter, edges: seq<Edge>): (r: seq<Edge>)
    ensures forall e :: e in r <==> e in edges && Kept(filter, e)
  {
    Filter(edges, Keeper(filter))
  }

  lemma KeptAppend(filter: BranchFilter, edges: seq<Edge>, e: Edge)
    ensures KeptEdges(filter, edges + [e]) ==
            if Kept(filter, e) then KeptEdges(filter, edges) + [e] else KeptEdges(filter, edges)
  {
    FilterAppend(edges, [e], Keeper(filter));
    assert Filter([e], Keeper(filter)) == (if Kept(filter, e) then [e] else []);
  }

  /* ---- counting edges ---- */

  function CountTo(es: seq<Edge>, n: NodeId): nat {
    if es == [] then 0 else CountTo(es[..|es| - 1], n) + (if es[|es| - 1].dst == n then 1 else 0)
  }

  function EdgesFrom(es: seq<Edge>, n: NodeId): seq<Edge> {
    if es == [] then [] else EdgesFrom(es[..|es| - 1], n) + (if es[|es| - 1].src == n then [es[|es| - 1]] else [])
  }

  /** Edges into n whose source is not in `gone`. */
  function CountLive(es: seq<Edge>, gone: set<NodeId>, n: NodeId): nat {
    if es == [] then 0
    else CountLive(es[..|es| - 1], gone, n)
         + (if es[|es| - 1].dst == n && es[|es| - 1].src !in gone then 1 else 0)
  }

  lemma {:induction false} CountLiveAll(es: seq<Edge>, n: NodeId)
    ensures CountLive(es, {}, n) == CountTo(es, n)
  {
    if es != [] { CountLiveAll(es[..|es| - 1], n); }
  }

  lemma {:induction false} CountToAppend(es: seq<Edge>, e: Edge, n: NodeId)
    ensures CountTo(es + [e], n) == CountTo(es, n) + (if e.dst == n then 1 else 0)
  {
    assert (es + [e])[..|es|] == es;
  }

  lemma {:induction false} CountLiveRetire(es: seq<Edge>, gone: set<NodeId>, c: NodeId, n: NodeId)
    requires c !in gone
    ensures CountLive(es, gone, n) == CountLive(es, gone + {c}, n) + CountTo(EdgesFrom(es, c), n)
  {
    if es != [] {
      var t := es[..|es| - 1];
      var e := es[|es| - 1];
      CountLiveRetire(t, gone, c, n);
      CountToAppend(EdgesFrom(t, c), e, n);
      assert EdgesFrom(es, c) == EdgesFrom(t, c) + (if e.src == c then [e] else []);
      assert e.src == c ==> EdgesFrom(es, c) == EdgesFrom(t, c) + [e];
      assert e.src != c ==> EdgesFrom(es, c) == EdgesFrom(t, c);
      assert e.src in gone + {c} <==> e.src in gone || e.src == c;
    }
  }

  lemma {:induction false} CountLiveZero(es: seq<Edge>, gone: set<NodeId>, n: NodeId)
    ensures CountLive(es, gone, n) == 0 <==> forall k :: 0 <= k < |es| && es[k].dst == n ==> es[k].src in gone
  {
    if es != [] {
      var t := es[..|es| - 1];
      CountLiveZero(t, gone, n);
      assert forall k :: 0 <= k < |t| ==> t[k] == es[k];
    }
  }

  lemma {:induction false} CountToPrefix(es: seq<Edge>, k: nat, n: NodeId)
    requires k <= |es|
    ensures CountTo(es[..k], n) <= CountTo(es, n)
    decreases |es|
  {
    if k < |es| {
      assert es[..|es| - 1][..k] == es[..k];
      CountToPrefix(es[..|es| - 1], k, n);
    } else {
      assert es[..k] == es;
    }
  }

  lemma {:induction false} EdgesFromMembers(es: seq<Edge>, n: NodeId)
    ensures forall e :: e in EdgesFrom(es, n) <==> e in es && e.src == n
  {
    if es != [] {
      EdgesFromMembers(es[..|es| - 1], n);
      assert es == es[..|es| - 1] + [es[|es| - 1]];
    }
  }

  /* ---- the counting loops ---- */

  ghost predicate Endpoints(nodes: set<NodeId>, edges: seq<Edge>) {
    forall k :: 0 <= k < |edges| ==> edges[k].src in nodes && edges[k].dst in nodes
  }

  /** What every counting run yields: what is ordered comes behind all its sources, a root is ordered
      when it is a start, and any other unordered node has an unordered source. */
  ghost predicate KahnResult(nodes: set<NodeId>, edges: seq<Edge>, starts: set<NodeId>, order: seq<NodeId>) {
    && NoDup(order)
    && Elems(order) <= nodes
    && SourcesFirst(edges, order)
    && (forall n :: n in nodes && !HasPred(edges, n) ==> (n in order <==> n in starts))
    && (forall n {:trigger HasPredIn(edges, nodes - Elems(order), n)} ::
          n in nodes && HasPred(edges, n) && n !in order ==> HasPredIn(edges, nodes - Elems(order), n))
  }

  /** The run orders every node exactly when there is no cycle and every root is a start. */
  lemma KahnComplete(nodes: set<NodeId>, edges: seq<Edge>, starts: set<NodeId>, order: seq<NodeId>)
    requires Endpoints(nodes, edges) && KahnResult(nodes, edges, starts, order)
    ensures |order| == |nodes| <==> Elems(order) == nodes
    ensures |order| == |nodes| <==>
            !HasCycle(edges) && forall n :: n in nodes && !HasPred(edges, n) ==> n in starts
  {
    NoDupCard(order);
    SubsetCard(Elems(order), nodes);
    if Elems(order) == nodes {
      forall p ensures !IsCycle(edges, p) {
        if |p| >= 2 && Linked(edges, p, 0) {
          assert p[0] in Elems(order);
          OrderedOffCycle(edges, order, p);
        }
      }
    } else if !HasCycle(edges) {
      var rest := nodes - Elems(order);
      assert Elems(order) + rest == nodes;
      var m := MinimalNode(edges, rest);
      assert !HasPredIn(edges, nodes - Elems(order), m);
    }
  }

  ghost predicate Tables(edges: seq<Edge>, incoming: map<NodeId, int>, outgoing: map<NodeId, seq<Edge>>) {
    && (forall n :: n in incoming ==> incoming[n] == CountTo(edges, n))
    && (forall n :: n in outgoing ==> outgoing[n] == EdgesFrom(edges, n))
  }

  lemma TablesAppend(es: seq<Edge>, e: Edge, incoming: map<NodeId, int>, outgoing: map<NodeId, seq<Edge>>)
    requires Tables(es, incoming, outgoing) && e.dst in incoming && e.src in outgoing
    ensures Tables(es + [e], incoming[e.dst := incoming[e.dst] + 1], outgoing[e.src := outgoing[e.src] + [e]])
  {
    assert (es + [e])[..|es|] == es;
  }

  /** In-degree table and adjacency lists over the edges that the filter keeps. */
  method BuildTables(nodes: seq<NodeId>, edges: seq<Edge>, filter: BranchFilter)
    returns (incoming: map<NodeId, int>, outgoing: map<NodeId, seq<Edge>>)
    requires Endpoints(Elems(nodes), edges)
    ensures incoming.Keys == outgoing.Keys == Elems(nodes)
    ensures Tables(KeptEdges(filter, edges), incoming, outgoing)
  {
    hide *;
    incoming := map n | n in nodes :: 0;
    outgoing := map n | n in nodes :: [];
    TablesStart(nodes, edges, filter, incoming, outgoing);
    for i := 0 to |edges|
      invariant incoming.Keys == outgoing.Keys == Elems(nodes)
      invariant Tables(KeptEdges(filter, edges[..i]), incoming, outgoing)
    {
      var edge := edges[i];
      TableStep(Elems(nodes), edges, filter, i, incoming, outgoing);
      if !Kept(filter, edge) {
        continue;
      }
      incoming := incoming[edge.dst := incoming[edge.dst] + 1];
      outgoing := outgoing[edge.src := outgoing[edge.src] + [edge]];
    }
  }

  lemma TablesStart(nodes: seq<NodeId>, edges: seq<Edge>, filter: BranchFilter,
                    incoming: map<NodeId, int>, outgoing: map<NodeId, seq<Edge>>)
    requires forall n :: n in nodes <==> n in incoming
    requires forall n :: n in nodes <==> n in outgoing
    requires forall n :: n in nodes ==> incoming[n] == 0 && outgoing[n] == []
    ensures Tables(KeptEdges(filter, edges[..0]), incoming, outgoing)
    ensures incoming.Keys == outgoing.Keys == Elems(nodes)
    ensures edges[..|edges|] == edges
  {
  }

  lemma TableStep(nodes: set<NodeId>, edges: seq<Edge>, filter: BranchFilter, i: nat,
                  incoming: map<NodeId, int>, outgoing: map<NodeId, seq<Edge>>)
    requires Endpoints(nodes, edges) && i < |edges| && incoming.Keys == outgoing.Keys == nodes
    requires Tables(KeptEdges(filter, edges[..i]), incoming, outgoing)
    ensures edges[i].dst in nodes && edges[i].src in nodes
    ensures Tables(KeptEdges(filter, edges[..i + 1]),
                   if Kept(filter, edges[i]) then incoming[edges[i].dst := incoming[edges[i].dst] + 1] else incoming,
                   if Kept(filter, edges[i]) then outgoing[edges[i].src := outgoing[edges[i].src] + [edges[i]]]
                   else outgoing)
  {
    assert edges[..i + 1] == edges[..i] + [edges[i]];
    KeptAppend(filter, edges[..i], edges[i]);
    if Kept(filter, edges[i]) {
      TablesAppend(KeptEdges(filter, edges[..i]), edges[i], incoming, outgoing);
    }
  }

  /** `seen` lists the ordered nodes and then the queued ones. */
  ghost predicate DrainInv(nodes: set<NodeId>, edges: seq<Edge>, starts: set<NodeId>,
                           incoming: map<NodeId, int>, seen: seq<NodeId>) {
    && NoDup(seen)
    && Elems(seen) <= nodes == incoming.Keys
    && (forall n :: n in seen ==> incoming[n] == 0)
    && (forall n :: n in nodes && incoming[n] == 0 && HasPred(edges, n) ==> n in seen)
    && (forall n :: n in nodes && !HasPred(edges, n) ==> (n in seen <==> n in starts))
  }

  /** Retires nodes from the front of the queue until none is left. */
  method Drain(ghost nodes: set<NodeId>, ghost edges: seq<Edge>, starts: seq<NodeId>,
               table: map<NodeId, int>, outgoing: map<NodeId, seq<Edge>>) returns (order: seq<NodeId>)
    requires Endpoints(nodes, edges) && table.Keys == outgoing.Keys == nodes && Tables(edges, table, outgoing)
    requires NoDup(starts) && Elems(starts) <= nodes && forall n :: n in starts ==> table[n] == 0
    ensures KahnResult(nodes, edges, Elems(starts), order)
    ensures starts <= order
  {
    var incoming := table;
    var queue := starts;
    order := [];
    hide DrainInv, SourcesFirst, KahnResult, CountLive, CountTo, EdgesFrom, Endpoints;
    assert order + queue == starts;
    DrainStart(nodes, edges, starts, incoming, outgoing);
    while queue != []
      invariant incoming.Keys == nodes && DrainInv(nodes, edges, Elems(starts), incoming, order + queue)
      invariant SourcesFirst(edges, order) && starts <= order + queue
      invariant forall n :: n in nodes ==> incoming[n] == CountLive(edges, Elems(order), n)
      decreases nodes - Elems(order)
    {
      var current := queue[0];
      ghost var before := Elems(order);
      FrontOfQueue(nodes, edges, Elems(starts), incoming, order, queue);
      order, queue := order + [current], queue[1..];
      incoming, queue := Retire(nodes, edges, Elems(starts), current, before, incoming, outgoing[current],
                                order, queue);
    }
    assert order + queue == order;
    Drained(nodes, edges, Elems(starts), incoming, order);
  }

  lemma DrainStart(nodes: set<NodeId>, edges: seq<Edge>, starts: seq<NodeId>, incoming: map<NodeId, int>,
                   outgoing: map<NodeId, seq<Edge>>)
    requires Endpoints(nodes, edges) && incoming.Keys == outgoing.Keys == nodes && Tables(edges, incoming, outgoing)
    requires NoDup(starts) && Elems(starts) <= nodes && forall n :: n in starts ==> incoming[n] == 0
    ensures DrainInv(nodes, edges, Elems(starts), incoming, starts)
    ensures SourcesFirst(edges, [])
    ensures forall n :: n in nodes ==> incoming[n] == CountLive(edges, Elems([]), n)
  {
    forall n | n in nodes ensures incoming[n] == 0 <==> !HasPred(edges, n) {
      CountLiveAll(edges, n);
      CountLiveZero(edges, {}, n);
    }
    forall n | n in nodes ensures incoming[n] == CountLive(edges, Elems([]), n) {
      assert Elems<NodeId>([]) == {};
      CountLiveAll(edges, n);
    }
  }

  lemma FrontOfQueue(nodes: set<NodeId>, edges: seq<Edge>, starts: set<NodeId>, incoming: map<NodeId, int>,
                     order: seq<NodeId>, queue: seq<NodeId>)
    requires queue != [] && DrainInv(nodes, edges, starts, incoming, order + queue)
    requires SourcesFirst(edges, order)
    requires forall n :: n in nodes ==> incoming[n] == CountLive(edges, Elems(order), n)
    ensures queue[0] in nodes && queue[0] !in order
    ensures SourcesFirst(edges, order + [queue[0]])
    ensures Elems(order + [queue[0]]) == Elems(order) + {queue[0]}
    ensures (order + [queue[0]]) + queue[1..] == order + queue
  {
    hide SourcesFirst, CountLive, HasPred;
    FrontIsNew(order, queue);
    assert queue[0] in Elems(order + queue) && queue[0] in order + queue;
    SourcesBehind(edges, order, queue[0]);
  }

  lemma FrontIsNew(order: seq<NodeId>, queue: seq<NodeId>)
    requires queue != [] && NoDup(order + queue)
    ensures queue[0] in order + queue && queue[0] !in order
    ensures Elems(order + [queue[0]]) == Elems(order) + {queue[0]}
    ensures (order + [queue[0]]) + queue[1..] == order + queue
  {
    var seen := order + queue;
    assert seen[|order|] == queue[0];
    forall i | 0 <= i < |order| ensures order[i] != queue[0] {
      assert seen[i] == order[i];
    }
  }

  lemma Drained(nodes: set<NodeId>, edges: seq<Edge>, starts: set<NodeId>, incoming: map<NodeId, int>,
                order: seq<NodeId>)
    requires DrainInv(nodes, edges, starts, incoming, order) && SourcesFirst(edges, order)
    requires Endpoints(nodes, edges)
    requires forall n :: n in nodes ==> incoming[n] == CountLive(edges, Elems(order), n)
    ensures KahnResult(nodes, edges, starts, order)
  {
    forall n | n in nodes && HasPred(edges, n) && n !in order
      ensures HasPredIn(edges, nodes - Elems(order), n)
    {
      CountLiveZero(edges, Elems(order), n);
      var k :| 0 <= k < |edges| && edges[k].dst == n && edges[k].src !in Elems(order);
      assert HasEdge(edges, edges[k].src, n);
    }
  }

  lemma SourcesBehind(edges: seq<Edge>, order: seq<NodeId>, n: NodeId)
    requires SourcesFirst(edges, order) && n !in order
    requires CountLive(edges, Elems(order), n) == 0
    ensures SourcesFirst(edges, order + [n])
  {
    CountLiveZero(edges, Elems(order), n);
    var all := order + [n];
    forall i, k | 0 <= i < |all| && 0 <= k < |edges| && edges[k].dst == all[i]
      ensures edges[k].src in all[..i]
    {
      assert all[..i] == order[..i];
    }
  }

  /** One retired node: its out-edges are taken off the table, and nodes that reach zero are queued. */
  method Retire(ghost nodes: set<NodeId>, ghost edges: seq<Edge>, ghost starts: set<NodeId>,
                ghost current: NodeId, ghost before: set<NodeId>, table: map<NodeId, int>, outs: seq<Edge>,
                ghost order: seq<NodeId>, waiting: seq<NodeId>)
    returns (incoming: map<NodeId, int>, queue: seq<NodeId>)
    requires Endpoints(nodes, edges) && current !in before
    requires outs == EdgesFrom(edges, current)
    requires DrainInv(nodes, edges, starts, table, order + waiting)
    requires forall n :: n in nodes ==> table[n] == CountLive(edges, before, n)
    ensures incoming.Keys == nodes && DrainInv(nodes, edges, starts, incoming, order + queue)
    ensures forall n :: n in nodes ==> incoming[n] == CountLive(edges, before + {current}, n)
    ensures waiting <= queue
  {
    hide *;
    incoming, queue := table, waiting;
    RetireStart(nodes, edges, starts, before, current, outs, table, order + waiting);
    for i := 0 to |outs|
      invariant DrainInv(nodes, edges, starts, incoming, order + queue)
      invariant PartlyRetired(nodes, edges, before + {current}, outs, i, incoming)
      invariant waiting <= queue
    {
      var next := outs[i].dst;
      RetireStep(nodes, edges, starts, before, current, outs, i, incoming, order, queue);
      incoming := incoming[next := incoming[next] - 1];
      if incoming[next] == 0 {
        queue := queue + [next];
      }
    }
    Retired(nodes, edges, before + {current}, outs, incoming);
  }

  /** The table while the first i edges of a retired node are off it. */
  ghost predicate PartlyRetired(nodes: set<NodeId>, edges: seq<Edge>, gone: set<NodeId>, outs: seq<Edge>, i: nat,
                                incoming: map<NodeId, int>)
    requires i <= |outs|
  {
    && incoming.Keys == nodes
    && forall n :: n in nodes ==> incoming[n] == CountLive(edges, gone, n) + CountTo(outs, n) - CountTo(outs[..i], n)
  }

  lemma RetireStart(nodes: set<NodeId>, edges: seq<Edge>, starts: set<NodeId>, before: set<NodeId>, current: NodeId,
                    outs: seq<Edge>, table: map<NodeId, int>, seen: seq<NodeId>)
    requires current !in before && outs == EdgesFrom(edges, current)
    requires DrainInv(nodes, edges, starts, table, seen)
    requires forall n :: n in nodes ==> table[n] == CountLive(edges, before, n)
    ensures PartlyRetired(nodes, edges, before + {current}, outs, 0, table)
  {
    forall n | n in nodes ensures table[n] == CountLive(edges, before + {current}, n) + CountTo(outs, n) {
      CountLiveRetire(edges, before, current, n);
    }
  }

  lemma Retired(nodes: set<NodeId>, edges: seq<Edge>, gone: set<NodeId>, outs: seq<Edge>, incoming: map<NodeId, int>)
    requires PartlyRetired(nodes, edges, gone, outs, |outs|, incoming)
    ensures incoming.Keys == nodes && forall n :: n in nodes ==> incoming[n] == CountLive(edges, gone, n)
  {
    assert outs[..|outs|] == outs;
  }

  lemma RetireStep(nodes: set<NodeId>, edges: seq<Edge>, starts: set<NodeId>, before: set<NodeId>, current: NodeId,
                   outs: seq<Edge>, i: nat, incoming: map<NodeId, int>, order: seq<NodeId>, queue: seq<NodeId>)
    requires Endpoints(nodes, edges) && outs == EdgesFrom(edges, current) && i < |outs|
    requires DrainInv(nodes, edges, starts, incoming, order + queue)
    requires PartlyRetired(nodes, edges, before + {current}, outs, i, incoming)
    ensures outs[i].dst in incoming
    ensures var table := incoming[outs[i].dst := incoming[outs[i].dst] - 1];
            && PartlyRetired(nodes, edges, before + {current}, outs, i + 1, table)
            && DrainInv(nodes, edges, starts, table,
                        order + (if table[outs[i].dst] == 0 then queue + [outs[i].dst] else queue))
  {
    TakeOneMore(edges, current, outs, i);
    Decrement(nodes, edges, starts, incoming, order + queue, outs[i].dst);
    assert order + (queue + [outs[i].dst]) == (order + queue) + [outs[i].dst];
  }

  lemma Decrement(nodes: set<NodeId>, edges: seq<Edge>, starts: set<NodeId>, incoming: map<NodeId, int>,
                  seen: seq<NodeId>, next: NodeId)
    requires DrainInv(nodes, edges, starts, incoming, seen)
    requires next in nodes && HasPred(edges, next) && incoming[next] > 0
    ensures DrainInv(nodes, edges, starts, incoming[next := incoming[next] - 1],
                     if incoming[next] == 1 then seen + [next] else seen)
  {
    assert next !in seen;
    NoDupAppend(seen, next);
  }

  lemma TakeOneMore(edges: seq<Edge>, current: NodeId, outs: seq<Edge>, i: nat)
    requires outs == EdgesFrom(edges, current) && i < |outs|
    ensures outs[i] in edges && HasPred(edges, outs[i].dst)
    ensures forall n :: CountTo(outs[..i + 1], n) == CountTo(outs[..i], n) + (if n == outs[i].dst then 1 else 0)
    ensures CountTo(outs[..i], outs[i].dst) < CountTo(outs, outs[i].dst)
  {
    EdgesFromMembers(edges, current);
    var k :| 0 <= k < |edges| && edges[k] == outs[i];
    assert outs[..i + 1] == outs[..i] + [outs[i]];
    forall n ensures CountTo(outs[..i + 1], n) == CountTo(outs[..i], n) + (if n == outs[i].dst then 1 else 0) {
      CountToAppend(outs[..i], outs[i], n);
    }
    CountToPrefix(outs, i + 1, outs[i].dst);
  }

  /** Why validation rejects a graph, if it does. */
  ghost function ValidationError(g: Graph): Option<GraphError> {
    if g.nodes == map[] then Some(NoNodes)
    else if HasCycle(g.edges) then Some(Cyclic)
    else if g.EntryGiven() && g.entry.value !in g.nodes then Some(UnknownEntry)
    else None
  }

  lemma RootExists(g: Graph)
    requires g.WellFormed() && g.nodes != map[] && !HasCycle(g.edges)
    ensures exists n :: n in g.nodes && !HasPred(g.edges, n)
  {
    var root := MinimalNode(g.edges, g.nodes.Keys);
    forall k | 0 <= k < |g.edges| ensures g.edges[k].dst != root {
      assert HasEdge(g.edges, g.edges[k].src, g.edges[k].dst);
    }
  }

  /** Where ordering starts: the given entry node, or every node without in-edges. */
  ghost function StartSet(g: Graph): set<NodeId> {
    if g.EntryGiven() then {g.entry.value} else set n | n in g.nodes && !HasPred(g.edges, n)
  }

  /** Every node that keeps no in-edge is a start. */
  ghost predicate ReachesAllRoots(g: Graph, filter: BranchFilter) {
    forall n :: n in g.nodes && !HasPred(KeptEdges(filter, g.edges), n) ==> n in StartSet(g)
  }

  /** The starts that keep no in-edge come first, in sorted order. */
  ghost predicate StartsWithRoots(g: Graph, filter: BranchFilter, order: seq<NodeId>) {
    exists k :: 0 <= k <= |order| && Sorted(order[..k], LexLeq)
                && forall n :: n in order[..k] <==> n in StartSet(g) && !HasPred(KeptEdges(filter, g.edges), n)
  }

  /** The filter drops an edge exactly if it names a branch for the source that is not the edge's condition, a
      plain edge included. */
  lemma KeptMeaning(filter: BranchFilter, e: Edge)
    ensures !Kept(filter, e)
       <==> filter != None && e.src in filter.value && filter.value[e.src] != None && e.condition != filter.value[e.src]
  {
  }

  /** A graph is valid exactly if it has a node, no cycle, and an entry node if it names one; the first of these
      that fails is reported. */
  lemma ValidationMeaning(g: Graph)
    ensures match ValidationError(g)
            case None => && |g.nodes| > 0 && !HasCycle(g.edges)
                         && (g.entry == None || g.entry.value == "" || g.entry.value in g.nodes)
            case Some(error) =>
              if |g.nodes| == 0 then error == NoNodes
              else if HasCycle(g.edges) then error == Cyclic
              else error == UnknownEntry && g.entry != None && g.entry.value != "" && g.entry.value !in g.nodes
  {
  }

  /** Which nodes ordering has to reach from the start: each one all of whose in-edges are dropped must be the
      entry node, if one is named, and else a node without in-edges. */
  lemma RootsMeaning(g: Graph, filter: BranchFilter)
    ensures ReachesAllRoots(g, filter)
       <==> forall n :: n in g.nodes && (forall e :: e in g.edges && e.dst == n ==> !Kept(filter, e)) ==>
              if g.entry != None && g.entry.value != "" then n == g.entry.value
              else forall e :: e in g.edges ==> e.dst != n
  {
    forall n
      ensures HasPred(KeptEdges(filter, g.edges), n) <==> exists e :: e in g.edges && e.dst == n && Kept(filter, e)
    {
      PredMeaning(KeptEdges(filter, g.edges), n);
    }
    forall n ensures HasPred(g.edges, n) <==> exists e :: e in g.edges && e.dst == n {
      PredMeaning(g.edges, n);
    }
  }

  lemma PredMeaning(edges: seq<Edge>, n: NodeId)
    ensures HasPred(edges, n) <==> exists e :: e in edges && e.dst == n
  {
    if e :| e in edges && e.dst == n {
      var k :| 0 <= k < |edges| && edges[k] == e;
    }
    if HasPred(edges, n) {
      var k :| 0 <= k < |edges| && edges[k].dst == n;
      assert edges[k] in edges;
    }
  }

  /** A permutation of the nodes in which every kept edge goes forward. */
  ghost predicate IsTopological(g: Graph, filter: BranchFilter, order: seq<NodeId>) {
    && NoDup(order)
    && Elems(order) == g.nodes.Keys
    && forall e, i, j :: e in g.edges && Kept(filter, e) && 0 <= i < |order| && 0 <= j < |order| ==>
         e.src == order[i] && e.dst == order[j] ==> i < j
  }

  lemma {:induction false} KeepAll(edges: seq<Edge>)
    ensures KeptEdges(None, edges) == edges
  {
    FilterTrue(edges, Keeper(None));
  }

  lemma {:induction false} FilterTrue(edges: seq<Edge>, keep: Edge -> bool)
    requires forall e :: keep(e)
    ensures Filter(edges, keep) == edges
  {
    if edges != [] { FilterTrue(edges[1..], keep); }
  }

  /** Dropping edges creates no cycle and no in-edge. */
  lemma KeptSubgraph(g: Graph, filter: BranchFilter)
    requires g.WellFormed()
    ensures Endpoints(g.nodes.Keys, g.edges) && Endpoints(g.nodes.Keys, KeptEdges(filter, g.edges))
    ensures HasCycle(KeptEdges(filter, g.edges)) ==> HasCycle(g.edges)
  {
    var kept := KeptEdges(filter, g.edges);
    assert forall k :: 0 <= k < |kept| ==> kept[k] in g.edges;
    forall p | IsCycle(kept, p) ensures IsCycle(g.edges, p) {
      forall i | 0 <= i < |p| - 1 ensures Linked(g.edges, p, i) {
        assert Linked(kept, p, i);
        var k :| 0 <= k < |kept| && kept[k].src == p[i] && kept[k].dst == p[i + 1];
        assert kept[k] in g.edges;
      }
    }
  }

  /** Behind-all-sources, read edge by edge. */
  lemma ForwardEdges(edges: seq<Edge>, order: seq<NodeId>, e: Edge, i: nat, j: nat)
    requires NoDup(order) && SourcesFirst(edges, order) && e in edges
    requires i < |order| && j < |order| && e.src == order[i] && e.dst == order[j]
    ensures i < j
  {
    var k :| 0 <= k < |edges| && edges[k] == e;
    assert e.src in order[..j];
  }

  /** With no filter and no entry id, every valid graph has an ordering. */
  lemma UnfilteredAlwaysOrders(g: Graph)
    requires g.WellFormed() && !g.EntryGiven()
    ensures ReachesAllRoots(g, None)
  {
    KeepAll(g.edges);
  }

  /** The starts that keep no in-edge, sorted. */
  method SortedRoots(ghost kept: seq<Edge>, incoming: map<NodeId, int>,
                     ghost outgoing: map<NodeId, seq<Edge>>, starts: seq<NodeId>) returns (roots: seq<NodeId>)
    requires Tables(kept, incoming, outgoing)
    requires NoDup(starts) && Elems(starts) <= incoming.Keys
    ensures NoDup(roots) && Sorted(roots, LexLeq)
    ensures forall n :: n in roots <==> n in starts && !HasPred(kept, n)
    ensures forall n :: n in roots ==> incoming[n] == 0
  {
    var zero := n => n in incoming && incoming[n] == 0;
    roots := Sort(Filter(starts, zero), LexLeq);
    FilterNoDup(starts, zero);
    SortNoDup(Filter(starts, zero), LexLeq);
    LexIsTotalPreorder();
    SortSorted(Filter(starts, zero), LexLeq);
    forall n | n in starts ensures n in roots <==> !HasPred(kept, n) {
      assert n in Elems(starts);
      CountLiveAll(kept, n);
      CountLiveZero(kept, {}, n);
    }
  }

  /** The counting run over the kept edges, read as a topological order. */
  lemma KahnOrders(g: Graph, filter: BranchFilter, roots: set<NodeId>, order: seq<NodeId>)
    requires g.WellFormed() && !HasCycle(g.edges)
    requires roots == set n | n in StartSet(g) && !HasPred(KeptEdges(filter, g.edges), n)
    requires KahnResult(g.nodes.Keys, KeptEdges(filter, g.edges), roots, order)
    ensures |order| == |g.nodes| <==> ReachesAllRoots(g, filter)
    ensures |order| == |g.nodes| ==> IsTopological(g, filter, order)
  {
    var kept := KeptEdges(filter, g.edges);
    KeptSubgraph(g, filter);
    KahnComplete(g.nodes.Keys, kept, roots, order);
    assert |g.nodes| == |g.nodes.Keys|;
    forall e, i: nat, j: nat | e in g.edges && Kept(filter, e) && i < |order| && j < |order|
                               && e.src == order[i] && e.dst == order[j]
      ensures i < j
    {
      ForwardEdges(kept, order, e, i, j);
    }
  }

  class WorkflowGraph {
    var order: seq<NodeId>
    var nodes: map<NodeId, Node>
    var edges: seq<Edge>
    const entry: Option<NodeId>

    ghost predicate Valid()
      reads this
    {
      View().WellFormed()
    }

    ghost function View(): Graph
      reads this
    {
      Graph(order, nodes, edges, entry)
    }

    constructor (entry: Option<NodeId>)
      ensures Valid() && View() == Graph([], map[], [], entry)
    {
      this.entry := entry;
      order, nodes, edges := [], map[], [];
    }

    method AddNode(id: NodeId, node: Node) returns (error: Option<GraphError>)
      requires Valid()
      modifies this
      ensures Valid()
      ensures error == if id in old(nodes) then Some(DuplicateNode) else None
      ensures View() == if id in old(nodes) then old(View())
                        else old(View()).(order := old(order) + [id], nodes := old(nodes)[id := node])
    {
      if id in nodes {
        return Some(DuplicateNode);
      }
      NoDupAppend(order, id);
      order, nodes := order + [id], nodes[id := node];
      error := None;
    }

    method AddEdge(src: NodeId, dst: NodeId, condition: Option<string>) returns (error: Option<GraphError>)
      requires Valid()
      modifies this
      ensures Valid()
      ensures error == if src in old(nodes) && dst in old(nodes) then None else Some(UnknownNode)
      ensures View() == if error.Some? then old(View())
                        else old(View()).(edges := old(edges) + [Edge(src, dst, condition)])
    {
      if src !in nodes || dst !in nodes {
        return Some(UnknownNode);
      }
      edges := edges + [Edge(src, dst, condition)];
      error := None;
    }

    /** The nodes without in-edges, in insertion order. */
    method EntryNodes() returns (entries: seq<NodeId>)
      requires Valid()
      ensures NoDup(entries)
      ensures forall n :: n in entries <==> n in nodes && !HasPred(edges, n)
    {
      var hasIncoming := set e | e in edges :: e.dst;
      entries := Filter(order, n => n !in hasIncoming);
      FilterNoDup(order, n => n !in hasIncoming);
      forall n ensures n in hasIncoming <==> HasPred(edges, n) {
        if n in hasIncoming {
          var e :| e in edges && e.dst == n;
          var k :| 0 <= k < |edges| && edges[k] == e;
        }
      }
      assert forall n :: n in order <==> n in Elems(order);
    }

    /** Fails exactly on a cycle; self-loops and parallel edges are counted like any other edge. */
    method AssertAcyclic() returns (error: Option<GraphError>)
      requires Valid()
      ensures error == if HasCycle(edges) then Some(Cyclic) else None
    {
      var incoming, outgoing := BuildTables(order, edges, None);
      KeepAll(edges);
      var starts := Filter(order, n => n in incoming && incoming[n] == 0);
      FilterNoDup(order, n => n in incoming && incoming[n] == 0);
      forall n | n in nodes ensures n in starts <==> !HasPred(edges, n) {
        CountLiveAll(edges, n);
        CountLiveZero(edges, {}, n);
        assert n in Elems(order);
      }
      var visited := Drain(nodes.Keys, edges, starts, incoming, outgoing);
      KahnComplete(nodes.Keys, edges, Elems(starts), visited);
      error := if |visited| != |nodes| then Some(Cyclic) else None;
    }

    /** Accepts exactly the non-empty acyclic graphs whose entry id, if given, is a node. The check for
        an entry node never fires: an acyclic non-empty graph has a root. */
    method Validate() returns (error: Option<GraphError>)
      requires Valid()
      ensures error == ValidationError(View())
    {
      if |nodes| == 0 {
        return Some(NoNodes);
      }
      error := AssertAcyclic();
      if error.Some? {
        return;
      }
      var entries := EntryNodes();
      RootExists(View());
      if entries == [] {
        return Some(NoEntry);
      }
      if entry.Some? && entry.value != "" && entry.value !in nodes {
        return Some(UnknownEntry);
      }
      error := None;
    }

    /** The given entry node, or else the entry nodes. */
    method StartNodes() returns (starts: seq<NodeId>)
      requires Valid() && ValidationError(View()).None?
      ensures NoDup(starts) && Elems(starts) <= nodes.Keys
      ensures forall n :: n in starts <==> n in StartSet(View())
    {
      starts := EntryNodes();
      if entry.Some? && entry.value != "" {
        starts := [entry.value];
      }
    }

    /** Kahn's algorithm from the start nodes, over the edges that the filter keeps. */
    method TopologicalOrder(filter: BranchFilter) returns (r: Outcome<seq<NodeId>>)
      requires Valid()
      ensures ValidationError(View()).Some? ==> r == Error(ValidationError(View()).value)
      ensures ValidationError(View()).None? ==>
                if ReachesAllRoots(View(), filter) then r.Ok? else r == Error(Unreachable)
      ensures r.Ok? ==> IsTopological(View(), filter, r.value) && StartsWithRoots(View(), filter, r.value)
    {
      hide *;
      var invalid := Validate();
      if invalid.Some? {
        return Error(invalid.value);
      }
      ghost var kept := KeptEdges(filter, edges);
      TableFacts(filter);
      var incoming, outgoing := BuildTables(order, edges, filter);
      var starts := StartNodes();
      var roots := SortedRoots(kept, incoming, outgoing, starts);
      SomeOfThem(roots, starts, nodes.Keys);
      var sorted := Drain(nodes.Keys, kept, roots, incoming, outgoing);
      OrderFacts(filter, starts, roots, sorted);
      if |sorted| != |nodes| {
        return Error(Unreachable);
      }
      return Ok(sorted);
    }

    lemma TableFacts(filter: BranchFilter)
      requires Valid()
      ensures Elems(order) == nodes.Keys
      ensures Endpoints(nodes.Keys, edges) && Endpoints(nodes.Keys, KeptEdges(filter, edges))
    {
      KeptSubgraph(View(), filter);
    }

    lemma OrderFacts(filter: BranchFilter, starts: seq<NodeId>, roots: seq<NodeId>, sorted: seq<NodeId>)
      requires Valid() && ValidationError(View()).None?
      requires forall n :: n in starts <==> n in StartSet(View())
      requires forall n :: n in roots <==> n in starts && !HasPred(KeptEdges(filter, edges), n)
      requires KahnResult(nodes.Keys, KeptEdges(filter, edges), Elems(roots), sorted)
      requires Sorted(roots, LexLeq) && roots <= sorted
      ensures |sorted| == |nodes| <==> ReachesAllRoots(View(), filter)
      ensures |sorted| == |nodes| ==> IsTopological(View(), filter, sorted)
      ensures StartsWithRoots(View(), filter, sorted)
    {
      KahnOrders(View(), filter, Elems(roots), sorted);
      assert sorted[..|roots|] == roots;
    }
  }

  lemma SomeOfThem(some: seq<NodeId>, all: seq<NodeId>, nodes: set<NodeId>)
    requires (forall n :: n in some ==> n in all) && Elems(all) <= nodes
    ensures Elems(some) <= nodes
  {
  }
}
