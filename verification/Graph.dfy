/** Workflow graphs: declarative notions of path, cycle and reachability, and what they imply. */
module Graphs {
  import opened Sequences

  type NodeId = string

  /** An edge; without a condition it is a plain dependency, with one it is a branch of its source. */
  datatype Edge = Edge(src: NodeId, dst: NodeId, condition: Option<string>) {
    predicate MatchesBranch(branch: Option<string>) {
      if condition.None? then branch.None? else condition == branch
    }
  }

  datatype NodeKind = Agent | Tool | HumanApproval | Conditional

  datatype OnFailure = Fail | Retry | Skip | Continue

  datatype Node = Node(kind: NodeKind, maxRetries: int, onFailure: OnFailure)

  /** `order` is the insertion order of the node table. */
  datatype Graph = Graph(order: seq<NodeId>, nodes: map<NodeId, Node>, edges: seq<Edge>, entry: Option<NodeId>) {
    ghost predicate WellFormed() {
      && NoDup(order)
      && Elems(order) == nodes.Keys
      && forall k :: 0 <= k < |edges| ==> edges[k].src in nodes && edges[k].dst in nodes
    }

    /** An empty entry id counts as none. */
    predicate EntryGiven() {
      entry.Some? && entry.value != ""
    }
  }

  ghost predicate HasEdge(edges: seq<Edge>, a: NodeId, b: NodeId) {
    exists k :: 0 <= k < |edges| && edges[k].src == a && edges[k].dst == b
  }

  ghost predicate Linked(edges: seq<Edge>, p: seq<NodeId>, i: int) {
    0 <= i < |p| - 1 && HasEdge(edges, p[i], p[i + 1])
  }

  ghost predicate IsPath(edges: seq<Edge>, p: seq<NodeId>) {
    |p| >= 1 && forall i :: 0 <= i < |p| - 1 ==> Linked(edges, p, i)
  }

  ghost predicate IsCycle(edges: seq<Edge>, p: seq<NodeId>) {
    IsPath(edges, p) && |p| >= 2 && p[0] == p[|p| - 1]
  }

  /** Self-loops and parallel edges count. */
  ghost predicate HasCycle(edges: seq<Edge>) {
    exists p :: IsCycle(edges, p)
  }

  ghost predicate Connects(edges: seq<Edge>, p: seq<NodeId>, a: NodeId, b: NodeId) {
    IsPath(edges, p) && |p| >= 2 && p[0] == a && p[|p| - 1] == b
  }

  /** b can be reached from a along one edge or more. */
  ghost predicate Reaches(edges: seq<Edge>, a: NodeId, b: NodeId) {
    exists p :: Connects(edges, p, a, b)
  }

  ghost predicate HasPredIn(edges: seq<Edge>, s: set<NodeId>, n: NodeId) {
    exists m :: m in s && HasEdge(edges, m, n)
  }

  ghost predicate HasPred(edges: seq<Edge>, n: NodeId) {
    exists k :: 0 <= k < |edges| && edges[k].dst == n
  }

  /** order[i] is preceded in `order` by the sources of all its in-edges. */
  ghost predicate SourcesFirst(edges: seq<Edge>, order: seq<NodeId>) {
    forall i, k :: 0 <= i < |order| && 0 <= k < |edges| && edges[k].dst == order[i] ==> edges[k].src in order[..i]
  }

  lemma EdgeReaches(edges: seq<Edge>, a: NodeId, b: NodeId)
    requires HasEdge(edges, a, b)
    ensures Reaches(edges, a, b)
  {
    assert Linked(edges, [a, b], 0);
    assert Connects(edges, [a, b], a, b);
  }

  lemma ReachesExtend(edges: seq<Edge>, a: NodeId, b: NodeId, c: NodeId)
    requires Reaches(edges, a, b) && HasEdge(edges, b, c)
    ensures Reaches(edges, a, c)
  {
    var p :| Connects(edges, p, a, b);
    var q := p + [c];
    forall i | 0 <= i < |q| - 1 ensures Linked(edges, q, i) {
      assert i < |p| - 1 ==> Linked(edges, p, i);
    }
    assert Connects(edges, q, a, c);
  }

  /** Walking backwards inside a set in which every node has a predecessor. */
  lemma {:induction false} WalkBack(edges: seq<Edge>, s: set<NodeId>, start: NodeId, steps: nat)
    returns (p: seq<NodeId>)
    requires start in s
    requires forall n {:trigger HasPredIn(edges, s, n)} :: n in s ==> HasPredIn(edges, s, n)
    ensures |p| == steps + 1 && IsPath(edges, p)
    ensures forall i :: 0 <= i < |p| ==> p[i] in s
  {
    if steps == 0 {
      p := [start];
    } else {
      var q := WalkBack(edges, s, start, steps - 1);
      assert HasPredIn(edges, s, q[0]);
      var m :| m in s && HasEdge(edges, m, q[0]);
      p := [m] + q;
      forall i | 0 <= i < |p| - 1 ensures Linked(edges, p, i) {
        assert i > 0 ==> Linked(edges, q, i - 1);
      }
    }
  }

  /** A finite non-empty set in which every node has a predecessor contains a cycle. */
  lemma CycleInside(edges: seq<Edge>, s: set<NodeId>)
    requires s != {}
    requires forall n {:trigger HasPredIn(edges, s, n)} :: n in s ==> HasPredIn(edges, s, n)
    ensures HasCycle(edges)
  {
    var start :| start in s;
    var p := WalkBack(edges, s, start, |s|);
    var i, j := Pigeonhole(p, s);
    var c := p[i..j + 1];
    forall k | 0 <= k < |c| - 1 ensures Linked(edges, c, k) {
      assert Linked(edges, p, i + k);
    }
    assert IsCycle(edges, c);
  }

  /** Without a cycle every non-empty set of nodes has a member with no predecessor inside it. */
  lemma MinimalNode(edges: seq<Edge>, s: set<NodeId>) returns (n: NodeId)
    requires s != {} && !HasCycle(edges)
    ensures n in s && forall m :: m in s ==> !HasEdge(edges, m, n)
  {
    if forall n {:trigger HasPredIn(edges, s, n)} :: n in s ==> HasPredIn(edges, s, n) {
      CycleInside(edges, s);
      assert false;
    }
    n :| n in s && !HasPredIn(edges, s, n);
  }

  lemma {:induction false} PathGoesForward(edges: seq<Edge>, order: seq<NodeId>, p: seq<NodeId>, i: nat)
    returns (j: nat)
    requires SourcesFirst(edges, order) && IsPath(edges, p) && |p| >= 2
    requires i < |order| && order[i] == p[|p| - 1]
    ensures j < i && order[j] == p[0]
    decreases |p|
  {
    var q := p[..|p| - 1];
    assert Linked(edges, p, |p| - 2);
    var k :| 0 <= k < |edges| && edges[k].src == p[|p| - 2] && edges[k].dst == p[|p| - 1];
    assert edges[k].src in order[..i];
    var h :| 0 <= h < i && order[h] == edges[k].src;
    if |q| == 1 {
      j := h;
    } else {
      forall i | 0 <= i < |q| - 1 ensures Linked(edges, q, i) {
        assert Linked(edges, p, i);
      }
      j := PathGoesForward(edges, order, q, h);
    }
  }

  /** A node that is ordered behind all its sources lies on no cycle. */
  lemma OrderedOffCycle(edges: seq<Edge>, order: seq<NodeId>, p: seq<NodeId>)
    requires NoDup(order) && SourcesFirst(edges, order) && p != [] && p[0] in order
    ensures !IsCycle(edges, p)
  {
    if IsPath(edges, p) && |p| >= 2 && p[|p| - 1] in order {
      var i :| 0 <= i < |order| && order[i] == p[|p| - 1];
      var j := PathGoesForward(edges, order, p, i);
    }
  }
}
