/** Two graphs on which tempting claims about the executor fail. */
module RunExamples {
  import opened Sequences
  import opened Ordering
  import opened Graphs
  import opened Runs
  import opened RunInvariant

  const COND := Node(Conditional, 0, Fail)

  lemma SortOne(n: NodeId)
    ensures Sort([n], LexLeq) == [n]
  {
    assert Sort([n][1..], LexLeq) == [];
  }

  /** In a state in which exactly n is ready, the next wave is n alone. */
  lemma OnlyReady(g: Graph, s: Run, n: NodeId)
    requires |g.order| == 3 && NoDup(g.order) && n in g.order
    requires forall m :: m in g.order ==> (IsReady(g, s, m) <==> m == n)
    ensures Ready(g, s) == [n]
  {
    hide IsReady;
    var f := Filter(g.order, ReadyTest(g, s));
    FilterNoDup(g.order, ReadyTest(g, s));
    assert n in f;
    NoDupCard(f);
    assert Elems(f) == {n};
    SortOne(n);
  }

  lemma TwoEdges(e: Edge, f: Edge, s: Run, n: NodeId)
    ensures PredsAmong([e, f], n) == (if e.dst == n then {e.src} else {}) + (if f.dst == n then {f.src} else {})
    ensures RequiredAmong([e, f], s, n)
         == (if e.dst == n && Counts(s, e) then {e.src} else {}) + (if f.dst == n && Counts(s, f) then {f.src} else {})
  {
    assert [e, f] == ([] + [e]) + [f];
    PredsAppend([], e, s, n);
    PredsAppend([] + [e], f, s, n);
  }

  lemma ThreeTurns(g: Graph, s: Run)
    requires |g.order| == 3
    ensures SkipPass(g, s) == SkipOne(g, SkipOne(g, SkipOne(g, s, g.order[0]), g.order[1]), g.order[2])
  {
    var s1 := SkipOne(g, s, g.order[0]);
    var s2 := SkipOne(g, s1, g.order[1]);
    assert SkipFrom(g, s, 0) == SkipFrom(g, s1, 1);
    assert SkipFrom(g, s1, 1) == SkipFrom(g, s2, 2);
    assert SkipFrom(g, s2, 2) == SkipFrom(g, SkipOne(g, s2, g.order[2]), 3);
  }

  /** A two-edge chain a, b, c in which each condition must come out true to go on. */
  ghost predicate IsChain(g: Graph, a: NodeId, b: NodeId, c: NodeId) {
    && a != b && b != c && a != c
    && g.nodes == map[a := COND, b := COND, c := COND]
    && g.edges == [Edge(a, b, Some("true")), Edge(b, c, Some("true"))]
    && |g.order| == 3 && NoDup(g.order) && Elems(g.order) == {a, b, c}
  }

  lemma ChainFacts(g: Graph, a: NodeId, b: NodeId, c: NodeId, s: Run)
    requires IsChain(g, a, b, c) && s.pending == None
    ensures g.WellFormed()
    ensures forall n :: n in g.order <==> n == a || n == b || n == c
    ensures IsReady(g, s, a) <==> a !in s.Done()
    ensures IsReady(g, s, b) <==> b !in s.Done() && s.BranchOf(a) == Some("true") && a in s.Done()
    ensures IsReady(g, s, c) <==> c !in s.Done() && s.BranchOf(b) == Some("true") && b in s.Done()
    ensures !Skippable(g, s, a)
    ensures Skippable(g, s, b) <==> b !in s.Done() && s.BranchOf(a) != Some("true") && a in s.Done()
    ensures Skippable(g, s, c) <==> c !in s.Done() && s.BranchOf(b) != Some("true") && b in s.Done()
  {
    var e, f := Edge(a, b, Some("true")), Edge(b, c, Some("true"));
    TwoEdges(e, f, s, a);
    TwoEdges(e, f, s, b);
    TwoEdges(e, f, s, c);
    forall n ensures n in g.order <==> n == a || n == b || n == c {
      assert n in g.order <==> n in Elems(g.order);
    }
  }

  /** Dispatching a conditional node whose first execution completes. */
  lemma OneTry(g: Graph, o: Oracle, s: Run, n: NodeId)
    requires n in g.nodes && g.nodes[n] == COND && o(s.clock, n).status == NodeCompleted
    ensures Dispatch(g, o, s, n) == s.(
              completed := s.completed + {n},
              branch := s.branch[n := o(s.clock, n).branch],
              results := s.results[n := o(s.clock, n).(attempts := 1)],
              clock := s.clock + 1,
              log := s.log + [Dispatched(n, s.Done())])
  {
    assert Tries(g, o, s, n) == 1;
  }

  /** A loop iteration whose wave is one conditional node that completes at once. */
  lemma OneNodeWave(g: Graph, o: Oracle, s: Run, n: NodeId)
    requires g.WellFormed() && s.status == Running && Ready(g, SkipPass(g, s)) == [n] && n in g.nodes
    requires g.nodes[n] == COND && o(s.clock, n).status == NodeCompleted
    ensures Loop(g, o, s) == Loop(g, o, Dispatch(g, o, SkipPass(g, s), n))
  {
    hide Ready;
    SkipFromGrows(g, s, 0);
    var t := SkipPass(g, s);
    OneTry(g, o, t, n);
    assert [n][1..] == [];
    assert Wave(g, o, t, [n]) == Dispatch(g, o, t, n);
  }

  /** The state after a conditional node has completed with a branch. */
  ghost function After(s: Run, n: NodeId, branch: string): Run {
    s.(completed := s.completed + {n},
       branch := s.branch[n := Some(branch)],
       results := s.results[n := NodeResult(NodeCompleted, Some(branch), 1)],
       clock := s.clock + 1,
       log := s.log + [Dispatched(n, s.Done())])
  }

  ghost predicate Answers(o: Oracle, clock: nat, branch: string) {
    forall n :: o(clock, n) == NodeResult(NodeCompleted, Some(branch), 1)
  }

  /** One iteration of a chain: the pass leads to t, where n alone is ready. */
  lemma ChainStep(g: Graph, o: Oracle, s: Run, t: Run, n: NodeId, branch: string)
    requires g.WellFormed() && |g.order| == 3 && n in g.nodes && g.nodes[n] == COND
    requires s.status == Running && SkipPass(g, s) == t && Answers(o, t.clock, branch)
    requires forall m :: m in g.order ==> (IsReady(g, t, m) <==> m == n)
    ensures Loop(g, o, s) == Loop(g, o, After(t, n, branch))
  {
    hide *;
    OrderFacts(g, n);
    PassFields(g, s);
    OnlyReady(g, t, n);
    AfterIsDispatch(g, o, t, n, branch);
    OneNodeWave(g, o, s, n);
  }

  lemma OrderFacts(g: Graph, n: NodeId)
    requires g.WellFormed() && n in g.nodes
    ensures NoDup(g.order) && n in g.order
  {
    assert n in Elems(g.order);
  }

  lemma PassFields(g: Graph, s: Run)
    ensures SkipPass(g, s).clock == s.clock
  {
    SkipFromGrows(g, s, 0);
  }

  lemma AfterIsDispatch(g: Graph, o: Oracle, s: Run, n: NodeId, branch: string)
    requires n in g.nodes && g.nodes[n] == COND && Answers(o, s.clock, branch)
    ensures Dispatch(g, o, s, n) == After(s, n, branch)
    ensures o(s.clock, n).status == NodeCompleted
  {
    OneTry(g, o, s, n);
  }

  /** The last iteration: the pass leads to t, where nothing is ready. */
  lemma ChainEnd(g: Graph, o: Oracle, s: Run, t: Run)
    requires g.WellFormed() && s.status == Running && SkipPass(g, s) == t
    requires forall m :: m in g.order ==> !IsReady(g, t, m)
    ensures Loop(g, o, s) == Conclude(g, t)
  {
    NoneReady(g, t);
  }

  /** A pass that skips nothing. */
  lemma QuietPass(g: Graph, a: NodeId, b: NodeId, c: NodeId, s: Run)
    requires IsChain(g, a, b, c) && s.pending == None
    requires !Skippable(g, s, b) && !Skippable(g, s, c)
    ensures SkipPass(g, s) == s
  {
    ChainFacts(g, a, b, c, s);
    ThreeTurns(g, s);
    assert g.order[0] in g.order && g.order[1] in g.order && g.order[2] in g.order;
  }

  /* ---- insertion order matters ---- */

  /** C leads to A when true, and A leads to B; inserted as B, A, C. */
  const BACKWARDS := Graph(["B", "A", "C"], map["C" := COND, "A" := COND, "B" := COND],
                           [Edge("C", "A", Some("true")), Edge("A", "B", Some("true"))], None)

  /** Every condition comes out false. */
  const ALL_FALSE: Oracle := (k: nat, n: NodeId) => NodeResult(NodeCompleted, Some("false"), 1)

  lemma BackwardsIsChain()
    ensures IsChain(BACKWARDS, "C", "A", "B")
  {
    var order := BACKWARDS.order;
    assert order[0] == "B" && order[1] == "A" && order[2] == "C";
    assert "A"[0] == 'A' && "B"[0] == 'B' && "C"[0] == 'C';
  }

  /** The pass that skips A has looked at B already. */
  lemma BackwardsPass(s: Run)
    requires s.pending == None && s.Done() == {"C"} && s.BranchOf("C") == Some("false") && s.branch.Keys == {"C"}
    ensures SkipPass(BACKWARDS, s) == s.(skipped := s.skipped + {"A"})
  {
    BackwardsIsChain();
    ThreeTurns(BACKWARDS, s);
    ChainFacts(BACKWARDS, "C", "A", "B", s);
    ChainFacts(BACKWARDS, "C", "A", "B", s.(skipped := s.skipped + {"A"}));
  }

  /** The acyclic graph above deadlocks when C comes out false. */
  lemma BackwardsDeadlocks()
    ensures BACKWARDS.WellFormed() && !HasCycle(BACKWARDS.edges)
    ensures Drive(BACKWARDS, ALL_FALSE, []).status == Failed && Drive(BACKWARDS, ALL_FALSE, []).error == Deadlock
  {
    var g, o := BACKWARDS, ALL_FALSE;
    BackwardsAcyclic();
    hide IsChain, IsReady, Skippable, SkipFrom, Ready, Loop, Graph.WellFormed, HasCycle;
    BackwardsIsChain();
    ChainFacts(g, "C", "A", "B", FRESH);
    QuietPass(g, "C", "A", "B", FRESH);
    ChainStep(g, o, FRESH, FRESH, "C", "false");
    var s := After(FRESH, "C", "false");
    assert s.Done() == {"C"};
    BackwardsPass(s);
    var t := s.(skipped := s.skipped + {"A"});
    ChainFacts(g, "C", "A", "B", t);
    ChainEnd(g, o, s, t);
    assert t.completed == {"C"} && t.skipped == {"A"};
    assert g.nodes.Keys == {"C", "A", "B"} && |g.nodes| == |g.nodes.Keys|;
  }

  lemma BackwardsAcyclic()
    ensures !HasCycle(BACKWARDS.edges)
  {
    var order := ["C", "A", "B"];
    var es := BACKWARDS.edges;
    assert order[..1] == ["C"] && order[..2] == ["C", "A"];
    assert SourcesFirst(es, order);
    forall p ensures !IsCycle(es, p) {
      if |p| >= 2 && Linked(es, p, 0) {
        assert p[0] in order by {
          assert order[0] == "C" && order[1] == "A";
        }
        OrderedOffCycle(es, order, p);
      }
    }
  }

  /* ---- reruns see stale branches ---- */

  /** C leads to X when true, and X leads to Y when true. */
  const CHAIN := Graph(["C", "X", "Y"], map["C" := COND, "X" := COND, "Y" := COND],
                       [Edge("C", "X", Some("true")), Edge("X", "Y", Some("true"))], None)

  /** Conditions come out true in the first three executions and false later on. */
  const TURNING: Oracle :=
    (k: nat, n: NodeId) => NodeResult(NodeCompleted, Some(if k < 3 then "true" else "false"), 1)

  lemma ChainIsChain()
    ensures IsChain(CHAIN, "C", "X", "Y")
  {
    var order := CHAIN.order;
    assert order[0] == "C" && order[1] == "X" && order[2] == "Y";
    assert "C"[0] == 'C' && "X"[0] == 'X' && "Y"[0] == 'Y';
  }

  /** First run: every condition true, every node executed. */
  lemma ChainFirstRun()
    ensures CHAIN.WellFormed()
    ensures var s := Drive(CHAIN, TURNING, []);
            && s.completed == {"C", "X", "Y"} && s.skipped == {} && s.clock == 3 && s.status == Completed
            && s.branch == map["C" := Some("true"), "X" := Some("true"), "Y" := Some("true")]
  {
    hide IsChain, IsReady, Skippable, SkipFrom, Ready, Loop, Graph.WellFormed;
    ChainIsChain();
    var s0, s1 := FRESH, After(FRESH, "C", "true");
    var s2 := After(s1, "X", "true");
    var s3 := After(s2, "Y", "true");
    ChainFacts(CHAIN, "C", "X", "Y", s0);
    QuietPass(CHAIN, "C", "X", "Y", s0);
    ChainStep(CHAIN, TURNING, s0, s0, "C", "true");
    ChainFacts(CHAIN, "C", "X", "Y", s1);
    QuietPass(CHAIN, "C", "X", "Y", s1);
    ChainStep(CHAIN, TURNING, s1, s1, "X", "true");
    ChainFacts(CHAIN, "C", "X", "Y", s2);
    QuietPass(CHAIN, "C", "X", "Y", s2);
    ChainStep(CHAIN, TURNING, s2, s2, "Y", "true");
    ChainFacts(CHAIN, "C", "X", "Y", s3);
    QuietPass(CHAIN, "C", "X", "Y", s3);
    ChainEnd(CHAIN, TURNING, s3, s3);
    assert s3.completed == {"C", "X", "Y"};
    assert CHAIN.nodes.Keys == {"C", "X", "Y"} && |CHAIN.nodes| == |CHAIN.nodes.Keys|;
  }

  lemma ChainDownstream()
    ensures Downstream(CHAIN, "C") == {"X", "Y"}
  {
    var es := CHAIN.edges;
    assert es[0].src == "C" && es[0].dst == "X";
    assert es[1].src == "X" && es[1].dst == "Y";
    EdgeReaches(es, "C", "X");
    ReachesExtend(es, "C", "X", "Y");
    assert "X" in CHAIN.nodes && "Y" in CHAIN.nodes;
  }

  /** X has been skipped and Y is undone. */
  lemma SkipMiddle(s: Run)
    requires s.pending == None && s.Done() == {"C"} && s.BranchOf("C") == Some("false")
    ensures SkipPass(CHAIN, s) ==
            if s.BranchOf("X") == Some("true") then s.(skipped := s.skipped + {"X"})
            else s.(skipped := s.skipped + {"X", "Y"})
  {
    ChainIsChain();
    ThreeTurns(CHAIN, s);
    ChainFacts(CHAIN, "C", "X", "Y", s);
    var t := s.(skipped := s.skipped + {"X"});
    ChainFacts(CHAIN, "C", "X", "Y", t);
    assert s.skipped + {"X"} + {"Y"} == s.skipped + {"X", "Y"};
  }

  /** Rerunning C, which now comes out false, skips X but executes Y again on X's old branch ... */
  lemma RerunOfChain()
    requires CHAIN.WellFormed()
    ensures var s := Drive(CHAIN, TURNING, [Rerun("C")]);
            && s.status == Completed && s.completed == {"C", "Y"} && s.skipped == {"X"}
            && s.BranchOf("C") == Some("false")
  {
    hide IsChain, IsReady, Skippable, SkipFrom, Ready, Loop, Graph.WellFormed, Downstream;
    ChainFirstRun();
    ChainDownstream();
    var calls := [Rerun("C")];
    assert calls[..|calls| - 1] == [];
    var s0 := Reset(CHAIN, Drive(CHAIN, TURNING, []), "C");
    assert Drive(CHAIN, TURNING, calls) == Loop(CHAIN, TURNING, s0);
    assert s0.Done() == {} && s0.BranchOf("C") == None && s0.BranchOf("X") == Some("true") && s0.clock == 3;
    RerunOfChainFrom(s0);
  }

  lemma RerunOfChainFrom(s0: Run)
    requires CHAIN.WellFormed() && s0.status == Running && s0.pending == None && s0.clock == 3
    requires s0.Done() == {} && s0.BranchOf("C") == None && s0.BranchOf("X") == Some("true")
    ensures var s := Loop(CHAIN, TURNING, s0);
            && s.status == Completed && s.completed == {"C", "Y"} && s.skipped == {"X"}
            && s.BranchOf("C") == Some("false")
  {
    hide IsChain, IsReady, Skippable, SkipFrom, Ready, Loop, Graph.WellFormed;
    ChainIsChain();
    ChainFacts(CHAIN, "C", "X", "Y", s0);
    QuietPass(CHAIN, "C", "X", "Y", s0);
    ChainStep(CHAIN, TURNING, s0, s0, "C", "false");
    var s1 := After(s0, "C", "false");
    assert s1.Done() == {"C"};
    SkipMiddle(s1);
    var s2 := s1.(skipped := s1.skipped + {"X"});
    ChainFacts(CHAIN, "C", "X", "Y", s2);
    ChainStep(CHAIN, TURNING, s1, s2, "Y", "false");
    var s3 := After(s2, "Y", "false");
    ChainFacts(CHAIN, "C", "X", "Y", s3);
    QuietPass(CHAIN, "C", "X", "Y", s3);
    ChainEnd(CHAIN, TURNING, s3, s3);
    assert s3.completed == {"C", "Y"} && s3.skipped == {"X"};
    assert CHAIN.nodes.Keys == {"C", "X", "Y"} && |CHAIN.nodes| == |CHAIN.nodes.Keys|;
  }

  /** ... whereas a fresh run with a false C skips both. */
  lemma FalseChain()
    requires CHAIN.WellFormed()
    ensures var s := Drive(CHAIN, ALL_FALSE, []);
            && s.status == Completed && s.completed == {"C"} && s.skipped == {"X", "Y"}
            && s.BranchOf("C") == Some("false")
  {
    hide IsChain, IsReady, Skippable, SkipFrom, Ready, Loop, Graph.WellFormed;
    ChainIsChain();
    ChainFacts(CHAIN, "C", "X", "Y", FRESH);
    QuietPass(CHAIN, "C", "X", "Y", FRESH);
    ChainStep(CHAIN, ALL_FALSE, FRESH, FRESH, "C", "false");
    var s := After(FRESH, "C", "false");
    assert s.Done() == {"C"};
    SkipMiddle(s);
    var t := s.(skipped := s.skipped + {"X", "Y"});
    ChainFacts(CHAIN, "C", "X", "Y", t);
    ChainEnd(CHAIN, ALL_FALSE, s, t);
    assert t.completed == {"C"} && t.skipped == {"X", "Y"};
    assert CHAIN.nodes.Keys == {"C", "X", "Y"} && |CHAIN.nodes| == |CHAIN.nodes.Keys|;
  }

  /** So a rerun is not a fresh run with the new outcomes. */
  lemma RerunIsNotAFreshRun()
    ensures CHAIN.WellFormed()
    ensures var s, t := Drive(CHAIN, TURNING, [Rerun("C")]), Drive(CHAIN, ALL_FALSE, []);
            && s.status == Completed && t.status == Completed
            && s.BranchOf("C") == t.BranchOf("C") == Some("false")
            && "Y" in s.completed && "Y" in t.skipped
  {
    ChainFirstRun();
    RerunOfChain();
    FalseChain();
  }
}
