/** The main results about workflow runs. */
module RunTheorems {
  import opened Sequences
  import opened Graphs
  import opened Runs
  import opened RunInvariant

  /* ---- every run keeps the invariant ---- */

  /** Through any sequence of resumes and reruns the invariant holds, and the loop always ends. */
  lemma {:induction false} InvDrive(g: Graph, o: Oracle, calls: seq<Call>)
    requires g.WellFormed()
    ensures Inv(g, Drive(g, o, calls)) && Drive(g, o, calls).status != Running
    ensures Drive(g, o, calls).status == Completed ==> Drive(g, o, calls).Done() == g.nodes.Keys
    decreases |calls|
  {
    if calls == [] {
      InvLoop(g, o, FRESH);
    } else {
      var s := Drive(g, o, calls[..|calls| - 1]);
      InvDrive(g, o, calls[..|calls| - 1]);
      var c := calls[|calls| - 1];
      InvObey(g, o, s, c);
      match c
      case Resume =>
        if s.status == WaitingApproval {
          OnlyProgressMatters(g, s, Resumed(s));
          InvLoop(g, o, Resumed(s));
        }
      case Rerun(n) =>
        if n in g.nodes {
          InvReset(g, s, n);
          InvLoop(g, o, Reset(g, s, n));
        }
    }
  }

  /* ---- which nodes run ---- */

  /** The declarative reading of the graph: a node takes part when it has no in-edge, a plain in-edge,
      or an in-edge whose condition is the branch recorded for its source. */
  ghost predicate Active(g: Graph, s: Run, n: NodeId) {
    || (forall e :: e in g.edges ==> e.dst != n)
    || (exists e :: e in g.edges && e.dst == n && e.condition.None?)
    || (exists e :: e in g.edges && e.dst == n && e.condition.Some? && s.BranchOf(e.src) == e.condition)
  }

  lemma ActiveMeaning(g: Graph, s: Run, n: NodeId)
    ensures Active(g, s, n) <==> Preds(g, n) == {} || Required(g, s, n) != {}
  {
    if Preds(g, n) == {} {
      forall e | e in g.edges ensures e.dst != n {
        assert e.dst == n ==> e.src in Preds(g, n);
      }
    } else if Required(g, s, n) != {} {
      var p :| p in Required(g, s, n);
      var e :| e in g.edges && e.dst == n && Counts(s, e) && e.src == p;
    } else {
      var p :| p in Preds(g, n);
      var e :| e in g.edges && e.dst == n && e.src == p;
      forall f | f in g.edges && f.dst == n ensures !Counts(s, f) {
        assert Counts(s, f) ==> f.src in Required(g, s, n);
      }
    }
  }

  /** Whatever the pauses, reruns and wave orders were, a completed run has executed exactly the active
      nodes and skipped the others. */
  lemma CompletedRunExecutedActiveNodes(g: Graph, o: Oracle, calls: seq<Call>)
    requires g.WellFormed()
    requires Drive(g, o, calls).status == Completed
    ensures var s := Drive(g, o, calls);
            && s.results.Keys == (set n | n in g.nodes && Active(g, s, n))
            && s.completed <= s.results.Keys
            && s.skipped >= g.nodes.Keys - s.results.Keys
  {
    InvDrive(g, o, calls);
    var s := Drive(g, o, calls);
    forall n | n in g.nodes ensures n in s.results <==> Active(g, s, n) {
      ActiveMeaning(g, s, n);
      assert n in s.Done();
    }
  }

  /* ---- runs without reruns ---- */

  ghost predicate OnlyResumes(calls: seq<Call>) {
    forall i :: 0 <= i < |calls| ==> calls[i] == Resume
  }

  /** Only completed nodes have a branch on record. */
  ghost predicate BranchesCurrent(s: Run) {
    s.branch.Keys <= s.completed
  }

  lemma {:induction false} WaveBranches(g: Graph, o: Oracle, s: Run, todo: seq<NodeId>)
    requires BranchesCurrent(s) && forall n :: n in todo ==> n in g.nodes
    ensures BranchesCurrent(Wave(g, o, s, todo))
    decreases |todo|
  {
    if todo != [] {
      var t := Dispatch(g, o, s, todo[0]);
      if t.status == Running { WaveBranches(g, o, t, todo[1..]); }
    }
  }

  lemma {:induction false} LoopBranches(g: Graph, o: Oracle, s: Run)
    requires g.WellFormed() && BranchesCurrent(s)
    ensures BranchesCurrent(Loop(g, o, s))
    decreases Undone(g, s)
  {
    hide Ready, Wave, SkipFrom;
    if s.status == Running {
      SkipFromGrows(g, s, 0);
      var t := SkipPass(g, s);
      if Ready(g, t) != [] {
        ReadyList(g, t);
        WaveBranches(g, o, t, Ready(g, t));
        if Wave(g, o, t, Ready(g, t)).status == Running {
          LoopDecreases(g, o, s);
          LoopBranches(g, o, Wave(g, o, t, Ready(g, t)));
        }
      }
    }
  }

  lemma {:induction false} ResumesKeepBranchesCurrent(g: Graph, o: Oracle, calls: seq<Call>)
    requires g.WellFormed() && OnlyResumes(calls)
    ensures BranchesCurrent(Drive(g, o, calls))
    decreases |calls|
  {
    if calls == [] {
      LoopBranches(g, o, FRESH);
    } else {
      var s := Drive(g, o, calls[..|calls| - 1]);
      ResumesKeepBranchesCurrent(g, o, calls[..|calls| - 1]);
      LoopBranches(g, o, Resumed(s));
    }
  }

  /** The nodes executed by both runs ended alike. */
  ghost predicate SameOutcomes(s: Run, t: Run) {
    forall n :: n in s.results && n in t.results ==>
      (n in s.completed <==> n in t.completed) && s.BranchOf(n) == t.BranchOf(n)
  }

  ghost predicate Finished(g: Graph, s: Run) {
    Inv(g, s) && s.status == Completed && s.Done() == g.nodes.Keys && BranchesCurrent(s)
  }

  lemma ExecutedIffActive(g: Graph, s: Run, n: NodeId)
    requires Finished(g, s) && n in g.nodes
    ensures n in s.results <==> Active(g, s, n)
  {
    ActiveMeaning(g, s, n);
    assert n in s.Done();
  }

  lemma SameBranch(s: Run, t: Run, p: NodeId)
    requires BranchesCurrent(s) && s.completed <= s.results.Keys
    requires BranchesCurrent(t) && t.completed <= t.results.Keys
    requires SameOutcomes(s, t) && (p in s.results <==> p in t.results)
    ensures s.BranchOf(p) == t.BranchOf(p)
  {
  }

  lemma ActiveByBranches(g: Graph, s: Run, t: Run, n: NodeId)
    requires forall e :: e in g.edges && e.dst == n ==> s.BranchOf(e.src) == t.BranchOf(e.src)
    ensures Active(g, s, n) <==> Active(g, t, n)
  {
  }

  lemma SameActivity(g: Graph, s: Run, t: Run, n: NodeId)
    requires g.WellFormed() && Finished(g, s) && Finished(g, t) && SameOutcomes(s, t) && n in g.nodes
    requires forall p :: p in g.nodes && HasEdge(g.edges, p, n) ==> (p in s.results <==> p in t.results)
    ensures n in s.results <==> n in t.results
  {
    hide Active, Justified, PassedOver, SameOutcomes;
    forall e | e in g.edges && e.dst == n ensures s.BranchOf(e.src) == t.BranchOf(e.src) {
      var k :| 0 <= k < |g.edges| && g.edges[k] == e;
      assert HasEdge(g.edges, e.src, n);
      SameBranch(s, t, e.src);
    }
    ActiveByBranches(g, s, t, n);
    ExecutedIffActive(g, s, n);
    ExecutedIffActive(g, t, n);
  }

  lemma SameExecuted(g: Graph, s: Run, t: Run)
    requires g.WellFormed() && !HasCycle(g.edges)
    requires Finished(g, s) && Finished(g, t) && SameOutcomes(s, t)
    ensures forall n :: n in g.nodes ==> (n in s.results <==> n in t.results)
  {
    hide HasCycle, HasEdge, Finished, SameOutcomes, Graph.WellFormed;
    var differ := set n | n in g.nodes && !(n in s.results <==> n in t.results);
    if differ != {} {
      var m := MinimalNode(g.edges, differ);
      SameActivity(g, s, t, m);
      assert false;
    }
    forall n | n in g.nodes ensures n in s.results <==> n in t.results {
      assert n !in differ;
    }
  }

  lemma SameSides(g: Graph, s: Run, t: Run, n: NodeId)
    requires Finished(g, s) && Finished(g, t) && SameOutcomes(s, t)
    requires forall m :: m in g.nodes ==> (m in s.results <==> m in t.results)
    ensures n in s.results <==> n in t.results
    ensures n in s.completed <==> n in t.completed
    ensures n in s.skipped <==> n in t.skipped
    ensures s.BranchOf(n) == t.BranchOf(n)
  {
    hide Justified, PassedOver;
    assert n in g.nodes <==> n in s.Done();
    assert n in g.nodes <==> n in t.Done();
  }

  /** Confluence: two completed runs whose common nodes ended alike executed the same nodes, with the
      same completions, skips and branches. */
  lemma Confluence(g: Graph, s: Run, t: Run)
    requires g.WellFormed() && !HasCycle(g.edges)
    requires Finished(g, s) && Finished(g, t) && SameOutcomes(s, t)
    ensures s.results.Keys == t.results.Keys
    ensures s.completed == t.completed && s.skipped == t.skipped
    ensures forall n :: s.BranchOf(n) == t.BranchOf(n)
  {
    hide *;
    SameExecuted(g, s, t);
    forall n
      ensures n in s.results <==> n in t.results
      ensures n in s.completed <==> n in t.completed
      ensures n in s.skipped <==> n in t.skipped
      ensures s.BranchOf(n) == t.BranchOf(n)
    {
      SameSides(g, s, t, n);
    }
  }

  /** In particular for runs of one graph under any two oracles, paused and resumed at will. */
  lemma PausesDoNotMatter(g: Graph, o1: Oracle, o2: Oracle, calls1: seq<Call>, calls2: seq<Call>)
    requires g.WellFormed() && !HasCycle(g.edges) && OnlyResumes(calls1) && OnlyResumes(calls2)
    requires Drive(g, o1, calls1).status == Completed && Drive(g, o2, calls2).status == Completed
    requires SameOutcomes(Drive(g, o1, calls1), Drive(g, o2, calls2))
    ensures Drive(g, o1, calls1).results.Keys == Drive(g, o2, calls2).results.Keys
    ensures Drive(g, o1, calls1).completed == Drive(g, o2, calls2).completed
    ensures Drive(g, o1, calls1).skipped == Drive(g, o2, calls2).skipped
  {
    InvDrive(g, o1, calls1);
    InvDrive(g, o2, calls2);
    ResumesKeepBranchesCurrent(g, o1, calls1);
    ResumesKeepBranchesCurrent(g, o2, calls2);
    Confluence(g, Drive(g, o1, calls1), Drive(g, o2, calls2));
  }

  /* ---- freedom from deadlock ---- */

  /** Every in-edge is a branch, and there is one. */
  ghost predicate OnlyBranches(g: Graph, n: NodeId) {
    Preds(g, n) != {} && forall e :: e in g.edges && e.dst == n ==> e.condition.Some?
  }

  /** Edges between nodes that can both be skipped automatically go forward in insertion order. */
  ghost predicate SkipOrdered(g: Graph) {
    forall e, i, j ::
      e in g.edges && 0 <= i < |g.order| && 0 <= j < |g.order| && g.order[i] == e.src && g.order[j] == e.dst ==>
      OnlyBranches(g, e.src) && OnlyBranches(g, e.dst) ==> i < j
  }

  ghost predicate InsertedInTopologicalOrder(g: Graph) {
    forall e, i, j ::
      e in g.edges && 0 <= i < |g.order| && 0 <= j < |g.order| && g.order[i] == e.src && g.order[j] == e.dst ==> i < j
  }

  lemma NothingRequired(g: Graph, s: Run, n: NodeId)
    requires Preds(g, n) != {} && Required(g, s, n) == {}
    ensures OnlyBranches(g, n)
  {
    forall e | e in g.edges && e.dst == n ensures e.condition.Some? {
      assert e.condition.None? ==> e.src in Required(g, s, n);
    }
  }

  lemma SkipKeepsRequired(g: Graph, s: Run, n: NodeId, m: NodeId)
    ensures Required(g, SkipOne(g, s, n), m) == Required(g, s, m)
  {
    forall e ensures Counts(SkipOne(g, s, n), e) <==> Counts(s, e) {}
  }

  /** The state in which the pass looks at the node at position j. */
  lemma {:induction false} Turn(g: Graph, s: Run, i: nat, j: nat) returns (at: Run)
    requires i <= j < |g.order|
    ensures SkipFrom(g, s, i) == SkipFrom(g, at, j)
    ensures at == s.(skipped := at.skipped) && s.skipped <= at.skipped
    ensures forall n :: Required(g, at, n) == Required(g, s, n)
    decreases j - i
  {
    if i == j {
      at := s;
    } else {
      at := Turn(g, SkipOne(g, s, g.order[i]), i + 1, j);
      forall n ensures Required(g, at, n) == Required(g, s, n) { SkipKeepsRequired(g, s, g.order[i], n); }
    }
  }

  /** Whoever is skipped in the rest of the pass has its turn there and was waiting for branches only. */
  lemma {:induction false} SkippedInPass(g: Graph, s: Run, i: nat, p: NodeId) returns (k: nat)
    requires i <= |g.order| && p !in s.skipped && p in SkipFrom(g, s, i).skipped
    ensures i <= k < |g.order| && g.order[k] == p && OnlyBranches(g, p)
    decreases |g.order| - i
  {
    var t := SkipOne(g, s, g.order[i]);
    if p in t.skipped {
      k := i;
      NothingRequired(g, s, p);
    } else {
      k := SkippedInPass(g, t, i + 1, p);
    }
  }

  lemma SourcesDone(g: Graph, s: Run, m: NodeId)
    requires g.WellFormed()
    requires forall p :: p in g.nodes.Keys - s.Done() ==> !HasEdge(g.edges, p, m)
    ensures Preds(g, m) <= s.Done()
  {
    forall p | p in Preds(g, m) ensures p in s.Done() {
      var e :| e in g.edges && e.dst == m && e.src == p;
      var k :| 0 <= k < |g.edges| && g.edges[k] == e;
      assert HasEdge(g.edges, p, m);
    }
  }

  lemma NotReady(g: Graph, s: Run, m: NodeId)
    requires g.WellFormed() && Ready(g, s) == [] && s.pending == None
    requires m in g.nodes && m !in s.Done() && Preds(g, m) <= s.Done()
    ensures Skippable(g, s, m)
  {
    RequiredArePreds(g, s, m);
    ReadyList(g, s);
    assert !IsReady(g, s, m);
  }

  /** In a stuck state a node with all sources done could still be skipped. */
  lemma StuckNode(g: Graph, s: Run) returns (m: NodeId)
    requires g.WellFormed() && !HasCycle(g.edges) && s.pending == None
    requires Ready(g, s) == [] && !(g.nodes.Keys <= s.Done())
    ensures m in g.nodes && Skippable(g, s, m)
  {
    hide HasCycle, HasEdge, Ready, Graph.WellFormed, Skippable, Preds;
    var left :| left in g.nodes.Keys && left !in s.Done();
    assert left in g.nodes.Keys - s.Done();
    m := MinimalNode(g.edges, g.nodes.Keys - s.Done());
    SourcesDone(g, s, m);
    NotReady(g, s, m);
  }

  lemma PassSkips(g: Graph, s: Run, m: NodeId)
    requires g.WellFormed() && m in g.nodes && Skippable(g, s, m)
    ensures m in SkipPass(g, s).skipped
  {
    assert m in Elems(g.order);
    var j :| 0 <= j < |g.order| && g.order[j] == m;
    var at := Turn(g, s, 0, j);
    SkipFromGrows(g, SkipOne(g, at, m), j + 1);
  }

  /** "Deadlock" is reported exactly when nothing is ready although another skipping pass would go on. */
  lemma DeadlockIsAnUnfinishedPass(g: Graph, s: Run)
    requires g.WellFormed() && !HasCycle(g.edges) && Inv(g, s) && s.status == Running
    requires Ready(g, SkipPass(g, s)) == []
    ensures Conclude(g, SkipPass(g, s)).error == Deadlock <==> SkipPass(g, SkipPass(g, s)) != SkipPass(g, s)
  {
    hide HasCycle, Ready, Graph.WellFormed, Skippable, SkipFrom;
    var t := SkipPass(g, s);
    PassKeeps(g, s);
    AllDone(g, t);
    if t.Done() == g.nodes.Keys {
      NothingToSkip(g, t);
    } else {
      var m := StuckNode(g, t);
      PassSkips(g, t, m);
      PassKeeps(g, t);
      SkippableIsUndone(g, t, m);
    }
  }

  lemma SkippableIsUndone(g: Graph, s: Run, m: NodeId)
    requires Skippable(g, s, m)
    ensures m !in s.skipped
  {
  }

  lemma NothingToSkip(g: Graph, s: Run)
    requires g.WellFormed() && Inv(g, s) && s.status == Running && s.Done() == g.nodes.Keys
    ensures SkipPass(g, s) == s
  {
    PassKeeps(g, s);
    assert SkipPass(g, s).skipped <= s.skipped;
  }

  /** In a graph whose skippable nodes are inserted sources-first, one pass skips all it can. */
  lemma NeverStuck(g: Graph, s: Run)
    requires g.WellFormed() && !HasCycle(g.edges) && SkipOrdered(g) && Inv(g, s) && s.status == Running
    requires Ready(g, SkipPass(g, s)) == []
    ensures SkipPass(g, s).Done() == g.nodes.Keys
  {
    var t := SkipPass(g, s);
    PassKeeps(g, s);
    if t.Done() != g.nodes.Keys {
      var m := StuckNode(g, t);
      var e, source, target := LateSource(g, s, m);
      assert false;
    }
  }

  /** A node left skippable by a pass has a source, waiting for branches only as it is itself, that was inserted
      behind it. */
  lemma LateSource(g: Graph, s: Run, m: NodeId) returns (e: Edge, source: nat, target: nat)
    requires g.WellFormed() && m in g.nodes && Skippable(g, SkipPass(g, s), m)
    ensures e in g.edges && e.dst == m && OnlyBranches(g, m) && OnlyBranches(g, e.src)
    ensures target < source < |g.order| && g.order[target] == m && g.order[source] == e.src
    ensures e.src in SkipPass(g, s).skipped && e.src !in s.Done()
  {
    assert m in Elems(g.order);
    target :| 0 <= target < |g.order| && g.order[target] == m;
    SkipFromGrows(g, s, 0);
    var at := Turn(g, s, 0, target);
    PassKeepsRequired(g, s, 0, m);
    NothingRequired(g, SkipPass(g, s), m);
    SkipFromGrows(g, SkipOne(g, at, m), target + 1);
    assert !Skippable(g, at, m);
    var p :| p in Preds(g, m) && p !in at.Done();
    e :| e in g.edges && e.dst == m && e.src == p;
    source := SkippedInPass(g, at, target + 1, p);
  }

  lemma {:induction false} PassKeepsRequired(g: Graph, s: Run, i: nat, n: NodeId)
    requires i <= |g.order|
    ensures Required(g, SkipFrom(g, s, i), n) == Required(g, s, n)
    decreases |g.order| - i
  {
    if i < |g.order| {
      SkipKeepsRequired(g, s, g.order[i], n);
      PassKeepsRequired(g, SkipOne(g, s, g.order[i]), i + 1, n);
    }
  }

  lemma {:induction false} WaveNoDeadlock(g: Graph, o: Oracle, s: Run, todo: seq<NodeId>)
    requires s.error == NoError && forall n :: n in todo ==> n in g.nodes
    ensures Wave(g, o, s, todo).error != Deadlock
    ensures Wave(g, o, s, todo).status == Running && s.status == Running ==> Wave(g, o, s, todo).error == NoError
    decreases |todo|
  {
    if todo != [] {
      var t := Dispatch(g, o, s, todo[0]);
      if t.status == Running { WaveNoDeadlock(g, o, t, todo[1..]); }
    }
  }

  lemma {:induction false} LoopNeverDeadlocks(g: Graph, o: Oracle, s: Run)
    requires g.WellFormed() && !HasCycle(g.edges) && SkipOrdered(g) && Inv(g, s) && s.status == Running
    ensures Loop(g, o, s).error != Deadlock
    decreases Undone(g, s)
  {
    hide Ready, Wave, SkipFrom, SkipOrdered, HasCycle, Graph.WellFormed, Inv;
    var t := SkipPass(g, s);
    PassKeeps(g, s);
    RunningIsClean(g, t);
    var ready := Ready(g, t);
    if ready == [] {
      NeverStuck(g, s);
      AllDone(g, t);
    } else {
      ReadyList(g, t);
      InvWave(g, o, t, ready);
      WaveNoDeadlock(g, o, t, ready);
      var u := Wave(g, o, t, ready);
      if u.status == Running {
        LoopDecreases(g, o, s);
        LoopNeverDeadlocks(g, o, u);
      }
    }
  }

  lemma RunningIsClean(g: Graph, s: Run)
    requires Inv(g, s) && s.status == Running
    ensures s.error == NoError && s.pending == None
  {
  }

  /** No run of such a graph ever ends in "Deadlock", whatever its nodes do and however often it is
      resumed or rerun. */
  lemma {:induction false} NoRunDeadlocks(g: Graph, o: Oracle, calls: seq<Call>)
    requires g.WellFormed() && !HasCycle(g.edges) && SkipOrdered(g)
    ensures Drive(g, o, calls).error != Deadlock
    decreases |calls|
  {
    if calls == [] {
      LoopNeverDeadlocks(g, o, FRESH);
    } else {
      var s := Drive(g, o, calls[..|calls| - 1]);
      NoRunDeadlocks(g, o, calls[..|calls| - 1]);
      InvDrive(g, o, calls[..|calls| - 1]);
      match calls[|calls| - 1]
      case Resume =>
        if s.status == WaitingApproval {
          OnlyProgressMatters(g, s, Resumed(s));
          LoopNeverDeadlocks(g, o, Resumed(s));
        }
      case Rerun(n) =>
        if n in g.nodes {
          InvReset(g, s, n);
          LoopNeverDeadlocks(g, o, Reset(g, s, n));
        }
    }
  }

  /** Sources-first insertion is enough, and it rules out cycles by itself. */
  lemma TopologicalInsertionIsSafe(g: Graph, o: Oracle, calls: seq<Call>)
    requires g.WellFormed() && InsertedInTopologicalOrder(g)
    ensures !HasCycle(g.edges)
    ensures Drive(g, o, calls).error != Deadlock
  {
    forall i, k | 0 <= i < |g.order| && 0 <= k < |g.edges| && g.edges[k].dst == g.order[i]
      ensures g.edges[k].src in g.order[..i]
    {
      assert g.edges[k] in g.edges && g.edges[k].src in Elems(g.order);
      var h :| 0 <= h < |g.order| && g.order[h] == g.edges[k].src;
      assert g.order[..i][h] == g.edges[k].src;
    }
    forall p ensures !IsCycle(g.edges, p) {
      if |p| >= 2 && Linked(g.edges, p, 0) {
        assert p[0] in Elems(g.order);
        OrderedOffCycle(g.edges, g.order, p);
      }
    }
    NoRunDeadlocks(g, o, calls);
  }
}
