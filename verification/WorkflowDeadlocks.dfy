/** When the insertion order of a graph does lead to "Deadlock". */
module RunDeadlocks {
  import opened Sequences
  import opened Graphs
  import opened Runs
  import opened RunInvariant
  import opened RunTheorems
  import opened RunLog
  import opened RunReruns

  /** An edge between nodes that can both be skipped automatically, inserted target first. */
  ghost predicate Backward(g: Graph, e: Edge, source: nat, target: nat) {
    && e in g.edges && OnlyBranches(g, e.src) && OnlyBranches(g, e.dst)
    && target < source < |g.order| && g.order[source] == e.src && g.order[target] == e.dst
  }

  /** Whatever lies downstream of a node has only branches coming in. */
  ghost predicate BranchesBelow(g: Graph, p: NodeId) {
    forall m :: m in Downstream(g, p) ==> OnlyBranches(g, m)
  }

  /** Every node completes without a branch. */
  function AllBlank(): Oracle {
    (c, n) => NodeResult(NodeCompleted, None, 0)
  }

  ghost predicate NoBranches(s: Run) {
    forall n :: s.BranchOf(n) == None
  }

  /* ---- the pass that comes too late ---- */

  /** Who has had its turn is not skipped any more. */
  lemma {:induction false} PastTurn(g: Graph, s: Run, i: nat, m: NodeId)
    requires i <= |g.order| && m !in g.order[i..] && m !in s.skipped
    ensures m !in SkipFrom(g, s, i).skipped
    decreases |g.order| - i
  {
    hide Skippable;
    if i < |g.order| {
      assert g.order[i] in g.order[i..];
      assert forall x :: x in g.order[i + 1..] ==> x in g.order[i..];
      PastTurn(g, SkipOne(g, s, g.order[i]), i + 1, m);
    }
  }

  /** The target of an edge is not skipped in a pass that comes to it before its undone source. */
  lemma {:induction false} TargetFirst(g: Graph, s: Run, i: nat, e: Edge, source: nat, target: nat)
    requires NoDup(g.order) && i <= target < source < |g.order|
    requires e in g.edges && g.order[source] == e.src && g.order[target] == e.dst
    requires e.src !in s.Done() && e.dst !in s.skipped
    ensures e.dst !in SkipFrom(g, s, i).skipped
    decreases target - i
  {
    assert e.src in Preds(g, e.dst);
    var t := SkipOne(g, s, g.order[i]);
    if i == target {
      assert t == s;
      assert e.dst !in g.order[i + 1..];
      PastTurn(g, t, i + 1, e.dst);
    } else {
      hide Skippable;
      TargetFirst(g, t, i + 1, e, source, target);
    }
  }

  /** Without branches and downstream of p nothing is required, so nothing there is ever ready. */
  lemma NothingReady(g: Graph, t: Run, p: NodeId)
    requires g.WellFormed() && OnlyBranches(g, p) && BranchesBelow(g, p)
    requires NoBranches(t) && t.pending == None && g.nodes.Keys <= t.Done() + {p} + Downstream(g, p)
    ensures Ready(g, t) == []
  {
    hide Downstream, OnlyBranches, NoBranches, Required, Preds, Ready;
    forall n | n in g.order ensures !IsReady(g, t, n) {
      assert n in Elems(g.order);
      if n !in t.Done() { NothingHolds(g, t, n); }
    }
    NoneReady(g, t);
  }

  lemma NothingHolds(g: Graph, t: Run, n: NodeId)
    requires OnlyBranches(g, n) && NoBranches(t)
    ensures Preds(g, n) != {} && Required(g, t, n) == {}
  {
  }

  /* ---- the run that deadlocks ---- */

  /** A first run with such nodes either deadlocks or completes everything, with no branch on record. */
  lemma BlankRun(g: Graph)
    requires g.WellFormed()
    ensures var s := Drive(g, AllBlank(), []);
            s.error == Deadlock || (AllSettled(g, s) && NoBranches(s))
  {
    var o := AllBlank();
    var s := Loop(g, o, FRESH);
    assert Drive(g, o, []) == s;
    FreshInv(g);
    LoopStop(g, o, FRESH);
    LoopTraces(g, o, FRESH);
    InvDrive(g, o, []);
    DriveKinds(g, o, []);
    BlankCalm(g);
    hide Loop, Calm, StopAnswered, Justified, PassedOver, Filed, StatusOk, OnlyConditional;
    CalmIsNotStopped(g, o, s);
    if s.error != Deadlock {
      ResumesKeepBranchesCurrent(g, o, []);
      forall n ensures s.BranchOf(n) == None { BlankBranch(g, s, n); }
    }
  }

  lemma BlankCalm(g: Graph)
    ensures Calm(g, AllBlank())
  {
  }

  lemma BlankBranch(g: Graph, s: Run, n: NodeId)
    requires Inv(g, s) && Traces(g, AllBlank(), FRESH, s) && BranchesCurrent(s) && OnlyConditional(g, s)
    ensures s.BranchOf(n) == None
  {
    if n in s.branch {
      assert Filed(g, s, n);
      assert Answered(AllBlank(), n, s.results[n]);
    }
  }

  /** A rerun of the source then skips it, but has passed its target already. */
  lemma BackwardRerun(g: Graph, s: Run, e: Edge, source: nat, target: nat)
    requires g.WellFormed() && AllSettled(g, s) && NoBranches(s)
    requires Backward(g, e, source, target) && BranchesBelow(g, e.src)
    ensures Obey(g, AllBlank(), s, Rerun(e.src)).error == Deadlock
  {
    var p, r := e.src, Reset(g, s, e.src);
    var t := SkipPass(g, r);
    assert s.Done() == g.nodes.Keys && Inv(g, s) && OnlyBranches(g, p);
    ResetFacts(g, s, e, source, target);
    TargetFirst(g, r, 0, e, source, target);
    InvReset(g, s, p);
    PassKeeps(g, r);
    PassBranches(g, r);
    LateIsLeft(g, r, t, e);
    hide *;
    NothingReady(g, t, p);
    AllDone(g, t);
    LoopConcludes(g, AllBlank(), r);
    RerunIsLoop(g, AllBlank(), s, p);
  }

  lemma RerunIsLoop(g: Graph, o: Oracle, s: Run, p: NodeId)
    requires g.WellFormed() && p in g.nodes
    ensures Obey(g, o, s, Rerun(p)) == Loop(g, o, Reset(g, s, p))
  {
  }

  lemma LateIsLeft(g: Graph, r: Run, t: Run, e: Edge)
    requires t == r.(skipped := t.skipped) && r.skipped <= t.skipped
    requires e.dst in g.nodes && e.dst !in r.Done() && e.dst !in t.skipped
    requires g.nodes.Keys == r.Done() + {e.src} + Downstream(g, e.src)
    ensures t.Done() != g.nodes.Keys && g.nodes.Keys <= t.Done() + {e.src} + Downstream(g, e.src)
    ensures t.pending == r.pending && t.error == r.error
  {
    hide Downstream;
  }

  lemma LoopConcludes(g: Graph, o: Oracle, r: Run)
    requires g.WellFormed() && r.status == Running && Ready(g, SkipPass(g, r)) == []
    requires SkipPass(g, r).error == NoError
    requires |SkipPass(g, r).completed| + |SkipPass(g, r).skipped| != |g.nodes|
    ensures Loop(g, o, r).error == Deadlock
  {
  }


  lemma PassBranches(g: Graph, r: Run)
    ensures NoBranches(r) ==> NoBranches(SkipPass(g, r))
  {
    SkipFromGrows(g, r, 0);
    if NoBranches(r) {
      forall n ensures SkipPass(g, r).BranchOf(n) == None { assert r.BranchOf(n) == None; }
    }
  }

  lemma ResetFacts(g: Graph, s: Run, e: Edge, source: nat, target: nat)
    requires g.WellFormed() && s.Done() == g.nodes.Keys && NoBranches(s) && Backward(g, e, source, target)
    ensures var r := Reset(g, s, e.src);
            && r.status == Running && r.error == NoError && r.pending == None && NoBranches(r)
            && e.src in g.nodes && e.dst in g.nodes && e.src !in r.Done() && e.dst !in r.Done()
            && g.nodes.Keys == r.Done() + {e.src} + Downstream(g, e.src)
  {
    EdgeIsThere(g, e);
    EdgeReaches(g.edges, e.src, e.dst);
    assert g.order[target] != g.order[source];
    assert g.order[target] in Elems(g.order);
    hide Reaches, OnlyBranches;
    assert e.dst in Downstream(g, e.src);
    forall n ensures Reset(g, s, e.src).BranchOf(n) == None { assert s.BranchOf(n) == None; }
  }

  /** A backward edge above branches only does lead to "Deadlock", in a first run or when its source is run again. */
  lemma BackwardEdgeDeadlocks(g: Graph, e: Edge, source: nat, target: nat)
    requires g.WellFormed() && Backward(g, e, source, target) && BranchesBelow(g, e.src)
    ensures Drive(g, AllBlank(), []).error == Deadlock || Drive(g, AllBlank(), [Rerun(e.src)]).error == Deadlock
  {
    BlankRun(g);
    var s := Drive(g, AllBlank(), []);
    if s.error != Deadlock {
      BackwardRerun(g, s, e, source, target);
      OneCall(g, AllBlank(), Rerun(e.src));
    }
  }

  lemma OneCall(g: Graph, o: Oracle, c: Call)
    requires g.WellFormed()
    ensures Drive(g, o, [c]) == Obey(g, o, Drive(g, o, []), c)
  {
    assert [c][..0] == [];
  }

  /** No behaviour of the nodes and no calls lead to "Deadlock". */
  ghost predicate DeadlockFree(g: Graph)
    requires g.WellFormed()
  {
    forall o, calls :: Drive(g, o, calls).error != Deadlock
  }

  /** Below nodes that have only branches coming in there are only such nodes. */
  ghost predicate BranchesBelowBranches(g: Graph) {
    forall p :: OnlyBranches(g, p) ==> BranchesBelow(g, p)
  }

  /** Exactly which insertion orders are safe, where plain edges never come below nodes that can be skipped. */
  lemma DeadlockFreeIff(g: Graph)
    requires g.WellFormed() && !HasCycle(g.edges)
    requires BranchesBelowBranches(g)
    ensures DeadlockFree(g) <==> SkipOrdered(g)
  {
    if SkipOrdered(g) {
      forall o, calls ensures Drive(g, o, calls).error != Deadlock { NoRunDeadlocks(g, o, calls); }
    } else {
      var e, source, target := BackwardEdge(g);
      hide *;
      assert BranchesBelow(g, e.src) by { BelowSource(g, e, source, target); }
      BackwardEdgeDeadlocks(g, e, source, target);
      NotFree(g, AllBlank(), [], [Rerun(e.src)]);
    }
  }

  lemma BelowSource(g: Graph, e: Edge, source: nat, target: nat)
    requires BranchesBelowBranches(g) && Backward(g, e, source, target)
    ensures BranchesBelow(g, e.src)
  {
  }

  lemma NotFree(g: Graph, o: Oracle, calls: seq<Call>, others: seq<Call>)
    requires g.WellFormed() && (Drive(g, o, calls).error == Deadlock || Drive(g, o, others).error == Deadlock)
    ensures !DeadlockFree(g)
  {
  }

  lemma BackwardEdge(g: Graph) returns (e: Edge, source: nat, target: nat)
    requires g.WellFormed() && !HasCycle(g.edges) && !SkipOrdered(g)
    ensures Backward(g, e, source, target)
  {
    hide OnlyBranches;
    var f, i, j :|
      f in g.edges && 0 <= i < |g.order| && 0 <= j < |g.order| && g.order[i] == f.src && g.order[j] == f.dst
      && OnlyBranches(g, f.src) && OnlyBranches(g, f.dst) && i >= j;
    e, source, target := f, i, j;
    NoLoop(g, e);
  }

  lemma NoLoop(g: Graph, e: Edge)
    requires !HasCycle(g.edges) && e in g.edges
    ensures e.src != e.dst
  {
    if e.src == e.dst {
      EdgeIsThere(g, e);
      assert Linked(g.edges, [e.src, e.dst], 0);
      assert IsCycle(g.edges, [e.src, e.dst]);
      assert false;
    }
  }
}
