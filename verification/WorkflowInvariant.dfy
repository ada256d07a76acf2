/** What every scheduling step keeps, and the invariant of whole runs. */
module RunInvariant {
  import opened Sequences
  import opened Ordering
  import opened Graphs
  import opened Runs

  /** A node that was dispatched: nothing that holds it back is undone, and something let it run. */
  ghost predicate Justified(g: Graph, s: Run, n: NodeId) {
    (Preds(g, n) == {} || Required(g, s, n) != {}) && Required(g, s, n) <= s.Done()
  }

  /** A node that was skipped automatically: all its sources are done and none has taken its branch. */
  ghost predicate PassedOver(g: Graph, s: Run, n: NodeId) {
    Preds(g, n) != {} && Required(g, s, n) == {} && Preds(g, n) <= s.Done()
  }

  ghost predicate Inv(g: Graph, s: Run) {
    && s.completed !! s.skipped
    && s.Done() <= g.nodes.Keys
    && s.completed <= s.results.Keys <= g.nodes.Keys
    && (forall n :: n in s.results ==> Justified(g, s, n))
    && (forall n :: n in s.skipped && n !in s.results ==> PassedOver(g, s, n))
    && (forall n :: n in s.results ==> Filed(g, s, n))
    && StatusOk(g, s)
  }

  /** A node is on the side where its last result belongs, and a completed conditional node has the branch
      of that result on record. */
  ghost predicate Filed(g: Graph, s: Run, n: NodeId)
    requires n in s.results && n in g.nodes
  {
    var r, node := s.results[n], g.nodes[n];
    && (n in s.completed ==> r.status == NodeCompleted || (r.status == NodeFailed && node.onFailure == Continue))
    && (n in s.skipped ==> r.status == NodeFailed && node.onFailure == Skip)
    && (n in s.completed && node.kind == Conditional ==> n in s.branch && s.branch[n] == r.branch)
  }

  /** A waiting run waits for a node that asked for it; a failed one names a node that failed for good. */
  ghost predicate StatusOk(g: Graph, s: Run) {
    match s.status
    case Running => s.pending == None && s.error == NoError
    case Completed => s.error == NoError
    case WaitingApproval =>
      && s.error == NoError && s.pending.Some? && s.pending.value !in s.Done()
      && s.pending.value in s.results && s.results[s.pending.value].status == NodeWaiting
    case Failed =>
      match s.error
      case NoError => false
      case Deadlock => true
      case NodeError(n) =>
        && n in s.results && s.results[n].status == NodeFailed && n !in s.Done()
        && n in g.nodes && (g.nodes[n].onFailure == Fail || g.nodes[n].onFailure == Retry)
  }

  /** Between s and t at most n became done, and no branch but that of n, now done, changed. */
  ghost predicate Advances(s: Run, t: Run, n: NodeId) {
    && n !in s.Done()
    && s.Done() <= t.Done() <= s.Done() + {n}
    && (forall p :: p != n ==> t.BranchOf(p) == s.BranchOf(p))
    && (n !in t.Done() ==> t.BranchOf(n) == s.BranchOf(n))
  }

  lemma RequiredKept(g: Graph, s: Run, t: Run, n: NodeId, m: NodeId)
    requires Advances(s, t, n) && Required(g, s, m) <= s.Done()
    ensures Required(g, s, m) <= Required(g, t, m) <= t.Done()
  {
    forall p | p in Required(g, s, m) ensures p in Required(g, t, m) {
      var e :| e in g.edges && e.dst == m && Counts(s, e) && e.src == p;
      assert Counts(t, e);
    }
    forall p | p in Required(g, t, m) ensures p in t.Done() {
      var e :| e in g.edges && e.dst == m && Counts(t, e) && e.src == p;
      if Counts(s, e) {
        assert p in Required(g, s, m);
      } else {
        assert p == n;
      }
    }
  }

  lemma RequiredSettled(g: Graph, s: Run, t: Run, n: NodeId, m: NodeId)
    requires Advances(s, t, n) && Preds(g, m) <= s.Done()
    ensures Required(g, t, m) == Required(g, s, m)
  {
    forall e | e in g.edges && e.dst == m ensures Counts(s, e) <==> Counts(t, e) {
      assert e.src in Preds(g, m);
    }
  }

  lemma RequiredArePreds(g: Graph, s: Run, n: NodeId)
    ensures Required(g, s, n) <= Preds(g, n)
  {
    forall p | p in Required(g, s, n) ensures p in Preds(g, n) {
      var e :| e in g.edges && e.dst == n && Counts(s, e) && e.src == p;
    }
  }

  /** Justifications and passings-over survive every step. */
  lemma FactsKept(g: Graph, s: Run, t: Run, n: NodeId)
    requires Advances(s, t, n)
    ensures forall m :: Justified(g, s, m) ==> Justified(g, t, m)
    ensures forall m :: PassedOver(g, s, m) ==> PassedOver(g, t, m)
  {
    forall m | Justified(g, s, m) ensures Justified(g, t, m) { RequiredKept(g, s, t, n, m); }
    forall m | PassedOver(g, s, m) ensures PassedOver(g, t, m) { RequiredSettled(g, s, t, n, m); }
  }

  lemma InvSkipOne(g: Graph, s: Run, n: NodeId)
    requires Inv(g, s) && s.status == Running && n in g.nodes
    ensures Inv(g, SkipOne(g, s, n)) && SkipOne(g, s, n).status == Running
  {
    var t := SkipOne(g, s, n);
    if Skippable(g, s, n) {
      assert Advances(s, t, n);
      FactsKept(g, s, t, n);
      RequiredSettled(g, s, t, n, n);
    }
  }

  lemma {:induction false} InvSkipFrom(g: Graph, s: Run, i: nat)
    requires g.WellFormed() && Inv(g, s) && s.status == Running && i <= |g.order|
    ensures Inv(g, SkipFrom(g, s, i))
    decreases |g.order| - i
  {
    hide Inv, SkipOne;
    if i < |g.order| {
      assert g.order[i] in Elems(g.order);
      InvSkipOne(g, s, g.order[i]);
      InvSkipFrom(g, SkipOne(g, s, g.order[i]), i + 1);
    }
  }

  lemma DispatchAdvances(g: Graph, o: Oracle, s: Run, n: NodeId)
    requires n in g.nodes && n !in s.Done()
    ensures Advances(s, Dispatch(g, o, s, n), n)
  {
  }

  lemma InvDispatch(g: Graph, o: Oracle, s: Run, n: NodeId)
    requires Inv(g, s) && s.status == Running && n in g.nodes && IsReady(g, s, n)
    ensures Inv(g, Dispatch(g, o, s, n))
  {
    assert s.pending == None;
    hide Justified, PassedOver, Advances, IsReady, Filed, StatusOk, Dispatch, Inv;
    ReadyJustified(g, s, n);
    DispatchAdvances(g, o, s, n);
    DispatchSides(g, o, s, n);
    DispatchFiled(g, o, s, n);
    InvAdvances(g, s, Dispatch(g, o, s, n), n);
  }

  lemma InvAdvances(g: Graph, s: Run, t: Run, n: NodeId)
    requires Inv(g, s) && n in g.nodes && Advances(s, t, n) && Justified(g, s, n)
    requires Sides(s, t, n) && StatusOk(g, t)
    requires forall m :: m in t.results ==> m in g.nodes && Filed(g, t, m)
    ensures Inv(g, t)
  {
    hide Justified, PassedOver, Advances, Filed, StatusOk;
    FactsKept(g, s, t, n);
  }

  ghost predicate Sides(s: Run, t: Run, n: NodeId) {
    && t.completed !! t.skipped
    && t.results.Keys == s.results.Keys + {n}
    && t.completed <= s.completed + {n}
    && t.skipped <= s.skipped + {n}
  }

  lemma DispatchSides(g: Graph, o: Oracle, s: Run, n: NodeId)
    requires Inv(g, s) && n in g.nodes && n !in s.Done()
    ensures Sides(s, Dispatch(g, o, s, n), n)
  {
    hide ResultOf, Tries;
  }

  lemma DispatchFiled(g: Graph, o: Oracle, s: Run, n: NodeId)
    requires Inv(g, s) && s.status == Running && n in g.nodes && n !in s.Done()
    ensures forall m :: m in Dispatch(g, o, s, n).results ==> m in g.nodes && Filed(g, Dispatch(g, o, s, n), m)
    ensures StatusOk(g, Dispatch(g, o, s, n))
  {
    hide Justified, PassedOver, ResultOf, Tries;
    var t := Dispatch(g, o, s, n);
    assert t.results.Keys == s.results.Keys + {n};
    forall m | m in s.results && m != n ensures m in g.nodes && Filed(g, t, m) {
      assert Filed(g, s, m);
    }
  }

  lemma ReadyJustified(g: Graph, s: Run, n: NodeId)
    requires IsReady(g, s, n) && s.pending == None
    ensures n !in s.Done() && Justified(g, s, n)
  {
  }

  /** A ready node stays ready until it is done. */
  lemma ReadyStable(g: Graph, o: Oracle, s: Run, n: NodeId, m: NodeId)
    requires n in g.nodes && n !in s.Done() && s.pending == None
    requires IsReady(g, s, m) && m != n
    ensures IsReady(g, Dispatch(g, o, s, n), m)
  {
    DispatchAdvances(g, o, s, n);
    RequiredKept(g, s, Dispatch(g, o, s, n), n, m);
    RequiredArePreds(g, Dispatch(g, o, s, n), m);
  }

  ghost predicate AllReady(g: Graph, s: Run, todo: seq<NodeId>) {
    NoDup(todo) && forall n :: n in todo ==> n in g.nodes && IsReady(g, s, n)
  }

  lemma AllReadyNext(g: Graph, o: Oracle, s: Run, todo: seq<NodeId>)
    requires todo != [] && AllReady(g, s, todo) && s.pending == None
    ensures AllReady(g, Dispatch(g, o, s, todo[0]), todo[1..])
  {
    var t := Dispatch(g, o, s, todo[0]);
    forall m | m in todo[1..] ensures m in g.nodes && IsReady(g, t, m) {
      ReadyStable(g, o, s, todo[0], m);
    }
  }

  lemma ReadyList(g: Graph, s: Run)
    requires g.WellFormed()
    ensures AllReady(g, s, Ready(g, s)) && Sorted(Ready(g, s), LexLeq)
    ensures forall n :: n in Ready(g, s) ==> n in g.nodes
    ensures forall n :: n in g.nodes && IsReady(g, s, n) ==> n in Ready(g, s)
  {
    FilterNoDup(g.order, ReadyTest(g, s));
    SortNoDup(Filter(g.order, ReadyTest(g, s)), LexLeq);
    LexIsTotalPreorder();
    SortSorted(Filter(g.order, ReadyTest(g, s)), LexLeq);
    forall n ensures n in g.order <==> n in g.nodes { assert n in g.order <==> n in Elems(g.order); }
  }

  lemma NoneReady(g: Graph, s: Run)
    requires forall m :: m in g.order ==> !IsReady(g, s, m)
    ensures Ready(g, s) == []
  {
    var f := Filter(g.order, ReadyTest(g, s));
    assert forall m :: m !in f;
    assert forall i :: 0 <= i < |f| ==> f[i] in f;
  }

  lemma {:induction false} InvWave(g: Graph, o: Oracle, s: Run, todo: seq<NodeId>)
    requires Inv(g, s) && s.status == Running && AllReady(g, s, todo)
    ensures Inv(g, Wave(g, o, s, todo))
    decreases |todo|
  {
    if todo != [] {
      var t := Dispatch(g, o, s, todo[0]);
      InvDispatch(g, o, s, todo[0]);
      if t.status == Running {
        AllReadyNext(g, o, s, todo);
        InvWave(g, o, t, todo[1..]);
      }
    }
  }

  lemma {:induction false} InvLoop(g: Graph, o: Oracle, s: Run)
    requires g.WellFormed() && Inv(g, s)
    ensures Inv(g, Loop(g, o, s))
    ensures Loop(g, o, s).status != Running
    ensures Loop(g, o, s).status == Completed && s.status == Running ==> Loop(g, o, s).Done() == g.nodes.Keys
    decreases Undone(g, s)
  {
    hide Ready, Wave, Inv, SkipFrom, AllReady;
    if s.status == Running {
      var t := SkipPass(g, s);
      PassKeeps(g, s);
      var ready := Ready(g, t);
      if ready == [] {
        InvConclude(g, t);
      } else {
        ReadyList(g, t);
        InvWave(g, o, t, ready);
        WaveNotCompleted(g, o, t, ready);
        var u := Wave(g, o, t, ready);
        if u.status == Running {
          LoopDecreases(g, o, s);
          InvLoop(g, o, u);
        }
      }
    }
  }

  lemma PassKeeps(g: Graph, s: Run)
    requires g.WellFormed() && Inv(g, s) && s.status == Running
    ensures Inv(g, SkipPass(g, s)) && SkipPass(g, s).status == Running
    ensures s.skipped <= SkipPass(g, s).skipped
    ensures SkipPass(g, s) == s.(skipped := SkipPass(g, s).skipped)
  {
    InvSkipFrom(g, s, 0);
    SkipFromGrows(g, s, 0);
  }

  lemma InvConclude(g: Graph, s: Run)
    requires Inv(g, s) && s.status == Running
    ensures Inv(g, Conclude(g, s)) && Conclude(g, s).status != Running
    ensures Conclude(g, s).status == Completed ==> Conclude(g, s).Done() == g.nodes.Keys
  {
    AllDone(g, s);
    OnlyProgressMatters(g, s, Conclude(g, s));
  }

  /** The facts about nodes depend on what is done, on the results and on the branches only. */
  lemma OnlyProgressMatters(g: Graph, s: Run, t: Run)
    requires t.completed == s.completed && t.skipped == s.skipped && t.results == s.results && t.branch == s.branch
    requires Inv(g, s) && StatusOk(g, t)
    ensures Inv(g, t)
  {
    forall m ensures Required(g, t, m) == Required(g, s, m) {
      forall e ensures Counts(t, e) <==> Counts(s, e) {}
    }
  }

  /** A wave that leaves the run going finishes a node that was undone. */
  lemma LoopDecreases(g: Graph, o: Oracle, s: Run)
    requires g.WellFormed()
    requires Ready(g, SkipPass(g, s)) != []
    requires forall n :: n in Ready(g, SkipPass(g, s)) ==> n in g.nodes
    requires Wave(g, o, SkipPass(g, s), Ready(g, SkipPass(g, s))).status == Running
    ensures Undone(g, Wave(g, o, SkipPass(g, s), Ready(g, SkipPass(g, s)))) < Undone(g, s)
  {
    SkipFromGrows(g, s, 0);
    var first := Ready(g, SkipPass(g, s))[0];
    assert first in Elems(g.order);
    assert first in Undone(g, s);
  }

  lemma AllDone(g: Graph, s: Run)
    requires Inv(g, s)
    ensures |s.completed| + |s.skipped| == |g.nodes| <==> s.Done() == g.nodes.Keys
  {
    assert |s.Done()| == |s.completed| + |s.skipped|;
    assert |g.nodes| == |g.nodes.Keys|;
    SubsetCard(s.Done(), g.nodes.Keys);
  }

  lemma {:induction false} WaveNotCompleted(g: Graph, o: Oracle, s: Run, todo: seq<NodeId>)
    requires s.status == Running && forall n :: n in todo ==> n in g.nodes
    ensures Wave(g, o, s, todo).status != Completed
    decreases |todo|
  {
    if todo != [] {
      var t := Dispatch(g, o, s, todo[0]);
      if t.status == Running { WaveNotCompleted(g, o, t, todo[1..]); }
    }
  }

  /* ---- reruns ---- */

  lemma PredsOutside(g: Graph, n: NodeId, m: NodeId)
    requires g.WellFormed() && n in g.nodes && m in g.nodes && m !in {n} + Downstream(g, n)
    ensures Preds(g, m) !! {n} + Downstream(g, n)
  {
    forall e | e in g.edges && e.dst == m ensures e.src !in {n} + Downstream(g, n) {
      var k :| 0 <= k < |g.edges| && g.edges[k] == e;
      assert HasEdge(g.edges, e.src, m);
      if e.src == n {
        EdgeReaches(g.edges, n, m);
      } else if Reaches(g.edges, n, e.src) {
        ReachesExtend(g.edges, n, e.src, m);
      }
    }
  }

  lemma ResetKeepsFacts(g: Graph, s: Run, n: NodeId, m: NodeId)
    requires g.WellFormed() && n in g.nodes && m in g.nodes && m !in {n} + Downstream(g, n)
    ensures Required(g, Reset(g, s, n), m) == Required(g, s, m)
    ensures Justified(g, s, m) ==> Justified(g, Reset(g, s, n), m)
    ensures PassedOver(g, s, m) ==> PassedOver(g, Reset(g, s, n), m)
  {
    PredsOutside(g, n, m);
    var t := Reset(g, s, n);
    forall e | e in g.edges && e.dst == m ensures Counts(s, e) <==> Counts(t, e) {
      assert e.src in Preds(g, m);
    }
    RequiredArePreds(g, s, m);
  }

  /** The reset re-establishes the loop invariant, and no node that stays done depends on a reset one. */
  lemma InvReset(g: Graph, s: Run, n: NodeId)
    requires g.WellFormed() && Inv(g, s) && n in g.nodes
    ensures Inv(g, Reset(g, s, n))
    ensures forall m :: m in Reset(g, s, n).Done() ==> Preds(g, m) !! {n} + Downstream(g, n)
  {
    var t := Reset(g, s, n);
    forall m | m in g.nodes && m !in {n} + Downstream(g, n)
      ensures Justified(g, s, m) ==> Justified(g, t, m)
      ensures PassedOver(g, s, m) ==> PassedOver(g, t, m)
      ensures Preds(g, m) !! {n} + Downstream(g, n)
    {
      PredsOutside(g, n, m);
      ResetKeepsFacts(g, s, n, m);
    }
  }

  lemma InvObey(g: Graph, o: Oracle, s: Run, c: Call)
    requires g.WellFormed() && Inv(g, s)
    requires s.status != Running
    ensures Inv(g, Obey(g, o, s, c)) && Obey(g, o, s, c).status != Running
  {
    match c
    case Resume =>
      if s.status == WaitingApproval {
        OnlyProgressMatters(g, s, Resumed(s));
        InvLoop(g, o, Resumed(s));
      }
    case Rerun(n) =>
      if n in g.nodes {
        InvReset(g, s, n);
        InvLoop(g, o, Reset(g, s, n));
      }
  }
}
