/** When a rerun is like a fresh run. A rerun forgets the branch of its own node only; branches recorded by
    nodes downstream stay behind, and may mislead a node whose source is not completed again. */
module RunReruns {
  import opened Sequences
  import opened Graphs
  import opened Runs
  import opened RunInvariant
  import opened RunTheorems
  import opened RunLog

  /* ---- where results and branches come from ---- */

  /** The result is what the oracle said in some execution of the node. */
  ghost predicate Answered(o: Oracle, n: NodeId, r: NodeResult) {
    exists c: nat {:trigger o(c, n)} :: r.status == o(c, n).status && r.branch == o(c, n).branch
  }

  ghost predicate OnlyConditional(g: Graph, s: Run) {
    forall n :: n in s.branch ==> n in g.nodes && g.nodes[n].kind == Conditional
  }

  /** An undone node with a result is one that stopped the run: it waits, or failed for good. */
  ghost predicate OnlyStopped(g: Graph, s: Run) {
    forall n :: n in s.results && n !in s.Done() && n in g.nodes ==> StoppedBy(g, n, s.results[n])
  }

  ghost predicate StoppedBy(g: Graph, n: NodeId, r: NodeResult)
    requires n in g.nodes
  {
    || r.status == NodeWaiting
    || (r.status == NodeFailed && (g.nodes[n].onFailure == Fail || g.nodes[n].onFailure == Retry))
  }

  /** From s to t new results are answers of the oracle, only completed nodes have changed their branch,
      nothing done is undone, only conditional nodes have recorded one, and undone nodes with a result have
      stopped the run. */
  ghost predicate Traces(g: Graph, o: Oracle, s: Run, t: Run) {
    && s.completed <= t.completed && s.skipped <= t.skipped
    && (forall n :: n in t.results ==>
          (n in s.results && t.results[n] == s.results[n]) || Answered(o, n, t.results[n]))
    && (forall n :: n !in t.completed ==> t.BranchOf(n) == s.BranchOf(n))
    && (OnlyConditional(g, s) ==> OnlyConditional(g, t))
    && (OnlyStopped(g, s) ==> OnlyStopped(g, t))
  }

  lemma TracesTrans(g: Graph, o: Oracle, s: Run, t: Run, u: Run)
    requires Traces(g, o, s, t) && Traces(g, o, t, u)
    ensures Traces(g, o, s, u)
  {
    hide Answered, OnlyConditional, OnlyStopped;
  }

  lemma DispatchTraces(g: Graph, o: Oracle, s: Run, n: NodeId)
    requires n in g.nodes
    ensures Traces(g, o, s, Dispatch(g, o, s, n))
  {
    var r := ResultOf(g, o, s, n);
    var c: nat := s.clock + Tries(g, o, s, n) - 1;
    assert r.status == o(c, n).status && r.branch == o(c, n).branch;
    assert Answered(o, n, r);
    hide Answered, ResultOf, Tries;
  }

  lemma {:induction false} WaveTraces(g: Graph, o: Oracle, s: Run, todo: seq<NodeId>)
    requires forall n :: n in todo ==> n in g.nodes
    ensures Traces(g, o, s, Wave(g, o, s, todo))
    decreases |todo|
  {
    if todo != [] {
      var t := Dispatch(g, o, s, todo[0]);
      DispatchTraces(g, o, s, todo[0]);
      if t.status == Running {
        WaveTraces(g, o, t, todo[1..]);
        hide *;
        TracesTrans(g, o, s, t, Wave(g, o, t, todo[1..]));
        assert Wave(g, o, s, todo) == Wave(g, o, t, todo[1..]) by { WaveNext(g, o, s, todo); }
      }
    }
  }

  lemma WaveNext(g: Graph, o: Oracle, s: Run, todo: seq<NodeId>)
    requires todo != [] && forall n :: n in todo ==> n in g.nodes
    requires Dispatch(g, o, s, todo[0]).status == Running
    ensures Wave(g, o, s, todo) == Wave(g, o, Dispatch(g, o, s, todo[0]), todo[1..])
  {
  }

  lemma PassTraces(g: Graph, o: Oracle, s: Run)
    ensures Traces(g, o, s, SkipPass(g, s))
    ensures Traces(g, o, s, Conclude(g, SkipPass(g, s)))
  {
    SkipFromGrows(g, s, 0);
  }

  lemma {:induction false} LoopTraces(g: Graph, o: Oracle, s: Run)
    requires g.WellFormed()
    ensures Traces(g, o, s, Loop(g, o, s))
    decreases Undone(g, s)
  {
    hide Ready, Wave, SkipPass, Conclude, Traces;
    if s.status != Running {
      SameTraces(g, o, s);
    } else {
      var t := SkipPass(g, s);
      var ready := Ready(g, t);
      PassTraces(g, o, s);
      if ready != [] {
        ReadyList(g, t);
        WaveTraces(g, o, t, ready);
        var u := Wave(g, o, t, ready);
        TracesTrans(g, o, s, t, u);
        if u.status == Running {
          LoopDecreases(g, o, s);
          LoopTraces(g, o, u);
          TracesTrans(g, o, s, u, Loop(g, o, u));
        }
      }
    }
  }

  lemma SameTraces(g: Graph, o: Oracle, s: Run)
    ensures Traces(g, o, s, s)
  {
  }

  /** A reset forgets and undoes only what it resets. */
  lemma ResetKeepsKinds(g: Graph, s: Run, n: NodeId)
    ensures OnlyConditional(g, s) ==> OnlyConditional(g, Reset(g, s, n))
    ensures OnlyStopped(g, s) ==> OnlyStopped(g, Reset(g, s, n))
  {
    hide Downstream;
  }

  lemma ResumedTraces(g: Graph, o: Oracle, s: Run)
    ensures Traces(g, o, s, Resumed(s))
  {
  }

  /** Whatever the calls: only conditional nodes ever have a branch on record, and undone nodes with a result
      have stopped the run. */
  lemma {:induction false} DriveKinds(g: Graph, o: Oracle, calls: seq<Call>)
    requires g.WellFormed()
    ensures OnlyConditional(g, Drive(g, o, calls)) && OnlyStopped(g, Drive(g, o, calls))
    decreases |calls|
  {
    hide Loop, Inv, OnlyConditional, OnlyStopped, Downstream, Reset, Resumed;
    if calls == [] {
      FreshKinds(g);
      LoopTraces(g, o, FRESH);
    } else {
      var s := Drive(g, o, calls[..|calls| - 1]);
      DriveKinds(g, o, calls[..|calls| - 1]);
      match calls[|calls| - 1]
      case Resume =>
        ResumedTraces(g, o, s);
        LoopTraces(g, o, Resumed(s));
      case Rerun(n) =>
        ResetKeepsKinds(g, s, n);
        LoopTraces(g, o, Reset(g, s, n));
    }
  }

  lemma FreshKinds(g: Graph)
    ensures OnlyConditional(g, FRESH) && OnlyStopped(g, FRESH)
  {
  }

  /* ---- the run after a rerun ---- */

  /** A rerun of n, and then a number of resumes. */
  ghost function Continued(g: Graph, o: Oracle, s: Run, n: NodeId, resumes: nat): Run
    requires g.WellFormed()
  {
    if resumes == 0 then Obey(g, o, s, Rerun(n))
    else Obey(g, o, Continued(g, o, s, n, resumes - 1), Resume)
  }

  /** What was done at r is as it was. */
  ghost predicate SameDone(r: Run, u: Run) {
    forall p :: p in r.Done() ==> (p in u.completed <==> p in r.completed) && u.BranchOf(p) == r.BranchOf(p)
  }

  /** What holds of the rerun between its reset state and a later one. */
  ghost predicate Follows(g: Graph, o: Oracle, r: Run, u: Run) {
    && Inv(g, u) && u.status != Running && (u.status == Completed ==> u.Done() == g.nodes.Keys)
    && Traces(g, o, r, u) && SameDone(r, u)
  }

  lemma LoopFollows(g: Graph, o: Oracle, r: Run)
    requires g.WellFormed() && Inv(g, r) && r.status == Running
    ensures Follows(g, o, r, Loop(g, o, r))
  {
    hide Inv, Loop, Traces, Progress, Graph.WellFormed;
    InvLoop(g, o, r);
    LoopTraces(g, o, r);
    LoopProgress(g, o, r);
    forall p | p in r.Done()
      ensures (p in Loop(g, o, r).completed <==> p in r.completed) && Loop(g, o, r).BranchOf(p) == r.BranchOf(p)
    {
      DoneIsLeftAlone(g, r, Loop(g, o, r), p);
    }
  }

  lemma FollowsResume(g: Graph, o: Oracle, r: Run, t: Run)
    requires g.WellFormed() && Follows(g, o, r, t)
    ensures Follows(g, o, r, Obey(g, o, t, Resume))
  {
    hide Inv, Loop, Traces;
    if t.status == WaitingApproval {
      InvResumed(g, t);
      LoopFollows(g, o, Resumed(t));
      ResumedTraces(g, o, t);
      TracesTrans(g, o, t, Resumed(t), Loop(g, o, Resumed(t)));
      TracesTrans(g, o, r, t, Loop(g, o, Resumed(t)));
      StillDone(g, o, r, t);
    }
  }

  lemma StillDone(g: Graph, o: Oracle, r: Run, t: Run)
    requires Traces(g, o, r, t)
    ensures r.Done() <= t.Done() && t.Done() == Resumed(t).Done()
  {
  }

  lemma {:induction false} ContinuedFollows(g: Graph, o: Oracle, s: Run, n: NodeId, resumes: nat)
    requires g.WellFormed() && Inv(g, s) && n in g.nodes
    ensures Follows(g, o, Reset(g, s, n), Continued(g, o, s, n, resumes))
  {
    hide Inv, Loop, Follows, Downstream;
    if resumes == 0 {
      InvReset(g, s, n);
      LoopFollows(g, o, Reset(g, s, n));
    } else {
      ContinuedFollows(g, o, s, n, resumes - 1);
      FollowsResume(g, o, Reset(g, s, n), Continued(g, o, s, n, resumes - 1));
    }
  }

  /* ---- agreement with a run that has no stale branches ---- */

  /** A run of which every node is done. */
  ghost predicate AllSettled(g: Graph, s: Run) {
    Inv(g, s) && s.status == Completed && s.Done() == g.nodes.Keys
  }

  /** The same run without the branches of nodes that are not completed. */
  function Trim(s: Run): Run {
    s.(branch := map n | n in s.branch && n in s.completed :: s.branch[n])
  }

  /** Stale branches make no difference to who takes part. */
  ghost predicate NothingMisled(g: Graph, s: Run) {
    forall n :: n in g.nodes ==> (Active(g, s, n) <==> Active(g, Trim(s), n))
  }

  lemma SettledActive(g: Graph, s: Run, n: NodeId)
    requires AllSettled(g, s) && n in g.nodes
    ensures n in s.results <==> Active(g, s, n)
  {
    ActiveMeaning(g, s, n);
    assert n in s.Done();
  }

  lemma TrimRequires(g: Graph, s: Run, n: NodeId)
    ensures Required(g, Trim(s), n) <= Required(g, s, n)
  {
    forall p | p in Required(g, Trim(s), n) ensures p in Required(g, s, n) {
      var e :| e in g.edges && e.dst == n && Counts(Trim(s), e) && e.src == p;
      assert Counts(s, e);
    }
  }

  lemma TrimFinished(g: Graph, s: Run)
    requires g.WellFormed() && AllSettled(g, s) && NothingMisled(g, s)
    ensures Finished(g, Trim(s))
  {
    var t := Trim(s);
    forall n | n in g.nodes ensures Required(g, t, n) <= t.Done() {
      TrimRequires(g, s, n);
    }
    forall n | n in t.results ensures Justified(g, t, n) {
      SettledActive(g, s, n);
      ActiveMeaning(g, t, n);
    }
    forall n | n in t.skipped && n !in t.results ensures PassedOver(g, t, n) {
      TrimRequires(g, s, n);
      assert PassedOver(g, s, n);
    }
    forall n | n in t.results ensures Filed(g, t, n) {
      assert Filed(g, s, n);
    }
  }

  /** A settled run and a run without stale branches in which the common nodes ended alike executed the same
      nodes if and only if no node was misled by a stale branch. */
  lemma AgreementIff(g: Graph, s: Run, t: Run)
    requires g.WellFormed() && !HasCycle(g.edges)
    requires AllSettled(g, s) && Finished(g, t) && SameOutcomes(Trim(s), t)
    ensures s.results.Keys == t.results.Keys <==> NothingMisled(g, s)
    ensures NothingMisled(g, s) ==> s.completed == t.completed && s.skipped == t.skipped
  {
    if NothingMisled(g, s) {
      TrimFinished(g, s);
      Confluence(g, Trim(s), t);
    }
    if s.results.Keys == t.results.Keys {
      forall n | n in g.nodes ensures Active(g, s, n) <==> Active(g, Trim(s), n) {
        SettledActive(g, s, n);
        ExecutedIffActive(g, t, n);
        forall p ensures Trim(s).BranchOf(p) == t.BranchOf(p) {
          TrimBranch(g, s, t, p);
        }
        ActiveByBranches(g, Trim(s), t, n);
      }
    }
  }

  lemma TrimBranch(g: Graph, s: Run, t: Run, p: NodeId)
    requires Inv(g, s) && Finished(g, t) && SameOutcomes(Trim(s), t) && s.results.Keys == t.results.Keys
    ensures Trim(s).BranchOf(p) == t.BranchOf(p)
  {
    hide Justified, PassedOver, Filed, StatusOk;
    assert p in s.results <==> p in t.results;
  }

  /* ---- the condition, before the call ---- */

  /** The nodes that are not done when the rerun starts: n, everything downstream of it, and whatever the run
      had not come to. */
  ghost function Gone(g: Graph, s: Run, n: NodeId): set<NodeId> {
    g.nodes.Keys - Reset(g, s, n).Done()
  }

  /** An in-edge that holds in every rerun of n: a plain one, or a branch taken by a completed node that is not
      run again. */
  ghost predicate Firm(g: Graph, s: Run, n: NodeId, e: Edge) {
    || e.condition.None?
    || (e.src !in Gone(g, s, n) && e.src in s.completed && e.MatchesBranch(s.BranchOf(e.src)))
  }

  /** A node that takes part in every rerun of n. */
  ghost predicate Anchored(g: Graph, s: Run, n: NodeId, m: NodeId) {
    || (forall e :: e in g.edges ==> e.dst != m)
    || (exists e :: e in g.edges && e.dst == m && Firm(g, s, n, e))
  }

  /** A node that is completed again whenever the rerun completes. */
  ghost predicate Sure(g: Graph, s: Run, n: NodeId, m: NodeId) {
    m in g.nodes && Anchored(g, s, n, m) && g.nodes[m].onFailure != Skip
  }

  /** A recorded branch that can outlive its node: the target has nothing firmer to go by, and the source is
      run again without being sure to complete, or is not completed as it is. */
  ghost predicate Misleading(g: Graph, s: Run, n: NodeId, e: Edge) {
    && e in g.edges && e.condition.Some? && e.MatchesBranch(s.BranchOf(e.src)) && e.src != n
    && (if e.src in Gone(g, s, n) then !Sure(g, s, n, e.src) else e.src !in s.completed)
    && !Anchored(g, s, n, e.dst)
  }

  ghost predicate Harmless(g: Graph, s: Run, n: NodeId) {
    forall e :: e in g.edges ==> !Misleading(g, s, n, e)
  }

  /** What a completed rerun leaves of the branches and outcomes before it. */
  ghost predicate Leaves(g: Graph, o: Oracle, s: Run, n: NodeId, u: Run, p: NodeId) {
    && (p !in Gone(g, s, n) ==> (p in u.completed <==> p in s.completed) && u.BranchOf(p) == s.BranchOf(p))
    && (p !in u.completed ==> u.BranchOf(p) == (if p == n then None else s.BranchOf(p)))
    && (p in Gone(g, s, n) && p in u.results ==> Answered(o, p, u.results[p]))
  }

  ghost predicate IsRerun(g: Graph, o: Oracle, s: Run, n: NodeId, u: Run) {
    && (OnlyConditional(g, s) ==> OnlyConditional(g, u))
    && (forall p :: p in g.nodes ==> Leaves(g, o, s, n, u, p))
  }

  lemma RerunLeaves(g: Graph, o: Oracle, s: Run, n: NodeId, resumes: nat)
    requires g.WellFormed() && Inv(g, s) && OnlyStopped(g, s) && n in g.nodes
    requires Continued(g, o, s, n, resumes).status == Completed
    ensures AllSettled(g, Continued(g, o, s, n, resumes))
    ensures IsRerun(g, o, s, n, Continued(g, o, s, n, resumes))
  {
    var r, u := Reset(g, s, n), Continued(g, o, s, n, resumes);
    hide Continued, Reset, Gone, Inv, OnlyStopped, Leaves, OnlyConditional;
    ContinuedFollows(g, o, s, n, resumes);
    ResetKeepsKinds(g, s, n);
    forall p | p in g.nodes ensures Leaves(g, o, s, n, u, p) { LeavesNode(g, o, s, n, u, p); }
  }

  lemma LeavesNode(g: Graph, o: Oracle, s: Run, n: NodeId, u: Run, p: NodeId)
    requires Follows(g, o, Reset(g, s, n), u) && u.status == Completed && p in g.nodes
    requires OnlyStopped(g, Reset(g, s, n))
    ensures Leaves(g, o, s, n, u, p)
  {
    hide Answered, Justified, PassedOver, OnlyConditional, Downstream;
    assert p in u.Done();
    if p in u.results { assert Filed(g, u, p); }
  }

  lemma ActiveBy(g: Graph, s: Run, e: Edge)
    requires e in g.edges && Counts(s, e)
    ensures Active(g, s, e.dst)
  {
  }

  /** An anchored node takes part, with or without stale branches. */
  lemma AnchoredIsActive(g: Graph, o: Oracle, s: Run, n: NodeId, u: Run, m: NodeId)
    requires g.WellFormed() && IsRerun(g, o, s, n, u) && Anchored(g, s, n, m)
    ensures Active(g, Trim(u), m) && Active(g, u, m)
  {
    if e :| e in g.edges && e.dst == m && Firm(g, s, n, e) {
      assert e.src in g.nodes;
      assert Leaves(g, o, s, n, u, e.src);
      hide IsRerun, Anchored, Gone, Active;
      ActiveBy(g, u, e);
      ActiveBy(g, Trim(u), e);
    }
  }

  lemma SureIsCompleted(g: Graph, o: Oracle, s: Run, n: NodeId, u: Run, m: NodeId)
    requires g.WellFormed() && IsRerun(g, o, s, n, u) && Sure(g, s, n, m) && AllSettled(g, u)
    ensures m in u.completed
  {
    hide IsRerun, Anchored, Active;
    AnchoredIsActive(g, o, s, n, u, m);
    SettledActive(g, u, m);
    assert Filed(g, u, m) && m in u.Done();
  }

  lemma EdgeMisleads(g: Graph, o: Oracle, s: Run, n: NodeId, u: Run, e: Edge)
    requires g.WellFormed() && IsRerun(g, o, s, n, u) && AllSettled(g, u)
    requires e in g.edges && e.condition.Some? && u.BranchOf(e.src) == e.condition
    requires !Active(g, Trim(u), e.dst)
    ensures Misleading(g, s, n, e)
  {
    assert e.src in g.nodes;
    assert Leaves(g, o, s, n, u, e.src);
    hide IsRerun, Anchored, Active, AllSettled, Firm, Gone;
    if e.src in u.completed {
      ActiveBy(g, Trim(u), e);
      assert false;
    }
    if Anchored(g, s, n, e.dst) { AnchoredIsActive(g, o, s, n, u, e.dst); }
    if Sure(g, s, n, e.src) { SureIsCompleted(g, o, s, n, u, e.src); }
  }

  lemma HarmlessMisleadsNobody(g: Graph, o: Oracle, s: Run, n: NodeId, u: Run)
    requires g.WellFormed() && IsRerun(g, o, s, n, u) && AllSettled(g, u) && Harmless(g, s, n)
    ensures NothingMisled(g, u)
  {
    forall m | m in g.nodes ensures Active(g, u, m) <==> Active(g, Trim(u), m) {
      hide *;
      TrimmedActive(g, u, m);
      if Active(g, u, m) && !Active(g, Trim(u), m) {
        var e := TakenEdge(g, u, m);
        EdgeMisleads(g, o, s, n, u, e);
        HarmlessEdge(g, s, n, e);
        assert false;
      }
    }
  }

  lemma TakenEdge(g: Graph, u: Run, m: NodeId) returns (e: Edge)
    requires Active(g, u, m) && !Active(g, Trim(u), m)
    ensures e in g.edges && e.dst == m && e.condition.Some? && u.BranchOf(e.src) == e.condition
  {
    e :| e in g.edges && e.dst == m && e.condition.Some? && u.BranchOf(e.src) == e.condition;
  }

  lemma HarmlessEdge(g: Graph, s: Run, n: NodeId, e: Edge)
    requires Harmless(g, s, n) && e in g.edges
    ensures !Misleading(g, s, n, e)
  {
  }

  lemma TrimmedActive(g: Graph, s: Run, n: NodeId)
    ensures Active(g, Trim(s), n) ==> Active(g, s, n)
  {
  }

  /* ---- nodes that never stop a run ---- */

  /** No node waits, and none fails for good. */
  ghost predicate Calm(g: Graph, o: Oracle) {
    forall c: nat, n {:trigger o(c, n)} :: n in g.nodes ==>
      o(c, n).status != NodeWaiting
      && (o(c, n).status == NodeFailed ==> g.nodes[n].onFailure == Skip || g.nodes[n].onFailure == Continue)
  }

  lemma CalmAnswer(g: Graph, o: Oracle, n: NodeId, r: NodeResult)
    requires Calm(g, o) && n in g.nodes && Answered(o, n, r)
    ensures r.status != NodeWaiting
    ensures r.status == NodeFailed ==> g.nodes[n].onFailure == Skip || g.nodes[n].onFailure == Continue
  {
  }

  /** Whoever stops the run has just been asked. */
  ghost predicate StopAnswered(o: Oracle, s: Run) {
    && (s.status == WaitingApproval ==>
          s.pending.Some? && s.pending.value in s.results && Answered(o, s.pending.value, s.results[s.pending.value]))
    && (s.error.NodeError? ==> s.error.node in s.results && Answered(o, s.error.node, s.results[s.error.node]))
  }

  lemma DispatchStop(g: Graph, o: Oracle, s: Run, n: NodeId)
    requires n in g.nodes && s.status == Running && s.error == NoError
    ensures var t := Dispatch(g, o, s, n);
            StopAnswered(o, t) && (t.status == Running ==> t.error == NoError)
  {
    var r := ResultOf(g, o, s, n);
    var c: nat := s.clock + Tries(g, o, s, n) - 1;
    assert r.status == o(c, n).status && r.branch == o(c, n).branch;
    assert Answered(o, n, r);
    hide Answered, ResultOf, Tries;
  }

  lemma {:induction false} WaveStop(g: Graph, o: Oracle, s: Run, todo: seq<NodeId>)
    requires s.status == Running && s.error == NoError && forall n :: n in todo ==> n in g.nodes
    ensures var t := Wave(g, o, s, todo);
            StopAnswered(o, t) && (t.status == Running ==> t.error == NoError)
    decreases |todo|
  {
    hide Dispatch;
    if todo == [] {
      assert StopAnswered(o, s);
    } else {
      DispatchStop(g, o, s, todo[0]);
      hide StopAnswered;
      var t := Dispatch(g, o, s, todo[0]);
      if t.status == Running { WaveStop(g, o, t, todo[1..]); }
    }
  }

  lemma {:induction false} LoopStop(g: Graph, o: Oracle, s: Run)
    requires g.WellFormed() && s.status == Running && s.error == NoError
    ensures StopAnswered(o, Loop(g, o, s))
    decreases Undone(g, s)
  {
    hide Ready, Wave, SkipPass;
    var t := SkipPass(g, s);
    PassFields(g, s);
    if Ready(g, t) != [] {
      ReadyList(g, t);
      WaveStop(g, o, t, Ready(g, t));
      var u := Wave(g, o, t, Ready(g, t));
      hide StopAnswered;
      if u.status == Running {
        LoopDecreases(g, o, s);
        LoopStop(g, o, u);
      }
    }
  }

  lemma PassFields(g: Graph, s: Run)
    ensures SkipPass(g, s).status == s.status && SkipPass(g, s).error == s.error
  {
    SkipFromGrows(g, s, 0);
  }

  /** With such nodes and sources-first skipping the loop completes the run. */
  lemma CalmCompletes(g: Graph, o: Oracle, s: Run)
    requires g.WellFormed() && !HasCycle(g.edges) && SkipOrdered(g) && Calm(g, o)
    requires Inv(g, s) && s.status == Running
    ensures AllSettled(g, Loop(g, o, s))
  {
    var u := Loop(g, o, s);
    InvLoop(g, o, s);
    LoopNeverDeadlocks(g, o, s);
    LoopStop(g, o, s);
    hide Loop, HasCycle, SkipOrdered, Calm, Justified, PassedOver, Filed, StatusOk, StopAnswered;
    CalmIsNotStopped(g, o, u);
  }

  lemma CalmIsNotStopped(g: Graph, o: Oracle, u: Run)
    requires Calm(g, o) && StatusOk(g, u) && StopAnswered(o, u) && u.results.Keys <= g.nodes.Keys
    ensures u.status != WaitingApproval && (u.status == Failed ==> u.error == Deadlock)
  {
    hide Calm, Answered;
    match u.status
    case Running =>
    case Completed =>
    case WaitingApproval => CalmAnswer(g, o, u.pending.value, u.results[u.pending.value]);
    case Failed =>
      if u.error.NodeError? {
        CalmAnswer(g, o, u.error.node, u.results[u.error.node]);
      }
  }

  /** Every node completes without a branch, but `broken` fails if it can be skipped over. */
  function Blank(g: Graph, broken: NodeId): Oracle {
    (c, n) =>
      var fails := n == broken && n in g.nodes && g.nodes[n].onFailure == Skip;
      NodeResult(if fails then NodeFailed else NodeCompleted, None, 0)
  }

  lemma BlankIsCalm(g: Graph, broken: NodeId)
    ensures Calm(g, Blank(g, broken))
  {
  }

  /** Every node ends as in u, and completes without a branch if u did not execute it. */
  function Replay(u: Run): Oracle {
    (c, n) => if n in u.results then u.results[n].(attempts := 0) else NodeResult(NodeCompleted, None, 0)
  }

  lemma ReplayIsCalm(g: Graph, u: Run)
    requires AllSettled(g, u)
    ensures Calm(g, Replay(u))
  {
    forall n | n in u.results
      ensures n in g.nodes && u.results[n].status != NodeWaiting
      ensures u.results[n].status == NodeFailed ==> g.nodes[n].onFailure == Skip || g.nodes[n].onFailure == Continue
    {
      assert n in u.Done() && Filed(g, u, n);
    }
  }

  /** A fresh run in which every node ends as in u. */
  lemma ReplayedRun(g: Graph, u: Run)
    requires g.WellFormed() && !HasCycle(g.edges) && SkipOrdered(g) && AllSettled(g, u) && OnlyConditional(g, u)
    ensures Drive(g, Replay(u), []).status == Completed
    ensures Finished(g, Drive(g, Replay(u), [])) && SameOutcomes(Trim(u), Drive(g, Replay(u), []))
  {
    assert FRESH.status == Running;
    hide *;
    var o := Replay(u);
    var t := Loop(g, o, FRESH);
    ReplayIsCalm(g, u);
    FreshInv(g);
    CalmCompletes(g, o, FRESH);
    ResumesKeepBranchesCurrent(g, o, []) by { assert OnlyResumes([]) by { NoCalls(); } }
    DriveKinds(g, o, []);
    LoopTraces(g, o, FRESH);
    FreshDrive(g, o);
    ReplayedOutcomes(g, u, t);
  }

  lemma NoCalls()
    ensures OnlyResumes([])
  {
  }

  lemma FreshDrive(g: Graph, o: Oracle)
    requires g.WellFormed()
    ensures Drive(g, o, []) == Loop(g, o, FRESH)
  {
  }

  lemma ReplayedOutcomes(g: Graph, u: Run, t: Run)
    requires AllSettled(g, u) && OnlyConditional(g, u)
    requires AllSettled(g, t) && OnlyConditional(g, t) && BranchesCurrent(t) && Traces(g, Replay(u), FRESH, t)
    ensures t.status == Completed && Finished(g, t) && SameOutcomes(Trim(u), t)
  {
    hide Justified, PassedOver, Answered, Filed, OnlyConditional, BranchesCurrent, StatusOk;
    forall n | n in u.results && n in t.results
      ensures (n in u.completed <==> n in t.completed) && Trim(u).BranchOf(n) == t.BranchOf(n)
    {
      ReplayedNode(g, u, t, n);
    }
  }

  lemma ReplayedNode(g: Graph, u: Run, t: Run, n: NodeId)
    requires n in u.results && n in t.results && Answered(Replay(u), n, t.results[n])
    requires n in g.nodes && n in u.Done() && n in t.Done() && Filed(g, u, n) && Filed(g, t, n)
    requires OnlyConditional(g, u) && OnlyConditional(g, t) && BranchesCurrent(t)
    requires t.completed !! t.skipped && u.completed !! u.skipped
    ensures (n in u.completed <==> n in t.completed) && Trim(u).BranchOf(n) == t.BranchOf(n)
  {
  }

  /* ---- a misleading branch does mislead ---- */

  /** A misleading edge whose source is not run again, or to whose source none leads. */
  lemma FirstMisleading(g: Graph, s: Run, n: NodeId) returns (e: Edge)
    requires g.WellFormed() && !HasCycle(g.edges) && !Harmless(g, s, n)
    ensures Misleading(g, s, n, e)
    ensures e.src in Gone(g, s, n) ==>
              forall f :: Misleading(g, s, n, f) ==> f.src in Gone(g, s, n) && f.dst != e.src
  {
    hide Misleading, HasCycle, Gone;
    if f :| f in g.edges && Misleading(g, s, n, f) && f.src !in Gone(g, s, n) {
      e := f;
    } else {
      var sources := set f | f in g.edges && Misleading(g, s, n, f) :: f.src;
      var f :| f in g.edges && Misleading(g, s, n, f);
      assert f.src in sources;
      var y := MinimalNode(g.edges, sources);
      e :| e in g.edges && Misleading(g, s, n, e) && e.src == y;
      forall f | Misleading(g, s, n, f) ensures f.src in Gone(g, s, n) && f.dst != y {
        assert f in g.edges by { MisleadingIsEdge(g, s, n, f); }
        assert f.src in sources;
        EdgeIsThere(g, f);
      }
    }
  }

  lemma MisleadingIsEdge(g: Graph, s: Run, n: NodeId, e: Edge)
    requires Misleading(g, s, n, e)
    ensures e in g.edges
  {
  }

  lemma EdgeIsThere(g: Graph, e: Edge)
    requires e in g.edges
    ensures HasEdge(g.edges, e.src, e.dst)
  {
    var k :| 0 <= k < |g.edges| && g.edges[k] == e;
  }

  /** In a blank rerun no completed node that was run again has a branch. */
  lemma BlankBranches(g: Graph, broken: NodeId, s: Run, n: NodeId, u: Run, p: NodeId)
    requires IsRerun(g, Blank(g, broken), s, n, u) && AllSettled(g, u) && OnlyConditional(g, u)
    requires p in g.nodes && p in Gone(g, s, n) && p in u.completed
    ensures u.BranchOf(p) == None
  {
    assert Leaves(g, Blank(g, broken), s, n, u, p);
    assert Filed(g, u, p);
  }

  lemma TakenBranch(g: Graph, o: Oracle, s: Run, n: NodeId, u: Run, e: Edge)
    requires Leaves(g, o, s, n, u, e.src) && !Firm(g, s, n, e)
    requires e.condition.Some? && u.BranchOf(e.src) == e.condition
    requires e.src in Gone(g, s, n) && e.src in u.completed ==> u.BranchOf(e.src) == None
    ensures e.src !in u.completed && e.MatchesBranch(s.BranchOf(e.src)) && e.src != n
    ensures e.src !in Gone(g, s, n) ==> e.src !in s.completed
  {
    hide Answered, Gone;
  }

  /** Whatever branch is taken into a node without anything firm, in a blank rerun, is a misleading one. */
  lemma TakenIsMisleading(g: Graph, broken: NodeId, s: Run, n: NodeId, u: Run, e: Edge)
    requires g.WellFormed() && IsRerun(g, Blank(g, broken), s, n, u) && AllSettled(g, u) && OnlyConditional(g, u)
    requires e in g.edges && e.condition.Some? && u.BranchOf(e.src) == e.condition && !Anchored(g, s, n, e.dst)
    ensures e.src !in u.completed && Misleading(g, s, n, e)
  {
    var o := Blank(g, broken);
    assert e.src in g.nodes;
    assert Leaves(g, o, s, n, u, e.src);
    assert !Firm(g, s, n, e);
    hide *;
    if e.src in Gone(g, s, n) && e.src in u.completed {
      BlankBranches(g, broken, s, n, u, e.src);
    }
    TakenBranch(g, o, s, n, u, e);
    if Sure(g, s, n, e.src) { SureIsCompleted(g, o, s, n, u, e.src); }
    MisleadingMeaning(g, s, n, e);
  }

  lemma MisleadingMeaning(g: Graph, s: Run, n: NodeId, e: Edge)
    requires e in g.edges && e.condition.Some? && e.MatchesBranch(s.BranchOf(e.src)) && e.src != n
    requires if e.src in Gone(g, s, n) then !Sure(g, s, n, e.src) else e.src !in s.completed
    requires !Anchored(g, s, n, e.dst)
    ensures Misleading(g, s, n, e)
  {
  }

  /** The source of a first misleading edge is left out of the blank rerun. */
  lemma SourceIsLeftOut(g: Graph, s: Run, n: NodeId, u: Run, e: Edge)
    requires g.WellFormed() && Misleading(g, s, n, e)
    requires e.src in Gone(g, s, n) ==>
               forall f :: Misleading(g, s, n, f) ==> f.src in Gone(g, s, n) && f.dst != e.src
    requires IsRerun(g, Blank(g, e.src), s, n, u) && AllSettled(g, u) && OnlyConditional(g, u)
    ensures e.src !in u.completed
  {
    var y := e.src;
    var o := Blank(g, y);
    assert y in g.nodes && Leaves(g, o, s, n, u, y);
    if y in Gone(g, s, n) && y in u.completed {
      assert Filed(g, u, y);
      assert g.nodes[y].onFailure != Skip;
      assert !Anchored(g, s, n, y);
      SettledActive(g, u, y);
      var f := OnlyTaken(g, s, n, u, y);
      TakenIsMisleading(g, y, s, n, u, f);
      assert false;
    }
  }

  lemma OnlyTaken(g: Graph, s: Run, n: NodeId, u: Run, y: NodeId) returns (f: Edge)
    requires Active(g, u, y) && !Anchored(g, s, n, y)
    ensures f in g.edges && f.dst == y && f.condition.Some? && u.BranchOf(f.src) == f.condition
  {
    assert forall x :: x in g.edges && x.dst == y ==> !Firm(g, s, n, x);
    f :| f in g.edges && f.dst == y && f.condition.Some? && u.BranchOf(f.src) == f.condition;
  }

  lemma TrimmedBranch(u: Run, f: Edge)
    requires f.condition.Some? && Trim(u).BranchOf(f.src) == f.condition
    ensures f.src in u.completed && u.BranchOf(f.src) == f.condition
  {
  }

  lemma BlankMisleads(g: Graph, s: Run, n: NodeId, u: Run, e: Edge)
    requires g.WellFormed() && Misleading(g, s, n, e)
    requires e.src in Gone(g, s, n) ==>
               forall f :: Misleading(g, s, n, f) ==> f.src in Gone(g, s, n) && f.dst != e.src
    requires IsRerun(g, Blank(g, e.src), s, n, u) && AllSettled(g, u) && OnlyConditional(g, u)
    ensures !NothingMisled(g, u)
  {
    var d := e.dst;
    SourceIsLeftOut(g, s, n, u, e);
    assert e.src in g.nodes && d in g.nodes && Leaves(g, Blank(g, e.src), s, n, u, e.src);
    ActiveBy(g, u, e);
    if Active(g, Trim(u), d) {
      var f := OnlyTaken(g, s, n, Trim(u), d);
      hide *;
      TrimmedBranch(u, f);
      TakenIsMisleading(g, e.src, s, n, u, f);
      assert false;
    }
  }

  /** The rerun, perhaps after some resumes, and the fresh run complete, and the nodes that both execute end
      alike. */
  ghost predicate Alike(g: Graph, s: Run, n: NodeId, o1: Oracle, resumes: nat, o2: Oracle, calls: seq<Call>)
    requires g.WellFormed()
  {
    var u, t := Continued(g, o1, s, n, resumes), Drive(g, o2, calls);
    OnlyResumes(calls) && u.status == Completed && t.status == Completed && SameOutcomes(Trim(u), t)
  }

  /** The rerun and the fresh run have executed, completed and skipped the same nodes. */
  ghost predicate Same(g: Graph, s: Run, n: NodeId, o1: Oracle, resumes: nat, o2: Oracle, calls: seq<Call>)
    requires g.WellFormed()
  {
    var u, t := Continued(g, o1, s, n, resumes), Drive(g, o2, calls);
    u.results.Keys == t.results.Keys && u.completed == t.completed && u.skipped == t.skipped
  }

  /** So unless a rerun is harmless, it can come out differently from a fresh run with the same outcomes, even
      with no pause in either. */
  lemma HarmfulRerunDiverges(g: Graph, s: Run, n: NodeId) returns (o1: Oracle, o2: Oracle)
    requires g.WellFormed() && !HasCycle(g.edges) && SkipOrdered(g)
    requires Inv(g, s) && OnlyConditional(g, s) && OnlyStopped(g, s) && n in g.nodes && !Harmless(g, s, n)
    ensures Alike(g, s, n, o1, 0, o2, [])
    ensures Obey(g, o1, s, Rerun(n)).results.Keys != Drive(g, o2, []).results.Keys
  {
    hide Inv, Loop, HasCycle, SkipOrdered, OnlyConditional, OnlyStopped, Harmless, Misleading, Gone, Graph.WellFormed,
         IsRerun, Drive, SameOutcomes, Trim, Reset, Downstream, NothingMisled;
    var e := FirstMisleading(g, s, n);
    o1 := Blank(g, e.src);
    var u := Continued(g, o1, s, n, 0);
    assert u == Obey(g, o1, s, Rerun(n)) == Loop(g, o1, Reset(g, s, n));
    InvReset(g, s, n);
    ResetRuns(g, s, n);
    BlankIsCalm(g, e.src);
    CalmCompletes(g, o1, Reset(g, s, n));
    RerunLeaves(g, o1, s, n, 0);
    ContinuedKinds(g, o1, s, n);
    BlankMisleads(g, s, n, u, e);
    o2 := Replay(u);
    ReplayedRun(g, u);
    NoCalls();
    AgreementIff(g, u, Drive(g, o2, []));
  }

  lemma ResetRuns(g: Graph, s: Run, n: NodeId)
    ensures Reset(g, s, n).status == Running
  {
  }

  lemma ContinuedKinds(g: Graph, o: Oracle, s: Run, n: NodeId)
    requires g.WellFormed() && OnlyConditional(g, s) && n in g.nodes
    ensures OnlyConditional(g, Continued(g, o, s, n, 0))
  {
    hide Loop, OnlyConditional, Reset;
    ResetKeepsKinds(g, s, n);
    LoopTraces(g, o, Reset(g, s, n));
  }

  /** A harmless rerun, of a run in any state and resumed at will, is like every fresh run with the same
      outcomes, resumed at will, in any acyclic graph. */
  lemma HarmlessRerunIsFresh(g: Graph, s: Run, n: NodeId, o1: Oracle, resumes: nat, o2: Oracle, calls: seq<Call>)
    requires g.WellFormed() && !HasCycle(g.edges) && n in g.nodes && Harmless(g, s, n)
    requires Inv(g, s) && OnlyStopped(g, s)
    requires Alike(g, s, n, o1, resumes, o2, calls)
    ensures Same(g, s, n, o1, resumes, o2, calls)
  {
    hide Inv, HasCycle, OnlyStopped, Harmless, Graph.WellFormed, IsRerun, Drive, Continued, SameOutcomes, Trim,
         NothingMisled;
    var u, t := Continued(g, o1, s, n, resumes), Drive(g, o2, calls);
    RerunLeaves(g, o1, s, n, resumes);
    HarmlessMisleadsNobody(g, o1, s, n, u);
    InvDrive(g, o2, calls);
    ResumesKeepBranchesCurrent(g, o2, calls);
    AgreementIff(g, u, t);
  }

  /** Exactly when a rerun is like a fresh run, as can be checked before the call and whatever state the run is
      in: for all behaviours of the nodes, and all resumes, the two agree if and only if no recorded branch is
      misleading. */
  lemma RerunIsFreshIff(g: Graph, o: Oracle, calls: seq<Call>, n: NodeId)
    requires g.WellFormed() && !HasCycle(g.edges) && SkipOrdered(g) && n in g.nodes
    ensures var s := Drive(g, o, calls);
            Harmless(g, s, n)
            <==> forall o1, resumes, o2, others ::
                   Alike(g, s, n, o1, resumes, o2, others) ==> Same(g, s, n, o1, resumes, o2, others)
  {
    var s := Drive(g, o, calls);
    InvDrive(g, o, calls);
    DriveKinds(g, o, calls);
    hide Alike, Same, Harmless, Inv, Drive, OnlyConditional, OnlyStopped, HasCycle, SkipOrdered, Graph.WellFormed, Obey;
    if Harmless(g, s, n) {
      forall o1, resumes, o2, others | Alike(g, s, n, o1, resumes, o2, others)
        ensures Same(g, s, n, o1, resumes, o2, others)
      {
        HarmlessRerunIsFresh(g, s, n, o1, resumes, o2, others);
      }
    } else {
      var o1, o2 := HarmfulRerunDiverges(g, s, n);
      NotSame(g, s, n, o1, o2);
      assert Alike(g, s, n, o1, 0, o2, []) && !Same(g, s, n, o1, 0, o2, []);
    }
  }

  lemma NotSame(g: Graph, s: Run, n: NodeId, o1: Oracle, o2: Oracle)
    requires g.WellFormed() && Obey(g, o1, s, Rerun(n)).results.Keys != Drive(g, o2, []).results.Keys
    ensures !Same(g, s, n, o1, 0, o2, [])
  {
  }
}
