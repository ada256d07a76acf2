/** The dispatch log: who is dispatched when, and what a loop leaves alone. */
module RunLog {
  import opened Sequences
  import opened Graphs
  import opened Runs
  import opened RunInvariant
  import opened RunTheorems

  /** A dispatch that started from s or later: the node was not done, all its plain sources were. */
  ghost predicate EntryOk(g: Graph, s: Run, d: Dispatched) {
    && d.node in g.nodes && d.node !in d.done && s.Done() <= d.done
    && forall e :: e in g.edges && e.dst == d.node && e.condition.None? ==> e.src in d.done
  }

  /** Whatever was done at s stays as it was. */
  ghost predicate Keeps(s: Run, t: Run) {
    && s.completed <= t.completed && s.skipped <= t.skipped
    && (forall n :: n in s.completed ==> n !in t.skipped)
    && (forall n :: n in s.skipped ==> n !in t.completed)
    && (forall n :: n in s.Done() ==> t.BranchOf(n) == s.BranchOf(n))
  }

  /** What lies between two states of one loop: the new log entries are in order, every node in them is
      done before the next entry, and only they have new results. */
  ghost predicate Progress(g: Graph, s: Run, t: Run) {
    && s.completed !! s.skipped && t.completed !! t.skipped
    && Keeps(s, t)
    && s.log <= t.log
    && (forall i :: |s.log| <= i < |t.log| ==> EntryOk(g, s, t.log[i]))
    && (forall i, j :: |s.log| <= i < j < |t.log| ==> t.log[i].node in t.log[j].done)
    && (forall i :: |s.log| <= i < |t.log| ==>
          t.log[i].node in t.Done() || (i == |t.log| - 1 && t.status in {WaitingApproval, Failed}))
    && (forall n :: n in t.results && (forall i :: |s.log| <= i < |t.log| ==> t.log[i].node != n) ==>
          n in s.results && t.results[n] == s.results[n])
    && s.results.Keys <= t.results.Keys
    && (forall i :: |s.log| <= i < |t.log| ==> t.log[i].node in t.results)
  }

  lemma ProgressRefl(g: Graph, s: Run)
    requires s.completed !! s.skipped
    ensures Progress(g, s, s)
  {
  }

  lemma ProgressEntries(g: Graph, s: Run, t: Run, u: Run)
    requires Progress(g, s, t) && Progress(g, t, u) && t.status == Running
    ensures forall i :: |s.log| <= i < |u.log| ==> EntryOk(g, s, u.log[i])
    ensures forall i, j :: |s.log| <= i < j < |u.log| ==> u.log[i].node in u.log[j].done
    ensures forall i :: |s.log| <= i < |u.log| ==>
              u.log[i].node in u.Done() || (i == |u.log| - 1 && u.status in {WaitingApproval, Failed})
  {
    assert forall i :: 0 <= i < |t.log| ==> u.log[i] == t.log[i];
    forall i | |s.log| <= i < |u.log| ensures EntryOk(g, s, u.log[i]) {
      if i < |t.log| { assert EntryOk(g, s, t.log[i]); } else { assert EntryOk(g, t, u.log[i]); }
    }
    forall i, j | |s.log| <= i < j < |u.log| ensures u.log[i].node in u.log[j].done {
      if j < |t.log| {
        assert t.log[i].node in t.log[j].done;
      } else if i < |t.log| {
        assert t.log[i].node in t.Done() && EntryOk(g, t, u.log[j]);
      }
    }
  }

  lemma ProgressResults(g: Graph, s: Run, t: Run, u: Run)
    requires Progress(g, s, t) && Progress(g, t, u)
    ensures forall n :: n in u.results && (forall i :: |s.log| <= i < |u.log| ==> u.log[i].node != n) ==>
              n in s.results && u.results[n] == s.results[n]
    ensures forall i :: |s.log| <= i < |u.log| ==> u.log[i].node in u.results
  {
    assert forall i :: 0 <= i < |t.log| ==> u.log[i] == t.log[i];
    forall n | n in u.results && (forall i :: |s.log| <= i < |u.log| ==> u.log[i].node != n)
      ensures n in s.results && u.results[n] == s.results[n]
    {
      assert forall i :: |t.log| <= i < |u.log| ==> u.log[i].node != n;
      assert n in t.results && u.results[n] == t.results[n];
      assert forall i :: |s.log| <= i < |t.log| ==> t.log[i].node != n;
    }
  }

  lemma ProgressTrans(g: Graph, s: Run, t: Run, u: Run)
    requires Progress(g, s, t) && Progress(g, t, u) && t.status == Running
    ensures Progress(g, s, u)
  {
    ProgressEntries(g, s, t, u);
    ProgressResults(g, s, t, u);
  }

  lemma ReadySourcesDone(g: Graph, s: Run, n: NodeId)
    requires s.pending == None && n in g.nodes && IsReady(g, s, n)
    ensures EntryOk(g, s, Dispatched(n, s.Done()))
  {
    forall e | e in g.edges && e.dst == n && e.condition.None? ensures e.src in s.Done() {
      assert e.src in Required(g, s, n);
    }
  }

  lemma OneEntry(g: Graph, o: Oracle, s: Run, n: NodeId)
    requires s.completed !! s.skipped && s.status == Running && n in g.nodes
    requires EntryOk(g, s, Dispatched(n, s.Done()))
    ensures Progress(g, s, Dispatch(g, o, s, n))
  {
    hide EntryOk;
    var t := Dispatch(g, o, s, n);
    assert n !in s.Done() by { EntryNode(g, s, Dispatched(n, s.Done())); }
    assert t.log == s.log + [Dispatched(n, s.Done())];
    assert t.results.Keys == s.results.Keys + {n};
    assert Keeps(s, t);
    assert t.log[|s.log|].node == n;
  }

  lemma DispatchProgress(g: Graph, o: Oracle, s: Run, n: NodeId)
    requires Inv(g, s) && s.status == Running && n in g.nodes && IsReady(g, s, n)
    ensures Progress(g, s, Dispatch(g, o, s, n))
  {
    ReadySourcesDone(g, s, n);
    InvDisjoint(g, s);
    OneEntry(g, o, s, n);
  }

  lemma SkipProgress(g: Graph, s: Run)
    requires g.WellFormed() && Inv(g, s) && s.status == Running
    ensures Progress(g, s, SkipPass(g, s))
  {
    hide Justified, PassedOver, Required, Preds, SkipFrom;
    PassKeeps(g, s);
  }

  lemma {:induction false} WaveProgress(g: Graph, o: Oracle, s: Run, todo: seq<NodeId>)
    requires Inv(g, s) && s.status == Running && AllReady(g, s, todo)
    ensures Progress(g, s, Wave(g, o, s, todo))
    decreases |todo|
  {
    hide Inv, Progress, Dispatch, IsReady;
    if todo == [] {
      InvDisjoint(g, s);
      ProgressRefl(g, s);
    } else {
      var t := Dispatch(g, o, s, todo[0]);
      InvDisjoint(g, s);
      DispatchProgress(g, o, s, todo[0]);
      InvDispatch(g, o, s, todo[0]);
      if t.status == Running {
        AllReadyNext(g, o, s, todo);
        WaveProgress(g, o, t, todo[1..]);
        ProgressTrans(g, s, t, Wave(g, o, t, todo[1..]));
      }
    }
  }

  lemma InvDisjoint(g: Graph, s: Run)
    requires Inv(g, s)
    ensures s.completed !! s.skipped && (s.status == Running ==> s.pending == None)
  {
  }

  /** One execution of the scheduling loop dispatches each node at most once, only while it is undone and
      only after all its plain sources are done; what was done before is neither dispatched nor changed. */
  lemma {:induction false} LoopProgress(g: Graph, o: Oracle, s: Run)
    requires g.WellFormed() && Inv(g, s) && s.status == Running
    ensures Progress(g, s, Loop(g, o, s))
    decreases Undone(g, s)
  {
    hide Ready, Wave, SkipFrom, Inv, Progress, Graph.WellFormed;
    var t := SkipPass(g, s);
    PassKeeps(g, s);
    SkipProgress(g, s);
    var ready := Ready(g, t);
    if ready == [] {
      ConcludeProgress(g, s, t);
    } else {
      ReadyList(g, t);
      InvWave(g, o, t, ready);
      WaveProgress(g, o, t, ready);
      var u := Wave(g, o, t, ready);
      ProgressTrans(g, s, t, u);
      if u.status == Running {
        LoopDecreases(g, o, s);
        LoopProgress(g, o, u);
        ProgressTrans(g, s, u, Loop(g, o, u));
      }
    }
  }

  lemma ConcludeProgress(g: Graph, s: Run, t: Run)
    requires Progress(g, s, t) && t.status == Running
    ensures Progress(g, s, Conclude(g, t))
  {
    hide EntryOk, Progress;
    EndProgress(g, s, t, Conclude(g, t).status, Conclude(g, t).error);
  }

  lemma EndProgress(g: Graph, s: Run, t: Run, status: RunStatus, error: RunError)
    requires Progress(g, s, t) && t.status == Running
    ensures Progress(g, s, t.(status := status, error := error))
  {
    hide EntryOk;
  }

  lemma ProgressNoRepeat(g: Graph, s: Run, t: Run, i: nat, j: nat)
    requires Progress(g, s, t) && |s.log| <= i < j < |t.log|
    ensures t.log[i].node != t.log[j].node
  {
    assert EntryOk(g, s, t.log[j]);
  }

  /** The run paused for an approval right behind the i-th dispatch. */
  ghost predicate PausedAt(g: Graph, o: Oracle, calls: seq<Call>, i: nat)
    requires g.WellFormed()
  {
    exists k :: 0 <= k <= |calls|
      && Drive(g, o, calls[..k]).status == WaitingApproval && |Drive(g, o, calls[..k]).log| == i + 1
  }

  lemma PausedBefore(g: Graph, o: Oracle, calls: seq<Call>, i: nat)
    requires g.WellFormed() && calls != [] && PausedAt(g, o, calls[..|calls| - 1], i)
    ensures PausedAt(g, o, calls, i)
  {
    var before := calls[..|calls| - 1];
    var k :| 0 <= k <= |before|
      && Drive(g, o, before[..k]).status == WaitingApproval && |Drive(g, o, before[..k]).log| == i + 1;
    assert before[..k] == calls[..k];
  }

  lemma PausedNow(g: Graph, o: Oracle, calls: seq<Call>)
    requires g.WellFormed() && Drive(g, o, calls).status == WaitingApproval && Drive(g, o, calls).log != []
    ensures PausedAt(g, o, calls, |Drive(g, o, calls).log| - 1)
  {
    assert calls[..|calls|] == calls;
  }

  /** A dispatched node is done, or the run paused right behind its dispatch, or failed there for good. */
  ghost predicate Accounted(g: Graph, o: Oracle, calls: seq<Call>, i: nat)
    requires g.WellFormed()
  {
    var s := Drive(g, o, calls);
    i < |s.log| ==>
      s.log[i].node in s.Done() || PausedAt(g, o, calls, i) || (s.status == Failed && i == |s.log| - 1)
  }

  lemma {:induction false} AllAccounted(g: Graph, o: Oracle, calls: seq<Call>, i: nat)
    requires g.WellFormed() && OnlyResumes(calls)
    ensures Accounted(g, o, calls, i)
    decreases |calls|
  {
    var t := Drive(g, o, calls);
    if i < |t.log| {
      if calls == [] {
        FreshInv(g);
        LoopProgress(g, o, FRESH);
        InvLoop(g, o, FRESH);
        LoopAccounted(g, o, calls, FRESH, i);
      } else {
        var before := calls[..|calls| - 1];
        var s := Drive(g, o, before);
        AllAccounted(g, o, before, i);
        InvDrive(g, o, before);
        if PausedAt(g, o, before, i) {
          PausedBefore(g, o, calls, i);
        } else if s.status == WaitingApproval {
          InvResumed(g, s);
          LoopProgress(g, o, Resumed(s));
          InvLoop(g, o, Resumed(s));
          LoopAccounted(g, o, calls, Resumed(s), i);
        }
      }
    }
  }

  lemma LoopAccounted(g: Graph, o: Oracle, calls: seq<Call>, s: Run, i: nat)
    requires g.WellFormed() && Progress(g, s, Drive(g, o, calls)) && i < |Drive(g, o, calls).log|
    requires i < |s.log| ==> s.log[i].node in s.Done()
    ensures Accounted(g, o, calls, i)
  {
    hide Drive, EntryOk;
    var t := Drive(g, o, calls);
    if i == |t.log| - 1 && t.status == WaitingApproval {
      PausedNow(g, o, calls);
    }
  }

  /** In a run without reruns, however often it is resumed, a node is dispatched again only if the run had
      paused for an approval right behind its earlier dispatch. */
  lemma {:induction false} RepeatedOnlyAfterPause(g: Graph, o: Oracle, calls: seq<Call>, i: nat, j: nat)
    requires g.WellFormed() && OnlyResumes(calls)
    requires i < j < |Drive(g, o, calls).log|
    requires Drive(g, o, calls).log[i].node == Drive(g, o, calls).log[j].node
    ensures PausedAt(g, o, calls, i)
    decreases |calls|
  {
    hide Inv, Loop, EntryOk, Graph.WellFormed;
    if calls == [] {
      FreshInv(g);
      LoopProgress(g, o, FRESH);
      ProgressNoRepeat(g, FRESH, Drive(g, o, calls), i, j);
      assert false;
    }
    var before := calls[..|calls| - 1];
    var s := Drive(g, o, before);
    InvDrive(g, o, before);
    if s.status != WaitingApproval || j < |s.log| {
      if s.status == WaitingApproval {
        InvResumed(g, s);
        LoopProgress(g, o, Resumed(s));
      }
      RepeatedOnlyAfterPause(g, o, before, i, j);
      PausedBefore(g, o, calls, i);
    } else {
      InvResumed(g, s);
      LoopProgress(g, o, Resumed(s));
      if i >= |s.log| {
        ProgressNoRepeat(g, Resumed(s), Drive(g, o, calls), i, j);
        assert false;
      }
      EntryNode(g, Resumed(s), Drive(g, o, calls).log[j]);
      AllAccounted(g, o, before, i);
      PausedBefore(g, o, calls, i);
    }
  }

  lemma InvResumed(g: Graph, t: Run)
    requires Inv(g, t) && t.status == WaitingApproval
    ensures Inv(g, Resumed(t))
  {
    OnlyProgressMatters(g, t, Resumed(t));
  }

  lemma EntryNode(g: Graph, s: Run, d: Dispatched)
    requires EntryOk(g, s, d)
    ensures d.node !in s.Done()
  {
  }

  /** A rerun leaves everything that is not downstream of its node alone: same outcome, same result, same
      branch, and no new dispatch. */
  lemma RerunTouchesOnlyDownstream(g: Graph, o: Oracle, s: Run, n: NodeId, m: NodeId)
    requires g.WellFormed() && Inv(g, s) && n in g.nodes
    requires m in s.Done() && m != n && m !in Downstream(g, n)
    ensures var t := Obey(g, o, s, Rerun(n));
            && (m in t.completed <==> m in s.completed) && (m in t.skipped <==> m in s.skipped)
            && (m in t.results <==> m in s.results)
            && (m in s.results ==> t.results[m] == s.results[m])
            && t.BranchOf(m) == s.BranchOf(m)
            && s.log <= t.log
            && forall i :: |s.log| <= i < |t.log| ==> t.log[i].node != m
  {
    hide Inv, Progress, Loop, Graph.WellFormed, Downstream;
    InvReset(g, s, n);
    LoopProgress(g, o, Reset(g, s, n));
    DoneIsLeftAlone(g, Reset(g, s, n), Loop(g, o, Reset(g, s, n)), m);
  }

  lemma DoneIsLeftAlone(g: Graph, s: Run, t: Run, m: NodeId)
    requires Progress(g, s, t) && m in s.Done()
    ensures (m in t.completed <==> m in s.completed) && (m in t.skipped <==> m in s.skipped)
    ensures m in t.results <==> m in s.results
    ensures m in s.results ==> t.results[m] == s.results[m]
    ensures t.BranchOf(m) == s.BranchOf(m)
    ensures s.log <= t.log
    ensures forall i :: |s.log| <= i < |t.log| ==> t.log[i].node != m
  {
    forall i | |s.log| <= i < |t.log| ensures t.log[i].node != m {
      assert EntryOk(g, s, t.log[i]);
    }
  }

  /** Without reruns the executed nodes are the dispatched ones. */
  lemma {:induction false} ExecutedIsLogged(g: Graph, o: Oracle, calls: seq<Call>)
    requires g.WellFormed() && OnlyResumes(calls)
    ensures Drive(g, o, calls).results.Keys == set d | d in Drive(g, o, calls).log :: d.node
    decreases |calls|
  {
    hide Inv, Loop, Graph.WellFormed;
    if calls == [] {
      FreshInv(g);
      LoopProgress(g, o, FRESH);
      LoggedStep(g, FRESH, Loop(g, o, FRESH));
    } else {
      var s := Drive(g, o, calls[..|calls| - 1]);
      ExecutedIsLogged(g, o, calls[..|calls| - 1]);
      InvDrive(g, o, calls[..|calls| - 1]);
      if s.status == WaitingApproval {
        InvResumed(g, s);
        LoopProgress(g, o, Resumed(s));
        LoggedStep(g, Resumed(s), Loop(g, o, Resumed(s)));
      }
    }
  }

  lemma FreshInv(g: Graph)
    ensures Inv(g, FRESH)
  {
  }

  lemma LoggedStep(g: Graph, s: Run, t: Run)
    requires Progress(g, s, t) && s.results.Keys == set d | d in s.log :: d.node
    ensures t.results.Keys == set d | d in t.log :: d.node
  {
    forall n | n in t.results ensures exists d :: d in t.log && d.node == n {
      if forall i :: |s.log| <= i < |t.log| ==> t.log[i].node != n {
        assert n in s.results.Keys;
        var d :| d in s.log && d.node == n;
        var k :| 0 <= k < |s.log| && s.log[k] == d;
        assert t.log[k] == d;
      } else {
        var i :| |s.log| <= i < |t.log| && t.log[i].node == n;
        assert t.log[i] in t.log;
      }
    }
    forall d | d in t.log ensures d.node in t.results {
      var k :| 0 <= k < |t.log| && t.log[k] == d;
      if k < |s.log| {
        assert s.log[k] == d && d.node in s.results.Keys;
      }
    }
  }
}
