/** What holds of a runtime between the commander's steps, and that every update keeps it. */
module RuntimeInvariant {
  import opened Common
  import opened Text
  import opened TaskGraphs
  import opened Evaluator
  import opened GraphRuntime

  ghost predicate Untouched(rt: Runtime, id: string) {
    id !in rt.attempts && id !in rt.reports && id !in rt.rework
  }

  ghost predicate Attempted(rt: Runtime, id: string, low: int, high: int) {
    id in rt.attempts && low <= rt.attempts[id] <= high
  }

  /** The verdict on the node's latest report. */
  ghost function Verdict(checks: TextChecks, rt: Runtime, n: TaskNode): Evaluation
    requires n.id in rt.reports
  {
    Evaluate(checks, rt.reports[n.id], Some(n), rt.reports)
  }

  ghost predicate NodeOk(checks: TextChecks, rt: Runtime, n: TaskNode) {
    n.id in rt.states &&
    match rt.states[n.id]
    case Pending =>
      && !BlockedInput(rt.states, n)
      && (|| Untouched(rt, n.id)
          || (Attempted(rt, n.id, 1, n.maxAttempts - 1) && n.id in rt.reports && n.id in rt.rework && InputsPassed(rt.states, n)))
    case Running =>
      && Attempted(rt, n.id, 1, n.maxAttempts) && InputsPassed(rt.states, n)
      && (n.id in rt.reports <==> rt.attempts[n.id] > 1)
      && (n.id in rt.rework <==> rt.attempts[n.id] > 1)
    case Passed =>
      && Attempted(rt, n.id, 1, n.maxAttempts) && InputsPassed(rt.states, n)
      && n.id in rt.reports && n.id !in rt.rework && Verdict(checks, rt, n).passed
    case Failed(reason) =>
      && Attempted(rt, n.id, n.maxAttempts, n.maxAttempts) && InputsPassed(rt.states, n)
      && n.id in rt.reports && !Verdict(checks, rt, n).passed
      && reason == Join(Verdict(checks, rt, n).reasons, "; ")
    case Skipped(reason) =>
      Untouched(rt, n.id) && BlockedInput(rt.states, n) && reason == DEPENDENCY_DID_NOT_PASS
  }

  ghost predicate KeysOk(g: TaskGraph, rt: Runtime) {
    && (forall id :: id in rt.states <==> HasNode(g, id))
    && (forall id :: id in rt.attempts || id in rt.reports || id in rt.rework ==> id in rt.states)
  }

  ghost predicate OnePerWorker(g: TaskGraph, states: map<string, NodeState>) {
    forall m, n :: (m in g.nodes && n in g.nodes && m.workerId == n.workerId
                    && InState(states, m.id, Running) && InState(states, n.id, Running)) ==> m == n
  }

  ghost predicate RuntimeOk(g: TaskGraph, checks: TextChecks, rt: Runtime) {
    && WellFormed(g) && KeysOk(g, rt) && OnePerWorker(g, rt.states)
    && forall n {:trigger NodeOk(checks, rt, n)} :: n in g.nodes ==> NodeOk(checks, rt, n)
  }

  lemma NewRuntimeOk(g: TaskGraph, checks: TextChecks)
    requires WellFormed(g)
    ensures RuntimeOk(g, checks, NewRuntime(g))
  {
    hide NodeOk, WellFormed;
    var rt := NewRuntime(g);
    assert forall id :: id in rt.states ==> rt.states[id] == Pending;
    forall n | n in g.nodes
      ensures NodeOk(checks, rt, n)
    {
      NewNodeOk(g, checks, n);
    }
  }

  lemma NewNodeOk(g: TaskGraph, checks: TextChecks, n: TaskNode)
    requires n in g.nodes
    ensures NodeOk(checks, NewRuntime(g), n)
  {
    var rt := NewRuntime(g);
    assert n.id in rt.states && rt.states[n.id] == Pending;
  }

  /** `after` keeps what `before` settled: passed nodes with their reports, and blocking nodes. */
  ghost predicate KeepsSettled(before: Runtime, after: Runtime) {
    && (forall id :: InState(before.states, id, Passed) ==>
          && InState(after.states, id, Passed)
          && (id in before.reports <==> id in after.reports)
          && (id in before.reports ==> before.reports[id] == after.reports[id]))
    && (forall id :: Blocks(before.states, id) ==> Blocks(after.states, id))
  }

  ghost predicate SameEntry(before: Runtime, after: Runtime, id: string) {
    && (id in before.attempts <==> id in after.attempts)
    && (id in before.attempts ==> before.attempts[id] == after.attempts[id])
    && (id in before.reports <==> id in after.reports)
    && (id in before.reports ==> before.reports[id] == after.reports[id])
    && (id in before.rework <==> id in after.rework)
    && (id in before.rework ==> before.rework[id] == after.rework[id])
  }

  lemma NodeFrame(checks: TextChecks, before: Runtime, after: Runtime, n: TaskNode)
    requires NodeOk(checks, before, n) && KeepsSettled(before, after) && SameEntry(before, after, n.id)
    requires n.id in after.states && after.states[n.id] == before.states[n.id]
    requires after.states[n.id].Pending? ==> !BlockedInput(after.states, n)
    ensures NodeOk(checks, after, n)
  {
    if InputsPassed(before.states, n) && n.id in before.reports {
      EvaluateFrame(checks, before.reports[n.id], n, before.reports, after.reports);
    }
  }

  // ---------------------------------------------------------------- dispatch

  /**
   * Dispatching a runnable node of an idle worker counts one attempt, never past the node's limit
   * (so the 8-bit count does not wrap), carries an instruction exactly on a rework, and keeps the
   * invariant.
   */
  lemma DispatchKeeps(g: TaskGraph, checks: TextChecks, rt: Runtime, n: TaskNode)
    requires RuntimeOk(g, checks, rt) && n in g.nodes
    requires Runnable(rt.states, n) && !WorkerBusy(g, rt.states, n.workerId)
    ensures var a := BuildAssignment(g, rt, n);
            && a.attempt == AttemptsOf(rt, n.id) + 1 <= n.maxAttempts
            && (a.attempt > 1 <==> a.rework.Some?)
            && RuntimeOk(g, checks, MarkRunning(rt, a))
            && KeepsSettled(rt, MarkRunning(rt, a))
  {
    NodeIdentity(g);
    MarkEffect(g, rt, n);
    assert NodeOk(checks, rt, n) && 1 <= n.maxAttempts;
    DispatchedNodeOk(g, checks, rt, n);
    hide NodeOk, WellFormed, Runnable, BuildAssignment, MarkRunning, KeysOk, KeepsSettled, WorkerBusy, OnePerWorker,
        AttemptsOf;
    var after := MarkRunning(rt, BuildAssignment(g, rt, n));
    forall m | m in g.nodes && m.id != n.id
      ensures NodeOk(checks, after, m)
    {
      BystanderOfDispatch(g, checks, rt, n, m);
    }
    OneMoreRunning(g, rt.states, n);
  }

  lemma MarkEffect(g: TaskGraph, rt: Runtime, n: TaskNode)
    requires KeysOk(g, rt) && n in g.nodes
    ensures var after := MarkRunning(rt, BuildAssignment(g, rt, n));
            after.states == rt.states[n.id := Running] && KeysOk(g, after)
  {
  }

  lemma DispatchedNodeOk(g: TaskGraph, checks: TextChecks, rt: Runtime, n: TaskNode)
    requires NodeOk(checks, rt, n) && Runnable(rt.states, n) && 1 <= n.maxAttempts
    ensures var a := BuildAssignment(g, rt, n);
            && a.attempt == AttemptsOf(rt, n.id) + 1 <= n.maxAttempts
            && (a.attempt > 1 <==> a.rework.Some?)
            && NodeOk(checks, MarkRunning(rt, a), n)
            && KeepsSettled(rt, MarkRunning(rt, a))
  {
  }

  lemma BystanderOfDispatch(g: TaskGraph, checks: TextChecks, rt: Runtime, n: TaskNode, m: TaskNode)
    requires NodeOk(checks, rt, m) && m.id != n.id && InState(rt.states, n.id, Pending)
    requires KeepsSettled(rt, MarkRunning(rt, BuildAssignment(g, rt, n)))
    ensures NodeOk(checks, MarkRunning(rt, BuildAssignment(g, rt, n)), m)
  {
    var after := MarkRunning(rt, BuildAssignment(g, rt, n));
    NodeFrame(checks, rt, after, m);
  }

  lemma OneMoreRunning(g: TaskGraph, states: map<string, NodeState>, n: TaskNode)
    requires WellFormed(g) && OnePerWorker(g, states) && n in g.nodes && !WorkerBusy(g, states, n.workerId)
    ensures OnePerWorker(g, states[n.id := Running])
  {
    NodeIdentity(g);
  }

  // ---------------------------------------------------------------- reports

  /** A report on another node leaves this one alone, except that it may skip it while pending. */
  ghost predicate Bystander(before: Runtime, after: Runtime, id: string) {
    && SameEntry(before, after, id)
    && (id in before.states <==> id in after.states)
    && (id in before.states ==>
        || after.states[id] == before.states[id]
        || (before.states[id].Pending? && after.states[id] == Skipped(DEPENDENCY_DID_NOT_PASS)))
  }

  /** The effect of one report: the reported node is judged, the others are bystanders. */
  ghost predicate ReportEffect(before: Runtime, after: Runtime, id: string) {
    && before.states.Keys == after.states.Keys
    && before.attempts == after.attempts
    && id in after.states && (after.states[id].Passed? || after.states[id].Pending? || after.states[id].Failed?)
    && id in before.states
    && forall x :: x != id ==> Bystander(before, after, x)
  }

  ghost predicate OutcomeShown(after: Runtime, id: string, outcome: Outcome) {
    match outcome
    case OutcomePassed(_) => InState(after.states, id, Passed)
    case OutcomeRework(_, instruction) => InState(after.states, id, Pending) && ReworkOf(after, id) == Some(instruction)
    case OutcomeFailed(_) => id in after.states && after.states[id].Failed?
  }

  /** What the skip sweep leaves: nothing pending behind a blocking input, and nothing skipped otherwise. */
  ghost predicate SkipsSettled(g: TaskGraph, before: Runtime, after: Runtime, id: string) {
    forall m :: m in g.nodes && m.id != id && InState(before.states, m.id, Pending) && !BlockedInput(before.states, m) ==>
      (InState(after.states, m.id, Pending) <==> !BlockedInput(after.states, m))
  }

  /**
   * A report on a running node keeps the invariant. It passes the node, sends it back with an
   * instruction while attempts remain, or fails it and skips what now cannot run.
   */
  lemma ReportKeeps(g: TaskGraph, checks: TextChecks, rt: Runtime, n: TaskNode, report: WorkerReport)
    requires RuntimeOk(g, checks, rt) && n in g.nodes
    requires InState(rt.states, n.id, Running) && report.nodeId == n.id
    ensures var (after, outcome) := ApplyReport(g, checks, rt, report);
            && RuntimeOk(g, checks, after) && ReportEffect(rt, after, n.id)
            && after.reports == rt.reports[n.id := report]
            && OutcomeShown(after, n.id, outcome)
  {
    hide NodeOk, ApplyReport, BlockedInput, InputsPassed, KeepsSettled, ReportEffect, SkipsSettled, WellFormed;
    NodeIdentity(g);
    assert NodeOk(checks, rt, n);
    var (after, outcome) := ApplyReport(g, checks, rt, report);
    JudgedEffect(g, checks, rt, n, report);
    JudgedSkips(g, checks, rt, n, report);
    JudgedNodeOk(g, checks, rt, n, report);
    forall m | m in g.nodes
      ensures NodeOk(checks, after, m)
    {
      if m.id != n.id {
        BystanderOk(g, checks, rt, after, n, m);
      }
    }
    EffectKeepsRest(g, rt, after, n);
  }

  lemma JudgedEffect(g: TaskGraph, checks: TextChecks, rt: Runtime, n: TaskNode, report: WorkerReport)
    requires InState(rt.states, n.id, Running) && report.nodeId == n.id && FindNode(g.nodes, n.id) == Some(n)
    ensures var (after, outcome) := ApplyReport(g, checks, rt, report);
            && ReportEffect(rt, after, n.id)
            && after.reports == rt.reports[n.id := report]
            && OutcomeShown(after, n.id, outcome)
  {
    hide BlockedIds, Evaluate;
  }

  lemma JudgedSkips(g: TaskGraph, checks: TextChecks, rt: Runtime, n: TaskNode, report: WorkerReport)
    requires WellFormed(g) && InState(rt.states, n.id, Running) && report.nodeId == n.id && FindNode(g.nodes, n.id) == Some(n)
    ensures SkipsSettled(g, rt, ApplyReport(g, checks, rt, report).0, n.id)
  {
    hide WellFormed;
    var (after, outcome) := ApplyReport(g, checks, rt, report);
    if outcome.OutcomeFailed? {
      var failed := rt.states[n.id := Failed(Join(Evaluate(checks, report, Some(n), rt.reports).reasons, "; "))];
      BlockedIdsAbsorb(g, failed);
      BlockedIdsFounded(g, failed);
      hide Evaluate, BlockedIds;
      SweepSettles(g, rt, after, failed, BlockedIds(g, failed), n.id);
    } else {
      hide Evaluate;
      forall m | m in g.nodes && m.id != n.id && InState(rt.states, m.id, Pending) && !BlockedInput(rt.states, m)
        ensures InState(after.states, m.id, Pending) && !BlockedInput(after.states, m)
      {
      }
    }
  }

  /** Whatever is blocked has an input that is blocking, or pending and blocked. */
  ghost predicate Founded(g: TaskGraph, states: map<string, NodeState>, blocked: set<string>) {
    forall m :: m in g.nodes && m.id in blocked ==>
      exists r :: r in m.inputRefs && r in states && (states[r].Blocking() || (states[r].Pending? && r in blocked))
  }

  lemma BlockedIdsFounded(g: TaskGraph, states: map<string, NodeState>)
    requires WellFormed(g)
    ensures Founded(g, states, BlockedIds(g, states))
  {
    NodeIdentity(g);
    hide WellFormed;
    forall m | m in g.nodes && m.id in BlockedIds(g, states)
      ensures exists r :: r in m.inputRefs && r in states && (states[r].Blocking() || (states[r].Pending? && r in BlockedIds(g, states)))
    {
      var k: nat :| BlockedWithin(g, states, m.id, k);
      var n, r :| n in g.nodes && n.id == m.id && r in n.inputRefs && r in states
                  && (states[r].Blocking() || (states[r].Pending? && BlockedWithin(g, states, r, k - 1)));
      assert n == m;
      assert states[r].Pending? && !states[r].Blocking() ==> r in BlockedIds(g, states);
    }
  }

  lemma SweepSettles(g: TaskGraph, before: Runtime, after: Runtime, failed: map<string, NodeState>,
      blocked: set<string>, id: string)
    requires Absorbs(g, failed, blocked) && Founded(g, failed, blocked)
    requires id in before.states && id in failed && failed == before.states[id := failed[id]]
    requires after.states == map x | x in failed :: if failed[x].Pending? && x in blocked then Skipped(DEPENDENCY_DID_NOT_PASS) else failed[x]
    ensures SkipsSettled(g, before, after, id)
  {
    forall m | m in g.nodes && m.id != id && InState(before.states, m.id, Pending)
      ensures InState(after.states, m.id, Pending) <==> !BlockedInput(after.states, m)
    {
      if m.id in blocked {
        var r :| r in m.inputRefs && r in failed && (failed[r].Blocking() || (failed[r].Pending? && r in blocked));
        assert Blocks(after.states, r);
      } else {
        forall r | r in m.inputRefs
          ensures !Blocks(after.states, r)
        {
        }
      }
    }
  }

  lemma JudgedNodeOk(g: TaskGraph, checks: TextChecks, rt: Runtime, n: TaskNode, report: WorkerReport)
    requires NodeOk(checks, rt, n) && InState(rt.states, n.id, Running) && report.nodeId == n.id
    requires FindNode(g.nodes, n.id) == Some(n)
    requires ReportEffect(rt, ApplyReport(g, checks, rt, report).0, n.id)
    ensures NodeOk(checks, ApplyReport(g, checks, rt, report).0, n)
  {
    var (after, outcome) := ApplyReport(g, checks, rt, report);
    EffectKeepsSettled(rt, after, n.id);
    EvaluateFrame(checks, report, n, rt.reports, after.reports);
    hide Evaluate, BlockedIds, ReportEffect;
    if InState(after.states, n.id, Pending) {
      forall r | r in n.inputRefs
        ensures !Blocks(after.states, r)
      {
        assert InState(rt.states, r, Passed);
      }
    }
  }

  lemma EffectKeepsSettled(rt: Runtime, after: Runtime, id: string)
    requires InState(rt.states, id, Running) && ReportEffect(rt, after, id)
    ensures KeepsSettled(rt, after)
  {
    forall x
      ensures Blocks(rt.states, x) ==> Blocks(after.states, x)
      ensures InState(rt.states, x, Passed) ==> InState(after.states, x, Passed) && SameEntry(rt, after, x)
    {
      assert x != id ==> Bystander(rt, after, x);
    }
  }

  lemma BystanderOk(g: TaskGraph, checks: TextChecks, rt: Runtime, after: Runtime, n: TaskNode, m: TaskNode)
    requires NodeOk(checks, rt, m) && m in g.nodes && m.id != n.id && InState(rt.states, n.id, Running)
    requires ReportEffect(rt, after, n.id) && SkipsSettled(g, rt, after, n.id)
    ensures NodeOk(checks, after, m)
  {
    EffectKeepsSettled(rt, after, n.id);
    assert Bystander(rt, after, m.id);
    hide ReportEffect;
    if after.states[m.id] == rt.states[m.id] {
      NodeFrame(checks, rt, after, m);
    } else {
      assert BlockedInput(after.states, m);
    }
  }

  lemma EffectKeepsRest(g: TaskGraph, rt: Runtime, after: Runtime, n: TaskNode)
    requires KeysOk(g, rt) && OnePerWorker(g, rt.states) && n in g.nodes && ReportEffect(rt, after, n.id)
    ensures KeysOk(g, after) && OnePerWorker(g, after.states)
  {
    forall x
      ensures x in after.states <==> HasNode(g, x)
      ensures x in after.attempts || x in after.reports || x in after.rework ==> x in after.states
      ensures InState(after.states, x, Running) ==> InState(rt.states, x, Running)
    {
      assert x != n.id ==> Bystander(rt, after, x);
    }
  }
}
