/** The runtime of one task graph: node states, attempts, reports and rework instructions. */
module GraphRuntime {
  import opened Common
  import opened Text
  import opened TaskGraphs
  import opened Evaluator

  datatype NodeState = Pending | Running | Passed | Failed(reason: string) | Skipped(reason: string)
  {
    predicate Final() {
      Passed? || Failed? || Skipped?
    }

    /** The states from which a dependent node can no longer be run. */
    predicate Blocking() {
      Failed? || Skipped?
    }
  }

  datatype Outcome =
    | OutcomePassed(evaluation: Evaluation)
    | OutcomeRework(evaluation: Evaluation, instruction: string)
    | OutcomeFailed(evaluation: Evaluation)

  datatype Runtime = Runtime(
    attempts: map<string, u8>, states: map<string, NodeState>, reports: map<string, WorkerReport>,
    rework: map<string, string>, evaluations: seq<Evaluation>)

  const NODE_NOT_FOUND := "node not found"
  const DEPENDENCY_DID_NOT_PASS := "dependency did not pass"
  const FILL_IN := "请补齐节点产物，避免空内容和占位内容。"

  // ---------------------------------------------------------------- specification functions

  predicate InState(states: map<string, NodeState>, id: string, s: NodeState) {
    id in states && states[id] == s
  }

  predicate Blocks(states: map<string, NodeState>, id: string) {
    id in states && states[id].Blocking()
  }

  predicate InputsPassed(states: map<string, NodeState>, n: TaskNode) {
    forall r :: r in n.inputRefs ==> InState(states, r, Passed)
  }

  predicate WorkerBusy(g: TaskGraph, states: map<string, NodeState>, w: string) {
    exists n :: n in g.nodes && n.workerId == w && InState(states, n.id, Running)
  }

  /** Pending, with every input passed. */
  predicate Runnable(states: map<string, NodeState>, n: TaskNode) {
    InState(states, n.id, Pending) && InputsPassed(states, n)
  }

  predicate AmongWorkers(nodes: seq<TaskNode>, w: string) {
    exists n :: n in nodes && n.workerId == w
  }

  /** What the readiness filter keeps of the first `k` nodes. */
  function ReadyUpTo(g: TaskGraph, states: map<string, NodeState>, k: nat): seq<TaskNode>
    requires k <= |g.nodes|
  {
    if k == 0 then []
    else
      var earlier := ReadyUpTo(g, states, k - 1);
      var n := g.nodes[k - 1];
      if Runnable(states, n) && !WorkerBusy(g, states, n.workerId) && !AmongWorkers(earlier, n.workerId)
      then earlier + [n]
      else earlier
  }

  function ReadyNodes(g: TaskGraph, states: map<string, NodeState>): seq<TaskNode> {
    ReadyUpTo(g, states, |g.nodes|)
  }

  function AttemptsOf(rt: Runtime, id: string): u8 {
    if id in rt.attempts then rt.attempts[id] else 0
  }

  function InputReports(refs: seq<string>, reports: map<string, WorkerReport>): seq<WorkerReport> {
    if refs == [] then []
    else
      var earlier := InputReports(refs[..|refs| - 1], reports);
      var ref := refs[|refs| - 1];
      if ref in reports then earlier + [reports[ref]] else earlier
  }

  function ReworkOf(rt: Runtime, id: string): Option<string> {
    if id in rt.rework then Some(rt.rework[id]) else None
  }

  /** The assignment of attempt number `attempt`, with the runtime's inputs and instruction. */
  function AssignmentFor(g: TaskGraph, rt: Runtime, n: TaskNode, attempt: u8): WorkerAssignment {
    WorkerAssignment(g.graphId, n.id, g.graphId + ":" + n.id, n.workerId, n.role, attempt, n.objective,
                     InputReports(n.inputRefs, rt.reports), ReworkOf(rt, n.id))
  }

  /** The next attempt number in 8-bit arithmetic. */
  function NextAttempt(attempt: u8): u8 {
    (attempt + 1) % 256
  }

  function BuildAssignment(g: TaskGraph, rt: Runtime, n: TaskNode): WorkerAssignment {
    AssignmentFor(g, rt, n, NextAttempt(AttemptsOf(rt, n.id)))
  }

  function MarkRunning(rt: Runtime, a: WorkerAssignment): Runtime {
    rt.(attempts := rt.attempts[a.nodeId := a.attempt], states := rt.states[a.nodeId := Running])
  }

  function IsFinished(states: map<string, NodeState>): bool {
    forall id :: id in states ==> states[id].Final()
  }

  /** A chain of at most `k` inputs leads from `id`, through pending nodes, to a blocking one. */
  ghost predicate BlockedWithin(g: TaskGraph, states: map<string, NodeState>, id: string, k: nat)
    decreases k
  {
    k > 0 && exists n, r :: n in g.nodes && n.id == id && r in n.inputRefs && r in states
                            && (states[r].Blocking() || (states[r].Pending? && BlockedWithin(g, states, r, k - 1)))
  }

  ghost predicate Blocked(g: TaskGraph, states: map<string, NodeState>, id: string) {
    exists k: nat :: BlockedWithin(g, states, id, k)
  }

  ghost function BlockedIds(g: TaskGraph, states: map<string, NodeState>): set<string> {
    set id | id in states && Blocked(g, states, id)
  }

  /** Every pending node behind a failed or skipped one becomes skipped, and nothing else changes. */
  ghost function SkipBlocked(g: TaskGraph, states: map<string, NodeState>): map<string, NodeState> {
    map id | id in states ::
      if states[id].Pending? && id in BlockedIds(g, states) then Skipped(DEPENDENCY_DID_NOT_PASS) else states[id]
  }

  ghost function ApplyReport(g: TaskGraph, checks: TextChecks, rt: Runtime, report: WorkerReport): (Runtime, Outcome) {
    var node := FindNode(g.nodes, report.nodeId);
    var evaluation := Evaluate(checks, report, node, rt.reports);
    var noted := rt.(evaluations := rt.evaluations + [evaluation], reports := rt.reports[report.nodeId := report]);
    if node.None? then
      (noted.(states := rt.states[report.nodeId := Failed(NODE_NOT_FOUND)]), OutcomeFailed(evaluation))
    else if evaluation.passed then
      (noted.(rework := rt.rework - {report.nodeId}, states := rt.states[report.nodeId := Passed]), OutcomePassed(evaluation))
    else if (if report.nodeId in rt.attempts then rt.attempts[report.nodeId] else 1) < node.value.maxAttempts then
      var instruction := evaluation.rework.GetOr(FILL_IN);
      (noted.(rework := rt.rework[report.nodeId := instruction], states := rt.states[report.nodeId := Pending]),
       OutcomeRework(evaluation, instruction))
    else
      var failed := rt.states[report.nodeId := Failed(Join(evaluation.reasons, "; "))];
      (noted.(states := SkipBlocked(g, failed)), OutcomeFailed(evaluation))
  }

  /** The outcome follows the verdict and the attempts; every rework asks to resubmit, so the runtime's own text is never used. */
  lemma OutcomeExactly(g: TaskGraph, checks: TextChecks, rt: Runtime, report: WorkerReport, n: TaskNode)
    requires FindNode(g.nodes, report.nodeId) == Some(n) && report.nodeId in rt.attempts
    ensures var (after, outcome) := ApplyReport(g, checks, rt, report);
            && outcome.evaluation == Evaluate(checks, report, Some(n), rt.reports)
            && outcome.evaluation.nodeId == report.nodeId
            && outcome.evaluation.passed == (outcome.evaluation.reasons == [])
            && outcome.evaluation.score == (if outcome.evaluation.passed then 1.0 else 0.0)
            && (outcome.OutcomePassed? <==> outcome.evaluation.passed)
            && (outcome.OutcomeRework? <==> !outcome.evaluation.passed && rt.attempts[report.nodeId] < n.maxAttempts)
            && (outcome.OutcomeRework? ==> outcome.instruction == RESUBMIT)
            && (outcome.OutcomeFailed? ==> after.states[report.nodeId] == Failed(Join(outcome.evaluation.reasons, "; ")))
  {
    hide BlockedIds, Reasons;
  }

  function NewRuntime(g: TaskGraph): Runtime {
    Runtime(map[], map n | n in g.nodes :: n.id := Pending, map[], map[], [])
  }

  // ---------------------------------------------------------------- the mutable runtime

  class TaskGraphRuntime {
    const graph: TaskGraph
    const checks: TextChecks
    var attempts: map<string, u8>
    var states: map<string, NodeState>
    var reports: map<string, WorkerReport>
    var rework: map<string, string>
    var evaluations: seq<Evaluation>

    function Model(): Runtime
      reads this
    {
      Runtime(attempts, states, reports, rework, evaluations)
    }

    constructor (graph: TaskGraph, checks: TextChecks)
      ensures this.graph == graph && this.checks == checks
      ensures Model() == NewRuntime(graph)
    {
      this.graph := graph;
      this.checks := checks;
      attempts, reports, rework, evaluations := map[], map[], map[], [];
      states := map n | n in graph.nodes :: n.id := Pending;
    }

    method SelectReadyNodes() returns (ready: seq<TaskNode>)
      ensures ready == ReadyNodes(graph, states)
    {
      var busyWorkers := set n | n in graph.nodes && InState(states, n.id, Running) :: n.workerId;
      assert forall w :: w in busyWorkers <==> WorkerBusy(graph, states, w);
      var scheduledWorkers := {};
      ready := [];
      for i := 0 to |graph.nodes|
        invariant ready == ReadyUpTo(graph, states, i)
        invariant forall w :: w in scheduledWorkers <==> AmongWorkers(ready, w)
      {
        var n := graph.nodes[i];
        if Runnable(states, n) && n.workerId !in busyWorkers && n.workerId !in scheduledWorkers {
          assert forall m :: m in ready + [n] <==> m in ready || m == n;
          scheduledWorkers := scheduledWorkers + {n.workerId};
          ready := ready + [n];
        }
      }
    }

    method Assign(n: TaskNode) returns (a: WorkerAssignment)
      ensures a == BuildAssignment(graph, Model(), n)
    {
      var attempt := NextAttempt(if n.id in attempts then attempts[n.id] else 0);
      var inputs := [];
      for i := 0 to |n.inputRefs|
        invariant inputs == InputReports(n.inputRefs[..i], reports)
      {
        assert n.inputRefs[..i + 1][..i] == n.inputRefs[..i];
        if n.inputRefs[i] in reports {
          inputs := inputs + [reports[n.inputRefs[i]]];
        }
      }
      assert n.inputRefs[..|n.inputRefs|] == n.inputRefs;
      a := WorkerAssignment(graph.graphId, n.id, graph.graphId + ":" + n.id, n.workerId, n.role, attempt, n.objective,
                            inputs, if n.id in rework then Some(rework[n.id]) else None);
    }

    method MarkNodeRunning(a: WorkerAssignment)
      modifies this
      ensures Model() == MarkRunning(old(Model()), a)
    {
      attempts := attempts[a.nodeId := a.attempt];
      states := states[a.nodeId := Running];
    }

    method Apply(report: WorkerReport) returns (outcome: Outcome)
      modifies this
      ensures (Model(), outcome) == ApplyReport(graph, checks, old(Model()), report)
    {
      var node := FindNode(graph.nodes, report.nodeId);
      var evaluation := Evaluate(checks, report, node, reports);
      evaluations := evaluations + [evaluation];
      reports := reports[report.nodeId := report];
      if node.None? {
        states := states[report.nodeId := Failed(NODE_NOT_FOUND)];
        return OutcomeFailed(evaluation);
      }
      if evaluation.passed {
        rework := rework - {report.nodeId};
        states := states[report.nodeId := Passed];
        return OutcomePassed(evaluation);
      }
      var attempt := if report.nodeId in attempts then attempts[report.nodeId] else 1;
      if attempt < node.value.maxAttempts {
        var instruction := evaluation.rework.GetOr(FILL_IN);
        rework := rework[report.nodeId := instruction];
        states := states[report.nodeId := Pending];
        return OutcomeRework(evaluation, instruction);
      }
      states := states[report.nodeId := Failed(Join(evaluation.reasons, "; "))];
      SkipBlockedDescendants();
      outcome := OutcomeFailed(evaluation);
    }

    /** Sweeps the node list until a sweep changes nothing. */
    method SkipBlockedDescendants()
      modifies this`states
      ensures states == SkipBlocked(graph, old(states))
    {
      ghost var before, blocked := states, BlockedIds(graph, states);
      BlockedIdsAbsorb(graph, before);
      var failed := set id | id in states && states[id].Failed?;
      var changed := true;
      while changed
        invariant OnlySkipped(blocked, before, states)
        invariant !changed ==> SweepClosed(graph, states, |graph.nodes|)
        decreases PendingIds(states), changed
      {
        changed := false;
        ghost var pending := PendingIds(states);
        for i := 0 to |graph.nodes|
          invariant OnlySkipped(blocked, before, states)
          invariant if changed then PendingIds(states) < pending else PendingIds(states) == pending && SweepClosed(graph, states, i)
        {
          var n := graph.nodes[i];
          FailedStayFailed(blocked, before, states, failed, n);
          if InState(states, n.id, Pending) && BehindFailure(states, failed, n) {
            SkipStep(graph, blocked, before, states, n);
            states := states[n.id := Skipped(DEPENDENCY_DID_NOT_PASS)];
            changed := true;
          } else {
            SweepNext(graph, states, i);
          }
        }
      }
      SweepComplete(graph, before, states);
    }
  }

  // ---------------------------------------------------------------- the skip sweep

  predicate BlockedInput(states: map<string, NodeState>, n: TaskNode) {
    exists r :: r in n.inputRefs && Blocks(states, r)
  }

  /** The sweep's test: an input failed before the sweep, or is skipped by now. */
  predicate BehindFailure(states: map<string, NodeState>, failed: set<string>, n: TaskNode) {
    exists r :: r in n.inputRefs && (r in failed || (r in states && states[r].Skipped?))
  }

  ghost function PendingIds(states: map<string, NodeState>): set<string> {
    set id | id in states && states[id].Pending?
  }

  /** `now` differs from `before` only at blocked nodes that went from pending to skipped. */
  ghost predicate OnlySkipped(blocked: set<string>, before: map<string, NodeState>, now: map<string, NodeState>) {
    && before.Keys == now.Keys
    && forall id :: id in now ==>
      || now[id] == before[id]
      || (before[id].Pending? && id in blocked && now[id] == Skipped(DEPENDENCY_DID_NOT_PASS))
  }

  /** None of the first `k` nodes is pending behind a blocking input. */
  ghost predicate SweepClosed(g: TaskGraph, states: map<string, NodeState>, k: nat) {
    forall i :: 0 <= i < k && i < |g.nodes| && InState(states, g.nodes[i].id, Pending) ==> !BlockedInput(states, g.nodes[i])
  }

  lemma BlockedThrough(g: TaskGraph, states: map<string, NodeState>, n: TaskNode, r: string)
    requires n in g.nodes && r in n.inputRefs && r in states
    requires states[r].Blocking() || (states[r].Pending? && Blocked(g, states, r))
    ensures Blocked(g, states, n.id)
  {
    if states[r].Blocking() {
      assert BlockedWithin(g, states, n.id, 1);
    } else {
      var k: nat :| BlockedWithin(g, states, r, k);
      assert BlockedWithin(g, states, n.id, k + 1);
    }
  }

  /** Pending nodes behind a blocking or absorbed pending input are absorbed themselves. */
  ghost predicate Absorbs(g: TaskGraph, states: map<string, NodeState>, blocked: set<string>) {
    forall n, r :: n in g.nodes && n.id in states && r in n.inputRefs && r in states
                   && (states[r].Blocking() || (states[r].Pending? && r in blocked))
                   ==> n.id in blocked
  }

  lemma BlockedIdsAbsorb(g: TaskGraph, states: map<string, NodeState>)
    ensures Absorbs(g, states, BlockedIds(g, states))
  {
    forall n, r | n in g.nodes && n.id in states && r in n.inputRefs && r in states
                  && (states[r].Blocking() || (states[r].Pending? && r in BlockedIds(g, states)))
      ensures n.id in BlockedIds(g, states)
    {
      BlockedThrough(g, states, n, r);
    }
  }

  lemma FailedStayFailed(blocked: set<string>, before: map<string, NodeState>, now: map<string, NodeState>,
      failed: set<string>, n: TaskNode)
    requires OnlySkipped(blocked, before, now)
    requires failed == set id | id in before && before[id].Failed?
    ensures BehindFailure(now, failed, n) <==> BlockedInput(now, n)
  {
    assert forall r :: Blocks(now, r) <==> r in failed || (r in now && now[r].Skipped?);
  }

  lemma SweepNext(g: TaskGraph, states: map<string, NodeState>, k: nat)
    requires k < |g.nodes|
    requires !InState(states, g.nodes[k].id, Pending) || !BlockedInput(states, g.nodes[k])
    ensures SweepClosed(g, states, k) ==> SweepClosed(g, states, k + 1)
  {
  }

  lemma SkipStep(g: TaskGraph, blocked: set<string>, before: map<string, NodeState>, now: map<string, NodeState>,
      n: TaskNode)
    requires Absorbs(g, before, blocked) && OnlySkipped(blocked, before, now)
    requires n in g.nodes && InState(now, n.id, Pending)
    requires BlockedInput(now, n)
    ensures OnlySkipped(blocked, before, now[n.id := Skipped(DEPENDENCY_DID_NOT_PASS)])
    ensures PendingIds(now[n.id := Skipped(DEPENDENCY_DID_NOT_PASS)]) < PendingIds(now)
  {
    var next := now[n.id := Skipped(DEPENDENCY_DID_NOT_PASS)];
    assert n.id in PendingIds(now) && n.id !in PendingIds(next);
  }

  lemma {:induction false} ClosedMeansUnblocked(g: TaskGraph, blocked: set<string>, before: map<string, NodeState>,
      now: map<string, NodeState>, id: string, k: nat)
    requires OnlySkipped(blocked, before, now) && SweepClosed(g, now, |g.nodes|)
    requires InState(now, id, Pending)
    ensures !BlockedWithin(g, before, id, k)
    decreases k
  {
    if BlockedWithin(g, before, id, k) {
      var n, r :| n in g.nodes && n.id == id && r in n.inputRefs && r in before
                  && (before[r].Blocking() || (before[r].Pending? && BlockedWithin(g, before, r, k - 1)));
      assert !BlockedInput(now, n);
      assert !Blocks(now, r);
      ClosedMeansUnblocked(g, blocked, before, now, r, k - 1);
    }
  }

  lemma SweepComplete(g: TaskGraph, before: map<string, NodeState>, now: map<string, NodeState>)
    requires OnlySkipped(BlockedIds(g, before), before, now) && SweepClosed(g, now, |g.nodes|)
    ensures now == SkipBlocked(g, before)
  {
    forall id, k: nat | id in now && now[id].Pending?
      ensures !BlockedWithin(g, before, id, k)
    {
      ClosedMeansUnblocked(g, BlockedIds(g, before), before, now, id, k);
    }
  }
}
