/**
 * What a task graph means when every worker's report is a function of its assignment: a plain
 * recursive evaluation of the DAG, with no schedule in it.
 */
module Denotation {
  import opened Common
  import opened Text
  import opened TaskGraphs
  import opened Evaluator
  import opened GraphRuntime
  import opened RuntimeInvariant

  datatype Plan = Plan(graph: TaskGraph, checks: TextChecks, answer: WorkerAssignment -> WorkerReport)

  /** How a node ends. */
  datatype Ending = Accepted(report: WorkerReport) | Rejected(report: WorkerReport, reason: string) | NotRun

  // ---------------------------------------------------------------- the attempts of one node

  /** The instruction that attempt `k` carries, given the reports of the node's inputs. */
  function Instruction(p: Plan, n: TaskNode, up: map<string, WorkerReport>, k: nat): Option<string>
    decreases k, 0
  {
    if k <= 1 then None else Some(Judgement(p, n, up, k - 1).rework.GetOr(FILL_IN))
  }

  function Attempt(p: Plan, n: TaskNode, up: map<string, WorkerReport>, k: nat): WorkerReport
    decreases k, 1
  {
    p.answer(WorkerAssignment(p.graph.graphId, n.id, p.graph.graphId + ":" + n.id, n.workerId, n.role, k % 256, n.objective,
                              InputReports(n.inputRefs, up), Instruction(p, n, up, k)))
  }

  function Judgement(p: Plan, n: TaskNode, up: map<string, WorkerReport>, k: nat): Evaluation
    decreases k, 2
  {
    Evaluate(p.checks, Attempt(p, n, up, k), Some(n), up)
  }

  /** Attempts `k`, `k + 1`, .. up to the limit, until one passes. */
  function Retry(p: Plan, n: TaskNode, up: map<string, WorkerReport>, k: nat): Ending
    decreases n.maxAttempts - k
  {
    if Judgement(p, n, up, k).passed then Accepted(Attempt(p, n, up, k))
    else if k < n.maxAttempts then Retry(p, n, up, k + 1)
    else Rejected(Attempt(p, n, up, k), Join(Judgement(p, n, up, k).reasons, "; "))
  }

  /** The recursive evaluation: a node runs when all its inputs are accepted. */
  ghost function EndingOf(p: Plan, rank: map<string, nat>, n: TaskNode): Ending
    requires WellFormed(p.graph) && IsRank(p.graph, rank) && n in p.graph.nodes
    decreases rank[n.id]
  {
    if forall r :: r in n.inputRefs ==> EndingOf(p, rank, NodeOf(p.graph, r)).Accepted?
    then Retry(p, n, map r | r in n.inputRefs :: EndingOf(p, rank, NodeOf(p.graph, r)).report, 1)
    else NotRun
  }

  function NodeOf(g: TaskGraph, id: string): (n: TaskNode)
    requires HasNode(g, id)
    ensures n in g.nodes && n.id == id
  {
    FindNode(g.nodes, id).value
  }

  /** Attempts and verdicts read the upstream reports only at the node's own inputs. */
  lemma {:induction false} AttemptFrame(p: Plan, n: TaskNode, up: map<string, WorkerReport>,
      other: map<string, WorkerReport>, k: nat)
    requires AgreeOnInputs(n, up, other)
    ensures Instruction(p, n, up, k) == Instruction(p, n, other, k)
    ensures Attempt(p, n, up, k) == Attempt(p, n, other, k)
    ensures Judgement(p, n, up, k) == Judgement(p, n, other, k)
  {
    if k > 1 {
      AttemptFrame(p, n, up, other, k - 1);
    }
    InputsFrame(n.inputRefs, up, other);
    EvaluateFrame(p.checks, Attempt(p, n, up, k), n, up, other);
  }

  ghost predicate AgreeOnInputs(n: TaskNode, up: map<string, WorkerReport>, other: map<string, WorkerReport>) {
    forall r :: r in n.inputRefs ==> (r in up <==> r in other) && (r in up ==> up[r] == other[r])
  }

  lemma {:induction false} InputsFrame(refs: seq<string>, m: map<string, WorkerReport>, n: map<string, WorkerReport>)
    requires forall r :: r in refs ==> (r in m <==> r in n) && (r in m ==> m[r] == n[r])
    ensures InputReports(refs, m) == InputReports(refs, n)
  {
    if refs != [] {
      assert refs[|refs| - 1] in refs;
      assert forall r :: r in refs[..|refs| - 1] ==> r in refs;
      InputsFrame(refs[..|refs| - 1], m, n);
    }
  }

  // ---------------------------------------------------------------- histories

  /** Attempts 1 to `k` were all rejected, and the last one left its report and instruction. */
  ghost predicate RejectedSoFar(p: Plan, rt: Runtime, n: TaskNode, k: nat) {
    && (forall j :: 1 <= j <= k ==> !Judgement(p, n, rt.reports, j).passed)
    && (k >= 1 ==> n.id in rt.reports && rt.reports[n.id] == Attempt(p, n, rt.reports, k))
  }

  /** The runtime's entries for a node are the trace of its attempts so far. */
  ghost predicate HistoryOk(p: Plan, rt: Runtime, n: TaskNode) {
    n.id in rt.states &&
    match rt.states[n.id]
    case Pending =>
      n.id in rt.attempts ==> RejectedSoFar(p, rt, n, rt.attempts[n.id])
                              && ReworkOf(rt, n.id) == Instruction(p, n, rt.reports, rt.attempts[n.id] as nat + 1)
    case Running =>
      n.id in rt.attempts && rt.attempts[n.id] >= 1 && RejectedSoFar(p, rt, n, rt.attempts[n.id] - 1)
      && ReworkOf(rt, n.id) == Instruction(p, n, rt.reports, rt.attempts[n.id])
    case Passed =>
      n.id in rt.attempts && rt.attempts[n.id] >= 1
      && (forall j :: 1 <= j < rt.attempts[n.id] ==> !Judgement(p, n, rt.reports, j).passed)
      && Judgement(p, n, rt.reports, rt.attempts[n.id]).passed
      && n.id in rt.reports && rt.reports[n.id] == Attempt(p, n, rt.reports, rt.attempts[n.id])
    case Failed(reason) =>
      n.id in rt.attempts && rt.attempts[n.id] >= 1 && RejectedSoFar(p, rt, n, rt.attempts[n.id])
      && reason == Join(Judgement(p, n, rt.reports, rt.attempts[n.id]).reasons, "; ")
    case Skipped(_) => true
  }

  /** A history stays true while the node's entries and the settled reports stay. */
  lemma HistoryFrame(p: Plan, before: Runtime, after: Runtime, n: TaskNode)
    requires NodeOk(p.checks, before, n) && HistoryOk(p, before, n)
    requires KeepsSettled(before, after) && SameEntry(before, after, n.id)
    requires n.id in after.states && (after.states[n.id] == before.states[n.id] || after.states[n.id].Skipped?)
    ensures HistoryOk(p, after, n)
  {
    if n.id in before.attempts && !after.states[n.id].Skipped? {
      TouchedInputsPassed(p.checks, before, n);
      SettledAgree(before, after, n);
      hide NodeOk, KeepsSettled, Evaluate;
      forall k: nat
        ensures Instruction(p, n, before.reports, k) == Instruction(p, n, after.reports, k)
        ensures Attempt(p, n, before.reports, k) == Attempt(p, n, after.reports, k)
        ensures Judgement(p, n, before.reports, k) == Judgement(p, n, after.reports, k)
      {
        AttemptFrame(p, n, before.reports, after.reports, k);
      }
    }
  }

  lemma TouchedInputsPassed(checks: TextChecks, rt: Runtime, n: TaskNode)
    requires NodeOk(checks, rt, n) && n.id in rt.attempts
    ensures InputsPassed(rt.states, n)
  {
  }

  lemma SettledAgree(before: Runtime, after: Runtime, n: TaskNode)
    requires KeepsSettled(before, after) && InputsPassed(before.states, n)
    ensures AgreeOnInputs(n, before.reports, after.reports)
  {
    forall r | r in n.inputRefs
      ensures (r in before.reports <==> r in after.reports) && (r in before.reports ==> before.reports[r] == after.reports[r])
    {
      assert InState(before.states, r, Passed);
    }
  }

  /** A dispatch extends no history: it only opens the next attempt. */
  lemma DispatchHistory(p: Plan, rt: Runtime, n: TaskNode)
    requires NodeOk(p.checks, rt, n) && HistoryOk(p, rt, n) && InState(rt.states, n.id, Pending)
    requires NextAttempt(AttemptsOf(rt, n.id)) == AttemptsOf(rt, n.id) + 1
    ensures HistoryOk(p, MarkRunning(rt, BuildAssignment(p.graph, rt, n)), n)
  {
  }

  /** The answer to the current assignment is the attempt the history calls for. */
  lemma AnswerIsAttempt(p: Plan, rt: Runtime, n: TaskNode)
    requires HistoryOk(p, rt, n) && InState(rt.states, n.id, Running)
    ensures p.answer(AssignmentFor(p.graph, rt, n, AttemptsOf(rt, n.id))) == Attempt(p, n, rt.reports, AttemptsOf(rt, n.id))
  {
  }

  /** A report that is the called-for attempt extends the history of its node. */
  lemma ReportHistory(p: Plan, rt: Runtime, n: TaskNode, report: WorkerReport)
    requires NodeOk(p.checks, rt, n) && HistoryOk(p, rt, n) && InState(rt.states, n.id, Running)
    requires FindNode(p.graph.nodes, n.id) == Some(n) && report.nodeId == n.id
    requires report == Attempt(p, n, rt.reports, AttemptsOf(rt, n.id))
    ensures HistoryOk(p, ApplyReport(p.graph, p.checks, rt, report).0, n)
  {
    hide BlockedIds, Evaluate, InputsPassed, BlockedInput, Attempt, AgreeOnInputs;
    var after := ApplyReport(p.graph, p.checks, rt, report).0;
    NotOwnInput(p.checks, rt, n, report);
    forall k: nat
      ensures Instruction(p, n, rt.reports, k) == Instruction(p, n, after.reports, k)
      ensures Attempt(p, n, rt.reports, k) == Attempt(p, n, after.reports, k)
      ensures Judgement(p, n, rt.reports, k) == Judgement(p, n, after.reports, k)
    {
      AttemptFrame(p, n, rt.reports, after.reports, k);
    }
  }

  lemma NotOwnInput(checks: TextChecks, rt: Runtime, n: TaskNode, report: WorkerReport)
    requires NodeOk(checks, rt, n) && InState(rt.states, n.id, Running)
    ensures AgreeOnInputs(n, rt.reports, rt.reports[n.id := report])
  {
  }

  // ---------------------------------------------------------------- the recursive evaluation

  /** The entries of a finished node say that it ended as `e`. */
  ghost predicate EndedAs(rt: Runtime, id: string, e: Ending) {
    && id in rt.states
    && match e
       case Accepted(report) => rt.states[id] == Passed && id in rt.reports && rt.reports[id] == report
       case Rejected(report, reason) => rt.states[id] == Failed(reason) && id in rt.reports && rt.reports[id] == report
       case NotRun => rt.states[id] == Skipped(DEPENDENCY_DID_NOT_PASS) && id !in rt.reports
  }

  lemma {:induction false} RetryEnds(p: Plan, rt: Runtime, n: TaskNode, k: nat)
    requires NodeOk(p.checks, rt, n) && HistoryOk(p, rt, n) && n.id in rt.states && (rt.states[n.id].Passed? || rt.states[n.id].Failed?)
    requires 1 <= k <= AttemptsOf(rt, n.id)
    ensures EndedAs(rt, n.id, Retry(p, n, rt.reports, k))
    decreases n.maxAttempts - k
  {
    hide InputsPassed, Evaluate, Attempt, Judgement, BlockedInput;
    if k < AttemptsOf(rt, n.id) {
      RetryEnds(p, rt, n, k + 1);
    }
  }

  lemma {:induction false} RetryFrame(p: Plan, n: TaskNode, up: map<string, WorkerReport>,
      other: map<string, WorkerReport>, k: nat)
    requires AgreeOnInputs(n, up, other)
    ensures Retry(p, n, up, k) == Retry(p, n, other, k)
    decreases n.maxAttempts - k
  {
    hide AgreeOnInputs, Attempt, Judgement, Instruction;
    AttemptFrame(p, n, up, other, k);
    if k < n.maxAttempts {
      RetryFrame(p, n, up, other, k + 1);
    }
  }

  /** Whatever the schedule was, a finished node ended as the recursive evaluation says. */
  lemma {:induction false} FinishedAsEvaluated(p: Plan, rank: map<string, nat>, rt: Runtime, n: TaskNode)
    requires RuntimeOk(p.graph, p.checks, rt) && IsFinished(rt.states) && IsRank(p.graph, rank)
    requires forall m :: m in p.graph.nodes ==> HistoryOk(p, rt, m)
    requires n in p.graph.nodes
    ensures EndedAs(rt, n.id, EndingOf(p, rank, n))
    decreases rank[n.id]
  {
    hide HistoryOk, NodeOk, Retry, KeysOk, OnePerWorker, EndedAs, IsFinished;
    forall r | r in n.inputRefs
      ensures EndedAs(rt, r, EndingOf(p, rank, NodeOf(p.graph, r)))
    {
      FinishedAsEvaluated(p, rank, rt, NodeOf(p.graph, r));
    }
    FinishedNode(p, rank, rt, n);
  }

  ghost predicate InputsEndedAs(p: Plan, rank: map<string, nat>, rt: Runtime, n: TaskNode)
    requires WellFormed(p.graph) && IsRank(p.graph, rank) && n in p.graph.nodes
  {
    forall r :: r in n.inputRefs ==> EndedAs(rt, r, EndingOf(p, rank, NodeOf(p.graph, r)))
  }

  lemma FinishedNode(p: Plan, rank: map<string, nat>, rt: Runtime, n: TaskNode)
    requires WellFormed(p.graph) && IsRank(p.graph, rank) && n in p.graph.nodes
    requires NodeOk(p.checks, rt, n) && HistoryOk(p, rt, n) && IsFinished(rt.states)
    requires InputsEndedAs(p, rank, rt, n)
    ensures EndedAs(rt, n.id, EndingOf(p, rank, n))
  {
    hide HistoryOk, NodeOk, EndingOf, EndedAs, InputsPassed, InputsEndedAs, IsFinished;
    if InputsPassed(rt.states, n) {
      RunnableEnding(p, rank, rt, n);
      FinishedRan(p, rt, n);
    } else {
      FinishedBlocked(p.checks, rt, n);
      BlockedEnding(p, rank, rt, n);
    }
  }

  lemma RunnableEnding(p: Plan, rank: map<string, nat>, rt: Runtime, n: TaskNode)
    requires WellFormed(p.graph) && IsRank(p.graph, rank) && n in p.graph.nodes
    requires InputsEndedAs(p, rank, rt, n) && InputsPassed(rt.states, n)
    ensures EndingOf(p, rank, n) == Retry(p, n, rt.reports, 1)
  {
    hide Retry, IsRank, WellFormed;
    forall r | r in n.inputRefs
      ensures EndingOf(p, rank, NodeOf(p.graph, r)).Accepted?
    {
      assert InState(rt.states, r, Passed);
    }
    var up := map r | r in n.inputRefs :: EndingOf(p, rank, NodeOf(p.graph, r)).report;
    assert AgreeOnInputs(n, up, rt.reports);
    RetryFrame(p, n, up, rt.reports, 1);
  }

  lemma BlockedEnding(p: Plan, rank: map<string, nat>, rt: Runtime, n: TaskNode)
    requires WellFormed(p.graph) && IsRank(p.graph, rank) && n in p.graph.nodes
    requires InputsEndedAs(p, rank, rt, n) && BlockedInput(rt.states, n)
    ensures EndingOf(p, rank, n) == NotRun
  {
    hide Retry, IsRank, WellFormed;
    var r :| r in n.inputRefs && Blocks(rt.states, r);
    assert !EndingOf(p, rank, NodeOf(p.graph, r)).Accepted?;
  }

  lemma FinishedBlocked(checks: TextChecks, rt: Runtime, n: TaskNode)
    requires NodeOk(checks, rt, n) && IsFinished(rt.states) && !InputsPassed(rt.states, n)
    ensures BlockedInput(rt.states, n) && EndedAs(rt, n.id, NotRun)
  {
  }

  lemma FinishedRan(p: Plan, rt: Runtime, n: TaskNode)
    requires NodeOk(p.checks, rt, n) && HistoryOk(p, rt, n) && IsFinished(rt.states) && InputsPassed(rt.states, n)
    ensures EndedAs(rt, n.id, Retry(p, n, rt.reports, 1))
  {
    assert !rt.states[n.id].Skipped?;
    RetryEnds(p, rt, n, 1);
  }
}
