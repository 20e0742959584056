/** The evaluations on record: one for every concluded attempt of every node, and no other. */
module Ledger {
  import opened Common
  import opened TaskGraphs
  import opened Evaluator
  import opened GraphRuntime
  import opened RuntimeInvariant
  import opened Denotation

  /** The verdicts on attempts 1 to `k`. */
  function Judgements(p: Plan, n: TaskNode, up: map<string, WorkerReport>, k: nat): multiset<Evaluation> {
    if k == 0 then multiset{} else Judgements(p, n, up, k - 1) + multiset{Judgement(p, n, up, k)}
  }

  /** The attempts of a node that were answered and judged. */
  function Concluded(rt: Runtime, id: string): nat {
    if InState(rt.states, id, Running) && AttemptsOf(rt, id) > 0 then AttemptsOf(rt, id) - 1 else AttemptsOf(rt, id)
  }

  function Line(p: Plan, rt: Runtime, n: TaskNode): multiset<Evaluation> {
    Judgements(p, n, rt.reports, Concluded(rt, n.id))
  }

  function Lines(p: Plan, rt: Runtime, nodes: seq<TaskNode>): multiset<Evaluation> {
    if nodes == [] then multiset{} else Line(p, rt, nodes[0]) + Lines(p, rt, nodes[1..])
  }

  ghost predicate Balanced(p: Plan, rt: Runtime) {
    multiset(rt.evaluations) == Lines(p, rt, p.graph.nodes)
  }

  lemma {:induction false} JudgementsFrame(p: Plan, n: TaskNode, up: map<string, WorkerReport>,
      other: map<string, WorkerReport>, k: nat)
    requires AgreeOnInputs(n, up, other)
    ensures Judgements(p, n, up, k) == Judgements(p, n, other, k)
  {
    hide AgreeOnInputs, Judgement, Attempt;
    if k > 0 {
      AttemptFrame(p, n, up, other, k);
      JudgementsFrame(p, n, up, other, k - 1);
    }
  }

  lemma {:induction false} LinesAgree(p: Plan, before: Runtime, after: Runtime, nodes: seq<TaskNode>)
    requires forall m :: m in nodes ==> Line(p, after, m) == Line(p, before, m)
    ensures Lines(p, after, nodes) == Lines(p, before, nodes)
  {
    hide Line;
    if nodes != [] {
      assert nodes[0] in nodes && forall m :: m in nodes[1..] ==> m in nodes;
      LinesAgree(p, before, after, nodes[1..]);
    }
  }

  lemma {:induction false} LinesGrow(p: Plan, before: Runtime, after: Runtime, nodes: seq<TaskNode>, n: TaskNode,
      e: Evaluation)
    requires n in nodes && Distinct(nodes)
    requires Line(p, after, n) == Line(p, before, n) + multiset{e}
    requires forall m :: m in nodes && m != n ==> Line(p, after, m) == Line(p, before, m)
    ensures Lines(p, after, nodes) == Lines(p, before, nodes) + multiset{e}
  {
    hide Line;
    assert nodes[0] in nodes && forall m :: m in nodes[1..] ==> m in nodes;
    if nodes[0] == n {
      assert forall m :: m in nodes[1..] ==> m != n;
      LinesAgree(p, before, after, nodes[1..]);
    } else {
      LinesGrow(p, before, after, nodes[1..], n, e);
    }
  }

  lemma DistinctNodes(g: TaskGraph)
    requires WellFormed(g)
    ensures Distinct(g.nodes)
  {
  }

  lemma NewBalanced(p: Plan)
    ensures Balanced(p, NewRuntime(p.graph))
  {
    EmptyLines(p, NewRuntime(p.graph), p.graph.nodes);
  }

  lemma {:induction false} EmptyLines(p: Plan, rt: Runtime, nodes: seq<TaskNode>)
    requires rt.attempts == map[]
    ensures Lines(p, rt, nodes) == multiset{}
  {
    if nodes != [] {
      EmptyLines(p, rt, nodes[1..]);
    }
  }

  /** A dispatch opens an attempt and concludes none. */
  lemma DispatchBalanced(p: Plan, rt: Runtime, n: TaskNode)
    requires Balanced(p, rt) && InState(rt.states, n.id, Pending)
    requires NextAttempt(AttemptsOf(rt, n.id)) == AttemptsOf(rt, n.id) + 1
    ensures Balanced(p, MarkRunning(rt, BuildAssignment(p.graph, rt, n)))
  {
    hide Judgements, InputReports;
    var after := MarkRunning(rt, BuildAssignment(p.graph, rt, n));
    forall m | m in p.graph.nodes
      ensures Line(p, after, m) == Line(p, rt, m)
    {
      assert Concluded(after, m.id) == Concluded(rt, m.id);
    }
    LinesAgree(p, rt, after, p.graph.nodes);
  }

  lemma BystanderLine(p: Plan, rt: Runtime, after: Runtime, m: TaskNode)
    requires NodeOk(p.checks, rt, m) && KeepsSettled(rt, after) && Bystander(rt, after, m.id)
    ensures Line(p, after, m) == Line(p, rt, m)
  {
    assert Concluded(after, m.id) == Concluded(rt, m.id);
    if m.id in rt.attempts {
      TouchedInputsPassed(p.checks, rt, m);
      SettledAgree(rt, after, m);
      JudgementsFrame(p, m, rt.reports, after.reports, Concluded(rt, m.id));
    }
  }

  /** The reported node's line gains the verdict on the attempt that was running. */
  lemma ReportedLine(p: Plan, rt: Runtime, after: Runtime, n: TaskNode, report: WorkerReport)
    requires NodeOk(p.checks, rt, n) && InState(rt.states, n.id, Running)
    requires report == Attempt(p, n, rt.reports, AttemptsOf(rt, n.id))
    requires ReportEffect(rt, after, n.id) && after.reports == rt.reports[n.id := report]
    ensures Line(p, after, n) == Line(p, rt, n) + multiset{Evaluate(p.checks, report, Some(n), rt.reports)}
  {
    hide Evaluate, Attempt, NodeOk, AgreeOnInputs, ReportEffect;
    NotOwnInput(p.checks, rt, n, report);
    ConcludesOne(p.checks, rt, after, n);
    JudgementsFrame(p, n, rt.reports, after.reports, Concluded(after, n.id));
  }

  lemma ConcludesOne(checks: TextChecks, rt: Runtime, after: Runtime, n: TaskNode)
    requires NodeOk(checks, rt, n) && InState(rt.states, n.id, Running) && ReportEffect(rt, after, n.id)
    ensures Concluded(after, n.id) == Concluded(rt, n.id) + 1 == AttemptsOf(rt, n.id)
  {
    hide InputsPassed, Bystander;
  }

  lemma RecordsVerdict(g: TaskGraph, checks: TextChecks, rt: Runtime, n: TaskNode, report: WorkerReport)
    requires FindNode(g.nodes, report.nodeId) == Some(n)
    ensures ApplyReport(g, checks, rt, report).0.evaluations == rt.evaluations + [Evaluate(checks, report, Some(n), rt.reports)]
  {
    hide SkipBlocked, Evaluate;
  }

  lemma ReportBalanced(p: Plan, rt: Runtime, n: TaskNode, report: WorkerReport)
    requires RuntimeOk(p.graph, p.checks, rt) && Balanced(p, rt)
    requires n in p.graph.nodes && InState(rt.states, n.id, Running) && report.nodeId == n.id
    requires report == Attempt(p, n, rt.reports, AttemptsOf(rt, n.id))
    ensures Balanced(p, ApplyReport(p.graph, p.checks, rt, report).0)
  {
    hide NodeOk, Attempt, Line, ApplyReport, Evaluate, KeysOk, OnePerWorker, WellFormed, ReportEffect, KeepsSettled, Bystander;
    var after := ApplyReport(p.graph, p.checks, rt, report).0;
    var e := Evaluate(p.checks, report, Some(n), rt.reports);
    NodeIdentity(p.graph);
    DistinctNodes(p.graph);
    ReportKeeps(p.graph, p.checks, rt, n, report);
    EffectKeepsSettled(rt, after, n.id);
    RecordsVerdict(p.graph, p.checks, rt, n, report);
    ReportedLine(p, rt, after, n, report);
    forall m | m in p.graph.nodes && m != n
      ensures Line(p, after, m) == Line(p, rt, m)
    {
      EffectOnOthers(rt, after, n.id, m.id);
      BystanderLine(p, rt, after, m);
    }
    LinesGrow(p, rt, after, p.graph.nodes, n, e);
  }

  lemma EffectOnOthers(rt: Runtime, after: Runtime, id: string, other: string)
    requires ReportEffect(rt, after, id) && other != id
    ensures Bystander(rt, after, other)
  {
  }

  /** Runtimes that ended alike made equally many attempts: up to the first that passed, or all that are allowed. */
  lemma SameAttemptCount(p: Plan, one: Runtime, two: Runtime, n: TaskNode)
    requires NodeOk(p.checks, one, n) && NodeOk(p.checks, two, n) && HistoryOk(p, one, n) && HistoryOk(p, two, n)
    requires one.states == two.states && one.reports == two.reports && one.states[n.id].Final()
    ensures n.id in one.attempts <==> n.id in two.attempts
    ensures n.id in one.attempts ==> one.attempts[n.id] == two.attempts[n.id]
  {
    hide Judgement, Attempt, Evaluate, InputsPassed, BlockedInput;
    if one.states[n.id].Passed? {
      var a, b := one.attempts[n.id], two.attempts[n.id];
      assert Judgement(p, n, one.reports, a).passed && Judgement(p, n, one.reports, b).passed;
    }
  }

  /** With equal states, reports and attempts the books balance to the same verdicts. */
  lemma SameVerdicts(p: Plan, one: Runtime, two: Runtime)
    requires Balanced(p, one) && Balanced(p, two)
    requires one.states == two.states && one.reports == two.reports && one.attempts == two.attempts
    ensures multiset(one.evaluations) == multiset(two.evaluations)
  {
    hide Judgements;
    LinesAgree(p, one, two, p.graph.nodes);
  }
}
