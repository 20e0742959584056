/** From planning to the final text: planned graphs never deadlock and always end. */
module EndToEnd {
  import opened Common
  import opened TaskGraphs
  import opened GraphRuntime
  import opened RuntimeInvariant
  import opened Evaluator
  import opened Synthesis
  import opened FinalTexts
  import opened TaskCommander
  import opened Protocol
  import opened ProtocolSafety
  import opened Accounting
  import opened Runs
  import opened Rules
  import opened Planner
  import opened Assignments

  /** A passed node has a report with structured output, which its evaluation accepted. */
  ghost predicate ProductAccepted(setup: Setup, rt: Runtime, n: TaskNode) {
    && n.id in rt.reports && rt.reports[n.id].roleOutput.Some?
    && Evaluate(setup.checks, rt.reports[n.id], Some(n), rt.reports).passed
  }

  /**
   * The run's final text, once it is sent, lists each node exactly once, as a product with all that its accepted
   * report says or as a gap with its reason, both in the order of the graph.
   */
  ghost predicate TellsAll(setup: Setup, s: System) {
    && |s.recorded| == 1 && FinalText(setup, s, s.recorded[0])
    && |s.texts| == 1 && Tells(setup.graph, s.recorded[0].states, s.recorded[0].reports, s.texts[0])
    && InOrderOf(PassedNodes(setup.graph.nodes, s.recorded[0].states), setup.graph.nodes)
    && InOrderOf(GapNodes(setup.graph.nodes, s.recorded[0].states), setup.graph.nodes)
    && (forall n :: n in PassedNodes(setup.graph.nodes, s.recorded[0].states) ==> ProductAccepted(setup, s.recorded[0], n))
    && var states := s.recorded[0].states;
       && multiset(PassedNodes(setup.graph.nodes, states)) + multiset(GapNodes(setup.graph.nodes, states)) == multiset(setup.graph.nodes)
       && forall n :: n in setup.graph.nodes ==> (n in PassedNodes(setup.graph.nodes, states) <==> InState(states, n.id, Passed))
  }

  /** What every run of a started graph does, however its steps interleave. */
  ghost predicate RunsToTheEnd(setup: Setup, run: seq<Action>)
    requires Legal(setup, Boot(setup), run)
  {
    var last := Exec(setup, Boot(setup), run);
    && Effective(setup, Boot(setup), run) <= 7 * Budget(setup.graph)
    && (last.active.Some? ==> last.texts == [] && exists a :: Enabled(last, a) && !Stutter(last, a))
    && (last.active.None? ==> TellsAll(setup, last))
  }

  lemma StartedGraphsEnd(setup: Setup, run: seq<Action>)
    requires SetupOk(setup) && IsDag(setup.graph) && Legal(setup, Boot(setup), run)
    ensures RunsToTheEnd(setup, run)
  {
    hide Boot, Legal, Exec, Effective, RuntimeOk, WellFormed, IsDag, IsFinished, Synthesize, TellsAll, SystemOk,
        Enabled, Stutter;
    EveryRunEnds(setup, run);
    HostHearsOnce(setup, run);
    var last := Exec(setup, Boot(setup), run);
    if last.active.Some? {
      BootOk(setup);
      RunOk(setup, Boot(setup), run);
      var a := NeverStuck(setup, last);
    } else {
      FinishedTellsAll(setup, last);
    }
  }

  lemma FinishedTellsAll(setup: Setup, s: System)
    requires |s.recorded| == 1 && FinalText(setup, s, s.recorded[0])
    ensures TellsAll(setup, s)
  {
    hide RuntimeOk, Synthesize, PassedNodes, GapNodes, ProductAccepted, Tells, InOrderOf;
    var rt := s.recorded[0];
    AllNodesHaveStates(setup.graph, setup.checks, rt);
    ProductsAndGapsPartition(setup.graph.nodes, rt.states);
    TextTells(setup.graph, rt.states, rt.reports);
    PassedInOrder(setup.graph.nodes, rt.states);
    forall n | n in PassedNodes(setup.graph.nodes, rt.states)
      ensures ProductAccepted(setup, rt, n)
    {
      assert n in multiset(setup.graph.nodes);
      PassedProduct(setup, rt, n);
    }
    forall n | n in setup.graph.nodes && InState(rt.states, n.id, Passed)
      ensures n in PassedNodes(setup.graph.nodes, rt.states)
    {
      assert n in multiset(setup.graph.nodes);
      assert !IsGap(rt.states, n);
    }
  }

  lemma PassedProduct(setup: Setup, rt: Runtime, n: TaskNode)
    requires RuntimeOk(setup.graph, setup.checks, rt) && n in setup.graph.nodes && IsPassed(rt.states, n)
    ensures ProductAccepted(setup, rt, n)
  {
    assert NodeOk(setup.checks, rt, n);
    PassedExactly(setup.checks, rt.reports[n.id], n, rt.reports);
  }

  /** An accepted rule, started with all its roles' workers registered, runs to its end. */
  lemma AcceptedRulesRunToTheEnd(setup: Setup, taskId: string, task: string, rule: Rule, roles: set<string>,
      run: seq<Action>)
    requires Acceptable(rule, roles) && setup.graph == BuildConfigured(taskId, task, rule)
    requires forall role :: role in roles ==> "worker." + role in setup.workers
    requires Legal(setup, Boot(setup), run)
    ensures RunsToTheEnd(setup, run)
  {
    hide Boot, Legal, RunsToTheEnd, Acceptable, BuildConfigured, WellFormed, IsDag;
    AcceptedRuleGraph(taskId, task, rule, roles);
    StartedGraphsEnd(setup, run);
  }

  /** So does every built-in plan that passes the commander's registration check. */
  lemma BuiltinPlansRunToTheEnd(setup: Setup, taskId: string, lower: string, task: string, routed: Option<string>,
      run: seq<Action>)
    requires setup.graph == BuiltinGraph(taskId, lower, task, routed) && AllRegistered(setup.graph, setup.workers)
    requires Legal(setup, Boot(setup), run)
    ensures RunsToTheEnd(setup, run)
  {
    hide Boot, Legal, RunsToTheEnd, BuiltinGraph, WellFormed, IsDag, BuiltinNodes;
    BuiltinGraphIsDag(taskId, lower, task, routed);
    StartedGraphsEnd(setup, run);
  }

  /** The rule's node was given to its worker after each of its dependencies had passed, with their reports in order. */
  ghost predicate AwaitedDependencies(m: RuleNode, before: seq<Event>, rt: Runtime, a: WorkerAssignment) {
    && a.nodeId == m.id && a.role == m.role && a.workerId == "worker." + m.role
    && |a.inputs| == |m.dependsOn|
    && forall j :: 0 <= j < |m.dependsOn| ==> NodePassed(m.dependsOn[j]) in before && PassedReport(rt, m.dependsOn[j], a.inputs[j])
  }

  /** In every run of an accepted rule a node is dispatched only after, and with, what it depends on. */
  lemma RuleNodesAwaitDependencies(setup: Setup, taskId: string, task: string, rule: Rule, roles: set<string>,
      run: seq<Action>, i: nat) returns (m: RuleNode)
    requires Acceptable(rule, roles) && setup.graph == BuildConfigured(taskId, task, rule)
    requires forall role :: role in roles ==> "worker." + role in setup.workers
    requires Legal(setup, Boot(setup), run)
    requires i < |Exec(setup, Boot(setup), run).log| && Exec(setup, Boot(setup), run).log[i].Dispatched?
    ensures m in rule.nodes
    ensures var last := Exec(setup, Boot(setup), run);
            Current(last).Some? && AwaitedDependencies(m, last.log[..i], Current(last).value, last.log[i].assignment)
  {
    hide Boot, Legal, Exec, Acceptable, BuildConfigured, WellFormed, IsDag, AsConfigured, Faithful, Earned, PassedReport,
        Announced, Accepted, Current;
    AcceptedRuleGraph(taskId, task, rule, roles);
    AssignmentsFaithful(setup, run, i);
    var last := Exec(setup, Boot(setup), run);
    var n :| n in setup.graph.nodes && Faithful(Current(last).value, n, last.log[i].assignment) && Earned(last.log[..i], n);
    var k :| 0 <= k < |setup.graph.nodes| && setup.graph.nodes[k] == n;
    m := rule.nodes[k];
    DispatchedAsConfigured(task, rule, m, n, last.log[..i], Current(last).value, last.log[i].assignment);
  }

  lemma DispatchedAsConfigured(task: string, rule: Rule, m: RuleNode, n: TaskNode, before: seq<Event>, rt: Runtime,
      a: WorkerAssignment)
    requires AsConfigured(task, rule, m, n) && Faithful(rt, n, a) && Earned(before, n)
    ensures AwaitedDependencies(m, before, rt, a)
  {
    hide PassedReport;
    forall j | 0 <= j < |m.dependsOn|
      ensures NodePassed(m.dependsOn[j]) in before
    {
      assert m.dependsOn[j] in n.inputRefs;
    }
  }
}
