/** The commander's side of a task-graph run: dispatch, report handling and the final text. */
module TaskCommander {
  import opened Common
  import opened Text
  import opened TaskGraphs
  import opened Evaluator
  import opened GraphRuntime
  import opened Synthesis
  import opened Rules
  import opened Router
  import opened TaskPlanning
  import opened Workers
  import Collaboration

  /** The session events that a run's history is read from. */
  datatype Event =
    | Dispatched(assignment: WorkerAssignment)
    | Evaluated(evaluation: Evaluation)
    | NodePassed(nodeId: string)
    | ReworkRequested(nodeId: string, workerId: string, attempt: u8, instruction: string)
    | NodeFailed(nodeId: string, reason: string)
    | GraphFinished

  datatype Dispatch = Dispatch(rt: Runtime, sends: seq<WorkerAssignment>)

  /**
   * What one commander step does: the runtime it keeps, what it sends to the workers and the host,
   * the finished runtime whose summary it records, and the events it emits.
   */
  datatype Decision = Decision(
    active: Option<Runtime>, sends: seq<WorkerAssignment>, texts: seq<string>, recorded: seq<Runtime>, events: seq<Event>)

  function DispatchAll(g: TaskGraph, rt: Runtime, ready: seq<TaskNode>, registered: set<string>): Dispatch {
    if ready == [] then Dispatch(rt, [])
    else
      var d := DispatchAll(g, rt, ready[..|ready| - 1], registered);
      var a := BuildAssignment(g, d.rt, ready[|ready| - 1]);
      if a.workerId in registered then Dispatch(MarkRunning(d.rt, a), d.sends + [a]) else d
  }

  function DispatchEvents(sends: seq<WorkerAssignment>): (r: seq<Event>)
    ensures |r| == |sends|
    ensures forall i :: 0 <= i < |sends| ==> r[i] == Dispatched(sends[i])
  {
    seq(|sends|, i requires 0 <= i < |sends| => Dispatched(sends[i]))
  }

  function Schedule(g: TaskGraph, rt: Runtime, registered: set<string>): Decision {
    if IsFinished(rt.states) then Decision(None, [], [Synthesize(g, rt.states, rt.reports)], [rt], [GraphFinished])
    else
      var d := DispatchAll(g, rt, ReadyNodes(g, rt.states), registered);
      Decision(Some(d.rt), d.sends, [], [], DispatchEvents(d.sends))
  }

  function OutcomeEvents(after: Runtime, report: WorkerReport, outcome: Outcome): seq<Event> {
    [Evaluated(outcome.evaluation)] +
    match outcome
    case OutcomePassed(_) => [NodePassed(report.nodeId)]
    case OutcomeRework(_, instruction) =>
      var attempt := if report.nodeId in after.attempts then after.attempts[report.nodeId] else 1;
      [ReworkRequested(report.nodeId, report.workerId, NextAttempt(attempt), instruction)]
    case OutcomeFailed(evaluation) => [NodeFailed(report.nodeId, Join(evaluation.reasons, "; "))]
  }

  ghost function OnReport(g: TaskGraph, checks: TextChecks, active: Option<Runtime>, report: WorkerReport,
      registered: set<string>): Decision {
    match active
    case None => Decision(None, [], [], [], [])
    case Some(rt) =>
      var (after, outcome) := ApplyReport(g, checks, rt, report);
      var s := Schedule(g, after, registered);
      s.(events := OutcomeEvents(after, report, outcome) + s.events)
  }

  /** One step after the other. */
  function Then(d: Decision, e: Decision): Decision {
    Decision(e.active, d.sends + e.sends, d.texts + e.texts, d.recorded + e.recorded, d.events + e.events)
  }

  function Stay(active: Option<Runtime>): Decision {
    Decision(active, [], [], [], [])
  }

  /** What the workers of a task graph send: start notices and reports. */
  predicate GraphMessage(m: Message) {
    m.Started? || m.Reported?
  }

  predicate GraphMessages(messages: seq<Message>) {
    forall i :: 0 <= i < |messages| ==> GraphMessage(messages[i])
  }

  /** Of these only the reports move the commander. */
  ghost function OnMessage(g: TaskGraph, checks: TextChecks, active: Option<Runtime>, m: Message, registered: set<string>): Decision {
    if m.Reported? then OnReport(g, checks, active, m.report, registered) else Stay(active)
  }

  /** What the commander does with its messages, in their order. */
  ghost function OnMessages(
    g: TaskGraph, checks: TextChecks, active: Option<Runtime>, messages: seq<Message>, registered: set<string>): Decision
    decreases |messages|
  {
    if messages == [] then Stay(active)
    else
      var d := OnMessage(g, checks, active, messages[0], registered);
      Then(d, OnMessages(g, checks, d.active, messages[1..], registered))
  }

  lemma ThenAssociative(a: Decision, b: Decision, c: Decision)
    ensures Then(Then(a, b), c) == Then(a, Then(b, c))
    ensures Then(a, Stay(a.active)) == a && Then(Stay(b.active), b) == b
  {
  }

  /** A graph is started only when every node's worker is registered. */
  predicate AllRegistered(g: TaskGraph, registered: set<string>) {
    forall n :: n in g.nodes ==> n.workerId in registered
  }

  datatype CommanderTask = CommanderTask(id: string, description: string)

  /** A route whose primary scores below the minimum, in points. */
  predicate TooLow(route: Option<RoleRoute>, minScore: real) {
    route.Some? && (PrimaryScore(route.value) as real) / 2.0 < minScore
  }

  function RoutedRole(route: Option<RoleRoute>): Option<string> {
    match route case Some(r) => Some(r.primaryRuntimeRole) case None => None
  }

  /** The graph that the commander starts for its current job, if it starts one. */
  function StartedGraph(
    current: Option<CommanderTask>, route: Option<RoleRoute>, minScore: real, registered: set<string>,
    rules: seq<Rule>, applies: Rule -> bool, lower: string -> string): Option<TaskGraph>
  {
    if current.None? || TooLow(route, minScore) then None
    else
      var g := PlanTaskGraph(rules, applies, lower, current.value.id, current.value.description, RoutedRole(route));
      if AllRegistered(g, registered) then Some(g) else None
  }

  class Commander {
    const registered: set<string>
    const checks: TextChecks
    const fastRouteMinScore: real
    var currentTask: Option<CommanderTask>
    var collaboration: Collaboration.Collab
    var activeTaskGraph: TaskGraphRuntime?
    var sends: seq<WorkerAssignment>
    var texts: seq<string>
    var recorded: seq<Runtime>
    var events: seq<Event>

    constructor (registered: set<string>, checks: TextChecks, minScore: real)
      ensures this.registered == registered && this.checks == checks && fastRouteMinScore == minScore
      ensures Valid() && currentTask == None && collaboration == Collaboration.NO_COLLAB && activeTaskGraph == null
      ensures sends == [] && texts == [] && recorded == [] && events == []
    {
      this.registered, this.checks, fastRouteMinScore := registered, checks, minScore;
      currentTask, collaboration := None, Collaboration.NO_COLLAB;
      activeTaskGraph, sends, texts, recorded, events := null, [], [], [], [];
    }

    /** The active graph is evaluated with the commander's own checks. */
    ghost predicate Valid()
      reads this, activeTaskGraph
    {
      activeTaskGraph != null ==> activeTaskGraph.checks == checks
    }

    function Active(): Option<Runtime>
      reads this, activeTaskGraph
    {
      if activeTaskGraph == null then None else Some(activeTaskGraph.Model())
    }

    /** The commander moved from the given history exactly as `d` says. */
    twostate predicate Did(d: Decision)
      reads this, activeTaskGraph
    {
      && Active() == d.active
      && sends == old(sends) + d.sends
      && texts == old(texts) + d.texts
      && recorded == old(recorded) + d.recorded
      && events == old(events) + d.events
    }

    /** Starts the planned graph unless there is no job, its route scores too low or a worker is missing. */
    method TryTaskGraphRoute(route: Option<RoleRoute>, rules: seq<Rule>, applies: Rule -> bool, lower: string -> string)
      returns (routed: bool)
      requires Valid()
      modifies this
      ensures Valid() && currentTask == old(currentTask)
      ensures var started := StartedGraph(currentTask, route, fastRouteMinScore, registered, rules, applies, lower);
              && routed == started.Some?
              && (routed ==> Did(Schedule(started.value, NewRuntime(started.value), registered)))
              && (routed ==> collaboration == Collaboration.NO_COLLAB)
              && (routed && activeTaskGraph != null ==> fresh(activeTaskGraph) && activeTaskGraph.graph == started.value)
      ensures !routed ==> unchanged(this)
    {
      hide PlanTaskGraph, PrimaryScore;
      if currentTask.None? {
        return false;
      }
      if route.Some? && (PrimaryScore(route.value) as real) / 2.0 < fastRouteMinScore {
        return false;
      }
      var graph := PlanTaskGraph(rules, applies, lower, currentTask.value.id, currentTask.value.description, RoutedRole(route));
      if exists n :: n in graph.nodes && n.workerId !in registered {
        return false;
      }
      collaboration := Collaboration.NO_COLLAB;
      var runtime := new TaskGraphRuntime(graph, checks);
      ScheduleTaskGraphRuntime(runtime);
      routed := true;
    }

    method ScheduleTaskGraphRuntime(runtime: TaskGraphRuntime)
      requires runtime.checks == checks
      modifies this, runtime
      ensures Valid() && currentTask == old(currentTask) && collaboration == old(collaboration)
      ensures Did(old(Schedule(runtime.graph, runtime.Model(), registered)))
      ensures activeTaskGraph == null || activeTaskGraph == runtime
    {
      hide Synthesize, ReadyNodes, BuildAssignment, MarkRunning;
      if IsFinished(runtime.states) {
        FinishTaskGraph(runtime);
        return;
      }
      var ready := runtime.SelectReadyNodes();
      ghost var before := runtime.Model();
      ghost var sent := [];
      for i := 0 to |ready|
        invariant DispatchAll(runtime.graph, before, ready[..i], registered) == Dispatch(runtime.Model(), sent)
        invariant sends == old(sends) + sent && events == old(events) + DispatchEvents(sent)
        invariant texts == old(texts) && recorded == old(recorded)
        invariant currentTask == old(currentTask) && collaboration == old(collaboration)
      {
        assert ready[..i + 1][..i] == ready[..i];
        var a := runtime.Assign(ready[i]);
        if a.workerId in registered {
          sends := sends + [a];
          runtime.MarkNodeRunning(a);
          events := events + [Dispatched(a)];
          sent := sent + [a];
        }
      }
      assert ready[..|ready|] == ready;
      activeTaskGraph := runtime;
    }

    method FinishTaskGraph(runtime: TaskGraphRuntime)
      modifies this
      ensures Valid() && currentTask == old(currentTask) && collaboration == old(collaboration)
      ensures activeTaskGraph == null
      ensures texts == old(texts) + [Synthesize(runtime.graph, runtime.states, runtime.reports)]
      ensures recorded == old(recorded) + [runtime.Model()]
      ensures sends == old(sends) && events == old(events) + [GraphFinished]
    {
      var content := SynthesizeText(runtime.graph, runtime.states, runtime.reports);
      recorded := recorded + [runtime.Model()];
      events := events + [GraphFinished];
      texts := texts + [content];
      activeTaskGraph := null;
    }

    method HandleTaskGraphReport(report: WorkerReport)
      requires Valid()
      modifies this, activeTaskGraph
      ensures Valid() && currentTask == old(currentTask) && collaboration == old(collaboration)
      ensures activeTaskGraph == null || activeTaskGraph == old(activeTaskGraph)
      ensures old(activeTaskGraph) == null ==> Did(Decision(None, [], [], [], []))
      ensures old(activeTaskGraph) != null ==> Did(OnReport(old(activeTaskGraph).graph, checks, old(Active()), report, registered))
    {
      hide ApplyReport, Schedule;
      if activeTaskGraph == null {
        return;
      }
      var runtime := activeTaskGraph;
      activeTaskGraph := null;
      var outcome := runtime.Apply(report);
      events := events + [Evaluated(outcome.evaluation)];
      match outcome {
        case OutcomePassed(_) =>
          events := events + [NodePassed(report.nodeId)];
        case OutcomeRework(_, instruction) =>
          var attempt := if report.nodeId in runtime.attempts then runtime.attempts[report.nodeId] else 1;
          events := events + [ReworkRequested(report.nodeId, report.workerId, NextAttempt(attempt), instruction)];
        case OutcomeFailed(evaluation) =>
          events := events + [NodeFailed(report.nodeId, Join(evaluation.reasons, "; "))];
      }
      assert events == old(events) + OutcomeEvents(runtime.Model(), report, outcome);
      ScheduleTaskGraphRuntime(runtime);
    }

    /** A report concerns the graph; a start notice is only noted. */
    method HandleMessage(m: Message, ghost g: TaskGraph)
      requires GraphMessage(m)
      requires Valid() && (activeTaskGraph != null ==> activeTaskGraph.graph == g)
      modifies this, activeTaskGraph
      ensures Valid() && currentTask == old(currentTask) && collaboration == old(collaboration)
      ensures activeTaskGraph == null || activeTaskGraph == old(activeTaskGraph)
      ensures Did(OnMessage(g, checks, old(Active()), m, registered))
    {
      hide ApplyReport, Schedule, OutcomeEvents;
      if m.Reported? {
        HandleTaskGraphReport(m.report);
      }
    }

    /** The commander's message loop: over any messages of a graph's workers it does what its reports make it do, in order. */
    method Run(messages: seq<Message>, ghost g: TaskGraph)
      requires GraphMessages(messages)
      requires Valid() && (activeTaskGraph != null ==> activeTaskGraph.graph == g)
      modifies this, activeTaskGraph
      ensures Valid() && currentTask == old(currentTask) && collaboration == old(collaboration)
      ensures activeTaskGraph == null || activeTaskGraph == old(activeTaskGraph)
      ensures Did(OnMessages(g, checks, old(Active()), messages, registered))
    {
      hide OnMessage, OnMessages, Active;
      ghost var done := Stay(Active());
      StayFirst(OnMessages(g, checks, Active(), messages, registered), Active());
      assert messages[0..] == messages;
      for i := 0 to |messages|
        invariant Valid() && currentTask == old(currentTask) && collaboration == old(collaboration) && Did(done)
        invariant activeTaskGraph == null || activeTaskGraph == old(activeTaskGraph)
        invariant OnMessages(g, checks, old(Active()), messages, registered)
               == Then(done, OnMessages(g, checks, done.active, messages[i..], registered))
      {
        ghost var d := OnMessage(g, checks, done.active, messages[i], registered);
        NextMessage(g, checks, done, messages[i..], registered);
        assert messages[i..][1..] == messages[i + 1..];
        HandleMessage(messages[i], g);
        done := Then(done, d);
      }
      assert messages[|messages|..] == [];
      NoMessages(g, checks, done, registered);
    }

    /** One job as a task graph: the commander starts it and handles whatever messages arrive. */
    method Serve(
      route: Option<RoleRoute>, rules: seq<Rule>, applies: Rule -> bool, lower: string -> string, messages: seq<Message>)
      returns (routed: bool)
      requires Valid() && GraphMessages(messages)
      modifies this
      ensures Valid() && currentTask == old(currentTask)
      ensures var started := StartedGraph(currentTask, route, fastRouteMinScore, registered, rules, applies, lower);
              routed == started.Some?
              && (routed ==> collaboration == Collaboration.NO_COLLAB)
              && (routed ==> Did(Served(started.value, checks, messages, registered)))
    {
      hide OnMessages, Schedule, StartedGraph, Active;
      routed := TryTaskGraphRoute(route, rules, applies, lower);
      if routed {
        ghost var g := StartedGraph(currentTask, route, fastRouteMinScore, registered, rules, applies, lower).value;
        assert Active() == Schedule(g, NewRuntime(g), registered).active;
        Run(messages, g);
      }
    }
  }

  /** A commander that starts a graph and then handles `messages`. */
  ghost function Served(g: TaskGraph, checks: TextChecks, messages: seq<Message>, registered: set<string>): Decision {
    var started := Schedule(g, NewRuntime(g), registered);
    Then(started, OnMessages(g, checks, started.active, messages, registered))
  }

  lemma StayFirst(d: Decision, active: Option<Runtime>)
    ensures Then(Stay(active), d) == d
  {
  }

  lemma NoMessages(g: TaskGraph, checks: TextChecks, done: Decision, registered: set<string>)
    ensures Then(done, OnMessages(g, checks, done.active, [], registered)) == done
  {
  }

  lemma NextMessage(g: TaskGraph, checks: TextChecks, done: Decision, messages: seq<Message>, registered: set<string>)
    requires messages != []
    ensures var d := OnMessage(g, checks, done.active, messages[0], registered);
            Then(done, OnMessages(g, checks, done.active, messages, registered))
            == Then(Then(done, d), OnMessages(g, checks, d.active, messages[1..], registered))
  {
    hide OnMessage;
    var d := OnMessage(g, checks, done.active, messages[0], registered);
    ThenAssociative(done, d, OnMessages(g, checks, d.active, messages[1..], registered));
  }
}
