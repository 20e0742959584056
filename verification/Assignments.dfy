/** What every assignment of a run carries, read off the run's event log. */
module Assignments {
  import opened Common
  import opened TaskGraphs
  import opened Evaluator
  import opened GraphRuntime
  import opened RuntimeInvariant
  import opened Scheduling
  import opened Synthesis
  import opened TaskCommander
  import opened Workers
  import opened Protocol
  import opened ProtocolSafety
  import opened Runs

  /** The last dispatch of a node, or rework request for it, in the log. */
  function LastAbout(log: seq<Event>, id: string): Option<Event> {
    if log == [] then None
    else
      match log[|log| - 1]
      case Dispatched(a) => if a.nodeId == id then Some(log[|log| - 1]) else LastAbout(log[..|log| - 1], id)
      case ReworkRequested(nodeId, _, _, _) => if nodeId == id then Some(log[|log| - 1]) else LastAbout(log[..|log| - 1], id)
      case _ => LastAbout(log[..|log| - 1], id)
  }

  /** The input is a passed node's report, and it is the one whose evaluation passed. */
  ghost predicate PassedReport(rt: Runtime, ref: string, report: WorkerReport) {
    InState(rt.states, ref, Passed) && ref in rt.reports && rt.reports[ref] == report
  }

  /** One report per input reference, in order, and an instruction exactly on a rework. */
  ghost predicate Faithful(rt: Runtime, n: TaskNode, a: WorkerAssignment) {
    && a.nodeId == n.id && a.workerId == n.workerId && a.role == n.role && a.objective == n.objective
    && 1 <= a.attempt <= n.maxAttempts && (a.attempt > 1 <==> a.rework.Some?)
    && |a.inputs| == |n.inputRefs|
    && forall j :: 0 <= j < |n.inputRefs| ==> PassedReport(rt, n.inputRefs[j], a.inputs[j])
  }

  /** A first attempt follows nothing; a rework follows the request that announced it. */
  ghost predicate Announced(before: seq<Event>, a: WorkerAssignment) {
    LastAbout(before, a.nodeId)
    == if a.rework.Some? then Some(ReworkRequested(a.nodeId, a.workerId, a.attempt, a.rework.value)) else None
  }

  /** Every input of the node has been announced as passed. */
  ghost predicate Earned(before: seq<Event>, n: TaskNode) {
    forall r :: r in n.inputRefs ==> NodePassed(r) in before
  }

  /** The assignment names its graph, and its own task within it. */
  predicate Addressed(g: TaskGraph, a: WorkerAssignment) {
    a.graphId == g.graphId && a.taskId == g.graphId + ":" + a.nodeId
  }

  ghost predicate EntryOk(g: TaskGraph, rt: Runtime, log: seq<Event>, i: nat)
    requires i < |log|
  {
    log[i].Dispatched? ==>
      && (exists n :: n in g.nodes && Faithful(rt, n, log[i].assignment) && Earned(log[..i], n))
      && Announced(log[..i], log[i].assignment) && Addressed(g, log[i].assignment)
  }

  /** What the log says about a pending node: nothing, or the rework it is waiting for. */
  ghost predicate Expected(rt: Runtime, log: seq<Event>, n: TaskNode) {
    InState(rt.states, n.id, Pending) ==>
      LastAbout(log, n.id)
      == match ReworkOf(rt, n.id)
         case Some(instruction) => Some(ReworkRequested(n.id, n.workerId, NextAttempt(AttemptsOf(rt, n.id)), instruction))
         case None => None
  }

  /** Exactly what has passed was announced. */
  ghost predicate PassesLogged(rt: Runtime, log: seq<Event>) {
    forall id :: InState(rt.states, id, Passed) <==> NodePassed(id) in log
  }

  ghost predicate LogOk(g: TaskGraph, rt: Runtime, log: seq<Event>) {
    && PassesLogged(rt, log)
    && (forall i :: 0 <= i < |log| ==> EntryOk(g, rt, log, i))
    && (forall n :: n in g.nodes ==> Expected(rt, log, n))
  }

  // ---------------------------------------------------------------- frames

  lemma FaithfulFrame(before: Runtime, after: Runtime, n: TaskNode, a: WorkerAssignment)
    requires Faithful(before, n, a) && KeepsSettled(before, after)
    ensures Faithful(after, n, a)
  {
    forall j | 0 <= j < |n.inputRefs|
      ensures PassedReport(after, n.inputRefs[j], a.inputs[j])
    {
      assert PassedReport(before, n.inputRefs[j], a.inputs[j]);
    }
  }

  lemma EntriesFrame(g: TaskGraph, before: Runtime, after: Runtime, log: seq<Event>, more: seq<Event>)
    requires KeepsSettled(before, after)
    requires forall i :: 0 <= i < |log| ==> EntryOk(g, before, log, i)
    ensures forall i :: 0 <= i < |log| ==> EntryOk(g, after, log + more, i)
  {
    hide KeepsSettled, Faithful, Announced, Earned;
    forall i | 0 <= i < |log|
      ensures EntryOk(g, after, log + more, i)
    {
      assert EntryOk(g, before, log, i);
      assert (log + more)[i] == log[i] && (log + more)[..i] == log[..i];
      if log[i].Dispatched? {
        var n :| n in g.nodes && Faithful(before, n, log[i].assignment) && Earned(log[..i], n);
        FaithfulFrame(before, after, n, log[i].assignment);
      }
    }
  }

  // ---------------------------------------------------------------- dispatch

  lemma {:induction false} InputsComplete(refs: seq<string>, reports: map<string, WorkerReport>)
    requires forall r :: r in refs ==> r in reports
    ensures |InputReports(refs, reports)| == |refs|
    ensures forall j :: 0 <= j < |refs| ==> InputReports(refs, reports)[j] == reports[refs[j]]
  {
    if refs != [] {
      assert refs[|refs| - 1] in refs && forall r :: r in refs[..|refs| - 1] ==> r in refs;
      InputsComplete(refs[..|refs| - 1], reports);
    }
  }

  lemma PassedHasReport(g: TaskGraph, checks: TextChecks, rt: Runtime, r: string)
    requires RuntimeOk(g, checks, rt) && InState(rt.states, r, Passed)
    ensures r in rt.reports
  {
    var n :| n in g.nodes && n.id == r;
    assert NodeOk(checks, rt, n);
  }

  lemma BuildsFaithful(g: TaskGraph, checks: TextChecks, rt: Runtime, n: TaskNode)
    requires RuntimeOk(g, checks, rt) && n in g.nodes && Runnable(rt.states, n) && !WorkerBusy(g, rt.states, n.workerId)
    ensures Faithful(rt, n, BuildAssignment(g, rt, n))
  {
    hide RuntimeOk, KeepsSettled;
    DispatchKeeps(g, checks, rt, n);
    forall r | r in n.inputRefs
      ensures r in rt.reports
    {
      PassedHasReport(g, checks, rt, r);
    }
    InputsComplete(n.inputRefs, rt.reports);
  }

  lemma AppendOther(log: seq<Event>, e: Event, id: string)
    requires e.Dispatched? ==> e.assignment.nodeId != id
    requires e.ReworkRequested? ==> e.nodeId != id
    ensures LastAbout(log + [e], id) == LastAbout(log, id)
  {
    assert (log + [e])[..|log|] == log;
  }

  lemma DispatchOneLog(g: TaskGraph, checks: TextChecks, rt: Runtime, log: seq<Event>, n: TaskNode)
    requires RuntimeOk(g, checks, rt) && LogOk(g, rt, log)
    requires n in g.nodes && Runnable(rt.states, n) && !WorkerBusy(g, rt.states, n.workerId)
    ensures var a := BuildAssignment(g, rt, n); LogOk(g, MarkRunning(rt, a), log + [Dispatched(a)])
  {
    hide RuntimeOk, KeepsSettled, Faithful, EntryOk, WorkerBusy, InputReports, Expected, Earned, PassesLogged;
    var a := BuildAssignment(g, rt, n);
    var after, more := MarkRunning(rt, a), log + [Dispatched(a)];
    InputsEarned(rt, log, n);
    DispatchPasses(g, rt, log, n);
    DispatchKeeps(g, checks, rt, n);
    BuildsFaithful(g, checks, rt, n);
    FaithfulFrame(rt, after, n, a);
    EntriesFrame(g, rt, after, log, [Dispatched(a)]);
    NewEntry(g, rt, after, log, n);
    forall m | m in g.nodes
      ensures Expected(after, more, m)
    {
      DispatchedExpected(g, rt, log, n, m);
    }
  }

  lemma InputsEarned(rt: Runtime, log: seq<Event>, n: TaskNode)
    requires PassesLogged(rt, log) && InputsPassed(rt.states, n)
    ensures Earned(log, n)
  {
  }

  lemma BuildsFor(g: TaskGraph, rt: Runtime, n: TaskNode)
    ensures BuildAssignment(g, rt, n).nodeId == n.id
  {
  }

  lemma DispatchPasses(g: TaskGraph, rt: Runtime, log: seq<Event>, n: TaskNode)
    requires PassesLogged(rt, log) && InState(rt.states, n.id, Pending)
    ensures PassesLogged(MarkRunning(rt, BuildAssignment(g, rt, n)), log + [Dispatched(BuildAssignment(g, rt, n))])
  {
    hide BuildAssignment;
    forall id
      ensures InState(MarkRunning(rt, BuildAssignment(g, rt, n)).states, id, Passed) <==> InState(rt.states, id, Passed)
    {
      BuildsFor(g, rt, n);
    }
  }

  lemma DispatchedExpected(g: TaskGraph, rt: Runtime, log: seq<Event>, n: TaskNode, m: TaskNode)
    requires Expected(rt, log, m)
    ensures Expected(MarkRunning(rt, BuildAssignment(g, rt, n)), log + [Dispatched(BuildAssignment(g, rt, n))], m)
  {
    hide InputReports;
    if m.id != n.id {
      AppendOther(log, Dispatched(BuildAssignment(g, rt, n)), m.id);
    }
  }

  lemma NewEntry(g: TaskGraph, rt: Runtime, after: Runtime, log: seq<Event>, n: TaskNode)
    requires n in g.nodes && InState(rt.states, n.id, Pending) && Expected(rt, log, n)
    requires Faithful(after, n, BuildAssignment(g, rt, n)) && Earned(log, n)
    ensures EntryOk(g, after, log + [Dispatched(BuildAssignment(g, rt, n))], |log|)
  {
    hide Faithful, InputReports, Earned;
    var a := BuildAssignment(g, rt, n);
    assert (log + [Dispatched(a)])[..|log|] == log;
  }

  lemma {:induction false} DispatchAllLog(setup: Setup, rt: Runtime, s: System, log: seq<Event>, ready: seq<TaskNode>)
    requires AllRegistered(setup.graph, setup.workers) && s.cells.Keys == setup.workers
    requires RuntimeOk(setup.graph, setup.checks, rt) && TokensOk(setup.graph, rt, s.cells, s.inbox)
    requires Selection(setup.graph, rt.states, ready) && LogOk(setup.graph, rt, log)
    ensures var d := DispatchAll(setup.graph, rt, ready, setup.workers); LogOk(setup.graph, d.rt, log + DispatchEvents(d.sends))
  {
    hide RuntimeOk, TokensOk, Runnable, WorkerBusy, LogOk, PostOne, BuildAssignment, MarkRunning;
    if ready == [] {
      assert log + DispatchEvents([]) == log;
    } else {
      var front, n := ready[..|ready| - 1], ready[|ready| - 1];
      assert ready == front + [n];
      SelectionSplit(setup.graph, rt.states, front, n);
      DispatchAllLog(setup, rt, s, log, front);
      DispatchAllKeeps(setup, rt, s.cells, s.inbox, front);
      var d := DispatchAll(setup.graph, rt, front, setup.workers);
      SelectionLast(setup.graph, setup.checks, rt, d.rt, front, n);
      hide DispatchEffect, Selection, InputReports;
      DispatchOneLog(setup.graph, setup.checks, d.rt, log + DispatchEvents(d.sends), n);
      var a := BuildAssignment(setup.graph, d.rt, n);
      assert log + DispatchEvents(d.sends) + [Dispatched(a)] == log + DispatchEvents(d.sends + [a]);
    }
  }

  // ---------------------------------------------------------------- reports

  lemma ReportLog(g: TaskGraph, checks: TextChecks, rt: Runtime, n: TaskNode, report: WorkerReport, log: seq<Event>)
    requires RuntimeOk(g, checks, rt) && LogOk(g, rt, log)
    requires n in g.nodes && InState(rt.states, n.id, Running) && report.nodeId == n.id && report.workerId == n.workerId
    ensures var (after, outcome) := ApplyReport(g, checks, rt, report);
            LogOk(g, after, log + OutcomeEvents(after, report, outcome))
  {
    hide RuntimeOk, ApplyReport, KeepsSettled, EntryOk, WellFormed, ReportEffect, OutcomeEvents, Expected, PassesLogged;
    var (after, outcome) := ApplyReport(g, checks, rt, report);
    var events := OutcomeEvents(after, report, outcome);
    RuntimeOkParts(g, checks, rt);
    NodeIdentity(g);
    ReportKeeps(g, checks, rt, n, report);
    EffectKeepsSettled(rt, after, n.id);
    EntriesFrame(g, rt, after, log, events);
    NoDispatchEntries(g, after, report, outcome, log);
    RunningAttempted(g, checks, rt, after, n);
    ReportPasses(rt, after, report, outcome, log, n);
    forall m | m in g.nodes
      ensures Expected(after, log + events, m)
    {
      if m.id != n.id {
        BystanderExpected(rt, after, report, outcome, log, n, m);
      } else {
        ReportedExpected(checks, rt, after, report, outcome, log, n);
      }
    }
  }

  lemma ReportPasses(rt: Runtime, after: Runtime, report: WorkerReport, outcome: Outcome, log: seq<Event>, n: TaskNode)
    requires PassesLogged(rt, log) && ReportEffect(rt, after, n.id) && OutcomeShown(after, n.id, outcome)
    requires report.nodeId == n.id && InState(rt.states, n.id, Running)
    ensures PassesLogged(after, log + OutcomeEvents(after, report, outcome))
  {
    var events := OutcomeEvents(after, report, outcome);
    assert events == [events[0], events[1]] && !events[0].NodePassed?;
    forall id
      ensures InState(after.states, id, Passed) <==> NodePassed(id) in log + events
    {
      if id != n.id {
        assert Bystander(rt, after, id);
      }
    }
  }

  lemma RunningAttempted(g: TaskGraph, checks: TextChecks, rt: Runtime, after: Runtime, n: TaskNode)
    requires RuntimeOk(g, checks, rt) && n in g.nodes && InState(rt.states, n.id, Running) && ReportEffect(rt, after, n.id)
    ensures n.id in rt.attempts && after.attempts == rt.attempts
  {
    assert NodeOk(checks, rt, n);
  }

  lemma NoDispatchEntries(g: TaskGraph, after: Runtime, report: WorkerReport, outcome: Outcome, log: seq<Event>)
    ensures var more := log + OutcomeEvents(after, report, outcome);
            forall i :: |log| <= i < |more| ==> EntryOk(g, after, more, i)
  {
    hide Faithful, Announced, Earned;
    var events := OutcomeEvents(after, report, outcome);
    assert |events| == 2 && !events[0].Dispatched? && !events[1].Dispatched?;
  }

  lemma BystanderExpected(rt: Runtime, after: Runtime, report: WorkerReport, outcome: Outcome, log: seq<Event>,
      n: TaskNode, m: TaskNode)
    requires ReportEffect(rt, after, n.id) && m.id != n.id && report.nodeId == n.id && Expected(rt, log, m)
    ensures Expected(after, log + OutcomeEvents(after, report, outcome), m)
  {
    var events := OutcomeEvents(after, report, outcome);
    assert Bystander(rt, after, m.id);
    assert log + events == log + [events[0]] + [events[1]];
    AppendOther(log, events[0], m.id);
    AppendOther(log + [events[0]], events[1], m.id);
  }

  lemma ReportedExpected(checks: TextChecks, rt: Runtime, after: Runtime, report: WorkerReport, outcome: Outcome,
      log: seq<Event>, n: TaskNode)
    requires OutcomeShown(after, n.id, outcome) && report.nodeId == n.id && report.workerId == n.workerId
    requires n.id in rt.attempts && after.attempts == rt.attempts
    ensures Expected(after, log + OutcomeEvents(after, report, outcome), n)
  {
    var events := OutcomeEvents(after, report, outcome);
    assert log + events == log + [events[0]] + [events[1]];
    if outcome.OutcomeRework? {
      assert (log + events)[|log + events| - 1] == events[1];
    }
  }

  // ---------------------------------------------------------------- runs

  ghost predicate SystemLogOk(setup: Setup, s: System) {
    Current(s).Some? && LogOk(setup.graph, Current(s).value, s.log)
  }

  lemma ScheduleLog(setup: Setup, rt: Runtime, s: System)
    requires SetupOk(setup) && s.cells.Keys == setup.workers && s.recorded == []
    requires RuntimeOk(setup.graph, setup.checks, rt) && TokensOk(setup.graph, rt, s.cells, s.inbox)
    requires LogOk(setup.graph, rt, s.log)
    ensures SystemLogOk(setup, Perform(s, Schedule(setup.graph, rt, setup.workers)))
  {
    hide RuntimeOk, TokensOk, LogOk, ReadyNodes, Selection, Synthesize, WellFormed, IsFinished;
    if IsFinished(rt.states) {
      assert s.recorded + [rt] == [rt];
      SilentEvent(setup.graph, rt, s.log);
    } else {
      ReadySelection(setup.graph, rt.states);
      DispatchAllLog(setup, rt, s, s.log, ReadyNodes(setup.graph, rt.states));
    }
  }

  lemma SilentEvent(g: TaskGraph, rt: Runtime, log: seq<Event>)
    requires LogOk(g, rt, log)
    ensures LogOk(g, rt, log + [GraphFinished])
  {
    hide Faithful, Announced, Earned;
    EntriesFrame(g, rt, rt, log, [GraphFinished]);
    forall n | n in g.nodes
      ensures Expected(rt, log + [GraphFinished], n)
    {
      AppendOther(log, GraphFinished, n.id);
      assert Expected(rt, log, n);
    }
  }

  lemma DeliverLog(setup: Setup, s: System)
    requires Enabled(s, DeliverStep)
    requires SetupOk(setup) && IsDag(setup.graph) && SystemOk(setup, s) && s.active.Some? && SystemLogOk(setup, s)
    ensures SystemLogOk(setup, Next(setup, s, DeliverStep))
  {
    hide RuntimeOk, TokensOk, NoIdleReady, ApplyReport, Schedule, CurrentAssignment, NoToken, WellFormed,
        ReportsFrom, SetupOk, IsDag, IsFinished, LogOk;
    var rt, rest := s.active.value, s.(inbox := s.inbox[1..]);
    if s.inbox[0].Reported? {
      var n := ReportArrives(setup.graph, rt, s);
      var report := s.inbox[0].report;
      AnswersNode(setup.graph, rt, n, report);
      ReportKeeps(setup.graph, setup.checks, rt, n, report);
      ReportLog(setup.graph, setup.checks, rt, n, report, s.log);
      var (after, outcome) := ApplyReport(setup.graph, setup.checks, rt, report);
      AppliedTokens(setup.graph, setup.checks, rt, after, n, s);
      var noted := rest.(log := s.log + OutcomeEvents(after, report, outcome));
      ScheduleLog(setup, after, noted);
      var d := Schedule(setup.graph, after, setup.workers);
      assert s.log + (OutcomeEvents(after, report, outcome) + d.events) == noted.log + d.events;
      assert Next(setup, s, DeliverStep) == Perform(noted, d);
    }
  }

  lemma StepLog(setup: Setup, s: System, a: Action)
    requires Enabled(s, a)
    requires SetupOk(setup) && IsDag(setup.graph) && SystemOk(setup, s) && SystemLogOk(setup, s)
    ensures SystemLogOk(setup, Next(setup, s, a))
  {
    hide SetupOk, IsDag, SystemOk, Next, LogOk;
    if s.active.None? {
      FinishedDrops(setup, s, a);
    } else if WorkerStep(a) {
      WorkerStepSilent(setup, s, a);
    } else {
      DeliverLog(setup, s);
    }
  }

  lemma {:induction false} RunLog(setup: Setup, s: System, run: seq<Action>)
    requires SetupOk(setup) && IsDag(setup.graph) && SystemOk(setup, s) && SystemLogOk(setup, s) && Legal(setup, s, run)
    ensures SystemLogOk(setup, Exec(setup, s, run))
    decreases |run|
  {
    hide SetupOk, IsDag, SystemOk, Next, Enabled, SystemLogOk;
    if run != [] {
      StepKeeps(setup, s, run[0]);
      StepLog(setup, s, run[0]);
      RunLog(setup, Next(setup, s, run[0]), run[1..]);
    }
  }

  lemma BootLog(setup: Setup)
    requires SetupOk(setup)
    ensures SystemLogOk(setup, Boot(setup))
  {
    hide RuntimeOk, Schedule, WellFormed;
    var rt := NewRuntime(setup.graph);
    var idle := System(map w | w in setup.workers :: Cell([], IDLE), [], None, [], [], []);
    NewRuntimeOk(setup.graph, setup.checks);
    assert forall id :: id in rt.states ==> rt.states[id] == Pending;
    NewTokens(setup, rt, idle.cells);
    ScheduleLog(setup, rt, idle);
  }

  /** The report passes its node's evaluation, and so is completed, structured and cites all its inputs. */
  ghost predicate Accepted(checks: TextChecks, rt: Runtime, n: TaskNode, report: WorkerReport) {
    && Evaluate(checks, report, Some(n), rt.reports).passed
    && report.status.ReportCompleted? && report.roleOutput.Some?
    && forall r :: r in n.inputRefs ==> Cited(report.roleOutput.value.evidence, r, rt.reports)
  }

  /**
   * Faithful assignments: whatever was dispatched in a run went to its node's worker after every input of
   * the node was announced as passed, with one report per input reference, in order, each accepted by the
   * evaluation and citing all inputs of its own node; and a rework is exactly the attempt that was last announced for the node.
   */
  lemma AssignmentsFaithful(setup: Setup, run: seq<Action>, i: nat)
    requires SetupOk(setup) && IsDag(setup.graph) && Legal(setup, Boot(setup), run)
    requires i < |Exec(setup, Boot(setup), run).log| && Exec(setup, Boot(setup), run).log[i].Dispatched?
    ensures var last := Exec(setup, Boot(setup), run);
            var a := last.log[i].assignment;
            && Current(last).Some?
            && (exists n :: n in setup.graph.nodes && Faithful(Current(last).value, n, a) && Earned(last.log[..i], n))
            && (forall m, report :: m in setup.graph.nodes && PassedReport(Current(last).value, m.id, report) ==>
                  Accepted(setup.checks, Current(last).value, m, report))
            && Announced(last.log[..i], a) && Addressed(setup.graph, a)
  {
    hide Boot, Legal, Exec, RuntimeOk, WellFormed, IsDag, Faithful, Announced, Earned;
    BootOk(setup);
    BootLog(setup);
    RunOk(setup, Boot(setup), run);
    RunLog(setup, Boot(setup), run);
    var last := Exec(setup, Boot(setup), run);
    CurrentOk(setup, last);
    assert EntryOk(setup.graph, Current(last).value, last.log, i);
    hide SystemOk, SystemLogOk, EntryOk;
    forall m, report | m in setup.graph.nodes && PassedReport(Current(last).value, m.id, report)
      ensures Accepted(setup.checks, Current(last).value, m, report)
    {
      PassedIsAccepted(setup.graph, setup.checks, Current(last).value, m, report);
    }
  }

  lemma PassedIsAccepted(g: TaskGraph, checks: TextChecks, rt: Runtime, n: TaskNode, report: WorkerReport)
    requires RuntimeOk(g, checks, rt) && n in g.nodes && PassedReport(rt, n.id, report)
    ensures Accepted(checks, rt, n, report)
  {
    assert NodeOk(checks, rt, n);
    PassedExactly(checks, report, n, rt.reports);
  }
}
