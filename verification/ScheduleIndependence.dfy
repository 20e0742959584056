/** The outcome of a run does not depend on how its steps were interleaved. */
module ScheduleIndependence {
  import opened Common
  import opened TaskGraphs
  import opened GraphRuntime
  import opened RuntimeInvariant
  import opened Scheduling
  import opened Synthesis
  import opened TaskCommander
  import opened Workers
  import opened Protocol
  import opened ProtocolSafety
  import opened Runs
  import opened Denotation
  import opened Ledger

  function PlanOf(setup: Setup, answer: WorkerAssignment -> WorkerReport): Plan {
    Plan(setup.graph, setup.checks, answer)
  }

  /** When the step sends a report, the report is `answer` of the worker's assignment. */
  ghost predicate Follows(answer: WorkerAssignment -> WorkerReport, s: System, a: Action)
    requires Enabled(s, a)
  {
    a.AnswerStep? && s.cells[a.w].worker.task.Some? && s.cells[a.w].worker.task.value.assignment.Some? ==>
      ReportsOf(Sent(s, a)) == [answer(s.cells[a.w].worker.task.value.assignment.value)]
  }

  ghost predicate FollowsAll(setup: Setup, answer: WorkerAssignment -> WorkerReport, s: System, run: seq<Action>)
    requires Legal(setup, s, run)
    decreases |run|
  {
    run == [] || (Follows(answer, s, run[0]) && FollowsAll(setup, answer, Next(setup, s, run[0]), run[1..]))
  }

  // ---------------------------------------------------------------- the invariant

  /** Every report on its way back is the answer to its node's current assignment. */
  ghost predicate AnswersInFlight(p: Plan, rt: Runtime, inbox: seq<Message>) {
    forall n :: n in p.graph.nodes && InState(rt.states, n.id, Running) ==> InFlight(p, rt, inbox, n)
  }

  ghost predicate InFlight(p: Plan, rt: Runtime, inbox: seq<Message>, n: TaskNode) {
    ReportsFrom(inbox, n.workerId) == [] || ReportsFrom(inbox, n.workerId)[0] == p.answer(CurrentAssignment(p.graph, rt, n))
  }

  /** Every node's entries are the trace of its attempts, and each concluded attempt was judged once. */
  ghost predicate Histories(p: Plan, rt: Runtime) {
    Balanced(p, rt) && forall n :: n in p.graph.nodes ==> HistoryOk(p, rt, n)
  }

  ghost predicate TraceOk(p: Plan, s: System) {
    match s.active
    case Some(rt) => Histories(p, rt) && AnswersInFlight(p, rt, s.inbox)
    case None => |s.recorded| == 1 && Histories(p, s.recorded[0])
  }

  lemma WorkerStepTrace(setup: Setup, answer: WorkerAssignment -> WorkerReport, s: System, a: Action)
    requires Enabled(s, a)
    requires SystemOk(setup, s) && s.active.Some? && WorkerStep(a)
    requires TraceOk(PlanOf(setup, answer), s) && Follows(answer, s, a)
    ensures TraceOk(PlanOf(setup, answer), Next(setup, s, a))
  {
    hide RuntimeOk, NoIdleReady, IsFinished, TokensOk, CurrentAssignment, Next, ReportsFrom, NoToken, OneToken,
        HistoryOk, Follows, InFlight;
    var p, rt, after := PlanOf(setup, answer), s.active.value, Next(setup, s, a);
    RuntimeOkParts(setup.graph, setup.checks, rt);
    IdleCellsStuck(s, a, ReportsFrom(s.inbox, a.w));
    var n := BusyWorkerHasNode(setup.graph, rt, s, a.w);
    CurrentWorker(setup.graph, rt, n);
    WorkerStepEffect(setup, s, a, CurrentAssignment(setup.graph, rt, n), ReportsFrom(s.inbox, a.w));
    SentByWorker(s, after, a.w, Sent(s, a));
    AnswerFollows(answer, s, a, CurrentAssignment(setup.graph, rt, n), ReportsFrom(s.inbox, a.w));
    forall m | m in p.graph.nodes && InState(rt.states, m.id, Running)
      ensures InFlight(p, rt, after.inbox, m)
    {
      if m.workerId == a.w {
        assert m == n;
        OwnAnswer(p, rt, s, after, n, ReportsOf(Sent(s, a)));
      } else {
        OtherAnswer(p, rt, s, after, m);
      }
    }
  }

  lemma AnswerFollows(answer: WorkerAssignment -> WorkerReport, s: System, a: Action, token: WorkerAssignment,
      reports: seq<WorkerReport>)
    requires Enabled(s, a)
    requires WorkerStep(a) && OneToken(s.cells[a.w], reports, token) && Follows(answer, s, a)
    ensures ReportsOf(Sent(s, a)) == [] || (ReportsOf(Sent(s, a)) == [answer(token)] && reports == [])
  {
  }

  lemma OwnAnswer(p: Plan, rt: Runtime, s: System, after: System, n: TaskNode, sent: seq<WorkerReport>)
    requires InFlight(p, rt, s.inbox, n)
    requires ReportsFrom(after.inbox, n.workerId) == ReportsFrom(s.inbox, n.workerId) + sent
    requires sent == [] || (sent == [p.answer(CurrentAssignment(p.graph, rt, n))] && ReportsFrom(s.inbox, n.workerId) == [])
    ensures InFlight(p, rt, after.inbox, n)
  {
    hide CurrentAssignment, ReportsFrom;
  }

  lemma OtherAnswer(p: Plan, rt: Runtime, s: System, after: System, m: TaskNode)
    requires InFlight(p, rt, s.inbox, m) && ReportsFrom(after.inbox, m.workerId) == ReportsFrom(s.inbox, m.workerId)
    ensures InFlight(p, rt, after.inbox, m)
  {
  }

  // ---------------------------------------------------------------- scheduling

  lemma DispatchOneHistory(p: Plan, rt: Runtime, n: TaskNode)
    requires RuntimeOk(p.graph, p.checks, rt) && Histories(p, rt) && n in p.graph.nodes
    requires Runnable(rt.states, n) && !WorkerBusy(p.graph, rt.states, n.workerId)
    ensures Histories(p, MarkRunning(rt, BuildAssignment(p.graph, rt, n)))
  {
    hide NodeOk, HistoryOk, WellFormed, WorkerBusy, InputsPassed, InputReports, KeysOk, OnePerWorker, KeepsSettled,
        Balanced;
    NodeIdentity(p.graph);
    DispatchKeeps(p.graph, p.checks, rt, n);
    var after := MarkRunning(rt, BuildAssignment(p.graph, rt, n));
    DispatchHistory(p, rt, n);
    DispatchBalanced(p, rt, n);
    forall m | m in p.graph.nodes && m.id != n.id
      ensures HistoryOk(p, after, m)
    {
      assert NodeOk(p.checks, rt, m);
      HasState(p, rt, m);
      HistoryFrame(p, rt, after, m);
    }
    assert forall m :: m in p.graph.nodes ==> HistoryOk(p, after, m);
  }

  lemma HasState(p: Plan, rt: Runtime, m: TaskNode)
    requires HistoryOk(p, rt, m)
    ensures m.id in rt.states
  {
  }

  /** A freshly dispatched node has no report in flight, and the others keep their answers. */
  lemma DispatchOneInFlight(p: Plan, rt: Runtime, cells: map<string, Cell>, inbox: seq<Message>, n: TaskNode)
    requires RuntimeOk(p.graph, p.checks, rt) && TokensOk(p.graph, rt, cells, inbox)
    requires n in p.graph.nodes && n.workerId in cells
    requires Runnable(rt.states, n) && !WorkerBusy(p.graph, rt.states, n.workerId)
    requires AnswersInFlight(p, rt, inbox)
    ensures AnswersInFlight(p, MarkRunning(rt, BuildAssignment(p.graph, rt, n)), inbox)
  {
    hide RuntimeOk, TokensOk, InFlight, KeepsSettled, WorkerBusy, InputReports, Runnable;
    DispatchKeeps(p.graph, p.checks, rt, n);
    IdleHasNoToken(p.graph, rt, cells, inbox, n.workerId);
    var after := MarkRunning(rt, BuildAssignment(p.graph, rt, n));
    forall m | m in p.graph.nodes && InState(after.states, m.id, Running)
      ensures InFlight(p, after, inbox, m)
    {
      if m == n {
        NothingInFlight(p, after, inbox, n, cells[n.workerId]);
      } else {
        OtherRunning(p.graph, p.checks, rt, n, m);
        SameInFlight(p, rt, after, inbox, m);
      }
    }
  }

  lemma NothingInFlight(p: Plan, rt: Runtime, inbox: seq<Message>, n: TaskNode, cell: Cell)
    requires NoToken(cell, ReportsFrom(inbox, n.workerId))
    ensures InFlight(p, rt, inbox, n)
  {
  }

  lemma SameInFlight(p: Plan, rt: Runtime, after: Runtime, inbox: seq<Message>, m: TaskNode)
    requires InFlight(p, rt, inbox, m) && CurrentAssignment(p.graph, rt, m) == CurrentAssignment(p.graph, after, m)
    ensures InFlight(p, after, inbox, m)
  {
  }

  lemma {:induction false} DispatchAllTrace(setup: Setup, answer: WorkerAssignment -> WorkerReport, rt: Runtime,
      s: System, ready: seq<TaskNode>)
    requires AllRegistered(setup.graph, setup.workers) && s.cells.Keys == setup.workers
    requires RuntimeOk(setup.graph, setup.checks, rt) && TokensOk(setup.graph, rt, s.cells, s.inbox)
    requires Selection(setup.graph, rt.states, ready)
    requires Histories(PlanOf(setup, answer), rt) && AnswersInFlight(PlanOf(setup, answer), rt, s.inbox)
    ensures var after := DispatchAll(setup.graph, rt, ready, setup.workers).rt;
            Histories(PlanOf(setup, answer), after) && AnswersInFlight(PlanOf(setup, answer), after, s.inbox)
  {
    hide RuntimeOk, TokensOk, Runnable, WorkerBusy, Histories, AnswersInFlight;
    if ready != [] {
      var front, n := ready[..|ready| - 1], ready[|ready| - 1];
      assert ready == front + [n];
      SelectionSplit(setup.graph, rt.states, front, n);
      DispatchAllTrace(setup, answer, rt, s, front);
      DispatchAllKeeps(setup, rt, s.cells, s.inbox, front);
      var d := DispatchAll(setup.graph, rt, front, setup.workers);
      SelectionLast(setup.graph, setup.checks, rt, d.rt, front, n);
      hide DispatchEffect, Selection, InputReports;
      DispatchOneHistory(PlanOf(setup, answer), d.rt, n);
      DispatchOneInFlight(PlanOf(setup, answer), d.rt, Post(s.cells, d.sends), s.inbox, n);
    }
  }

  lemma ScheduleTrace(setup: Setup, answer: WorkerAssignment -> WorkerReport, rt: Runtime, s: System)
    requires SetupOk(setup) && s.cells.Keys == setup.workers && s.recorded == []
    requires RuntimeOk(setup.graph, setup.checks, rt) && TokensOk(setup.graph, rt, s.cells, s.inbox)
    requires Histories(PlanOf(setup, answer), rt) && AnswersInFlight(PlanOf(setup, answer), rt, s.inbox)
    ensures TraceOk(PlanOf(setup, answer), Perform(s, Schedule(setup.graph, rt, setup.workers)))
  {
    hide RuntimeOk, TokensOk, Histories, AnswersInFlight, ReadyNodes, Selection, Synthesize, WellFormed, IsFinished;
    if IsFinished(rt.states) {
      assert s.recorded + [rt] == [rt];
    } else {
      ReadySelection(setup.graph, rt.states);
      DispatchAllTrace(setup, answer, rt, s, ReadyNodes(setup.graph, rt.states));
    }
  }

  // ---------------------------------------------------------------- deliveries

  lemma AppliedHistories(setup: Setup, answer: WorkerAssignment -> WorkerReport, rt: Runtime, n: TaskNode,
      report: WorkerReport)
    requires RuntimeOk(setup.graph, setup.checks, rt) && Histories(PlanOf(setup, answer), rt)
    requires n in setup.graph.nodes && InState(rt.states, n.id, Running) && report.nodeId == n.id
    requires report == answer(CurrentAssignment(setup.graph, rt, n))
    ensures Histories(PlanOf(setup, answer), ApplyReport(setup.graph, setup.checks, rt, report).0)
  {
    hide NodeOk, HistoryOk, WellFormed, KeysOk, OnePerWorker, ApplyReport, ReportEffect, InputReports, KeepsSettled,
        Balanced;
    var p, after := PlanOf(setup, answer), ApplyReport(setup.graph, setup.checks, rt, report).0;
    NodeIdentity(setup.graph);
    ReportKeeps(setup.graph, setup.checks, rt, n, report);
    EffectKeepsSettled(rt, after, n.id);
    AnswerIsAttempt(p, rt, n);
    ReportHistory(p, rt, n, report);
    ReportBalanced(p, rt, n, report);
    forall m | m in setup.graph.nodes && m.id != n.id
      ensures HistoryOk(p, after, m)
    {
      assert NodeOk(setup.checks, rt, m);
      HasState(p, rt, m);
      BystanderHistory(p, rt, after, n, m);
    }
    assert forall m :: m in setup.graph.nodes ==> HistoryOk(p, after, m);
  }

  lemma BystanderHistory(p: Plan, rt: Runtime, after: Runtime, n: TaskNode, m: TaskNode)
    requires NodeOk(p.checks, rt, m) && HistoryOk(p, rt, m) && KeepsSettled(rt, after)
    requires ReportEffect(rt, after, n.id) && m.id != n.id && m.id in rt.states
    ensures HistoryOk(p, after, m)
  {
    hide NodeOk, HistoryOk, KeepsSettled;
    assert Bystander(rt, after, m.id);
    HistoryFrame(p, rt, after, m);
  }

  lemma AppliedInFlight(setup: Setup, answer: WorkerAssignment -> WorkerReport, rt: Runtime, after: Runtime,
      n: TaskNode, inbox: seq<Message>)
    requires RuntimeOk(setup.graph, setup.checks, rt) && n in setup.graph.nodes && InState(rt.states, n.id, Running)
    requires ReportEffect(rt, after, n.id) && inbox != []
    requires forall w :: w != n.workerId ==> ReportsFrom(inbox[1..], w) == ReportsFrom(inbox, w)
    requires AnswersInFlight(PlanOf(setup, answer), rt, inbox)
    ensures AnswersInFlight(PlanOf(setup, answer), after, inbox[1..])
  {
    hide RuntimeOk, ReportEffect, InFlight, CurrentAssignment;
    var p := PlanOf(setup, answer);
    forall m | m in setup.graph.nodes && InState(after.states, m.id, Running)
      ensures InFlight(p, after, inbox[1..], m)
    {
      StillRunning(setup.graph, setup.checks, rt, after, n, m);
      SameInFlight(p, rt, after, inbox, m);
      SameReports(p, after, inbox, inbox[1..], m);
    }
  }

  lemma SameReports(p: Plan, rt: Runtime, inbox: seq<Message>, rest: seq<Message>, m: TaskNode)
    requires InFlight(p, rt, inbox, m) && ReportsFrom(rest, m.workerId) == ReportsFrom(inbox, m.workerId)
    ensures InFlight(p, rt, rest, m)
  {
  }

  lemma DeliverTrace(setup: Setup, answer: WorkerAssignment -> WorkerReport, s: System)
    requires Enabled(s, DeliverStep)
    requires SetupOk(setup) && IsDag(setup.graph) && SystemOk(setup, s) && s.active.Some?
    requires TraceOk(PlanOf(setup, answer), s)
    ensures TraceOk(PlanOf(setup, answer), Next(setup, s, DeliverStep))
  {
    hide RuntimeOk, TokensOk, NoIdleReady, ApplyReport, Schedule, CurrentAssignment, NoToken, WellFormed,
        ReportsFrom, SetupOk, IsDag, IsFinished, Histories;
    var p, rt, rest := PlanOf(setup, answer), s.active.value, s.(inbox := s.inbox[1..]);
    if s.inbox[0].Reported? {
      var n := ReportArrives(setup.graph, rt, s);
      var report := s.inbox[0].report;
      AnswersNode(setup.graph, rt, n, report);
      HeadReport(s.inbox);
      assert InFlight(p, rt, s.inbox, n);
      ReportKeeps(setup.graph, setup.checks, rt, n, report);
      var after := ApplyReport(setup.graph, setup.checks, rt, report).0;
      AppliedTokens(setup.graph, setup.checks, rt, after, n, s);
      AppliedHistories(setup, answer, rt, n, report);
      AppliedInFlight(setup, answer, rt, after, n, s.inbox);
      ScheduleTrace(setup, answer, after, rest);
      TraceIgnoresLog(p, Perform(rest, Schedule(setup.graph, after, setup.workers)), Next(setup, s, DeliverStep));
    } else {
      StartedIsSilent(s.inbox);
      forall m | m in p.graph.nodes && InState(rt.states, m.id, Running)
        ensures InFlight(p, rt, rest.inbox, m)
      {
        SameReports(p, rt, s.inbox, rest.inbox, m);
      }
    }
  }

  lemma TraceIgnoresLog(p: Plan, s: System, t: System)
    requires TraceOk(p, s) && t == s.(log := t.log)
    ensures TraceOk(p, t)
  {
  }

  lemma HeadReport(inbox: seq<Message>)
    requires inbox != [] && inbox[0].Reported?
    ensures ReportsFrom(inbox, inbox[0].report.workerId) != []
    ensures ReportsFrom(inbox, inbox[0].report.workerId)[0] == inbox[0].report
  {
  }

  lemma StepTrace(setup: Setup, answer: WorkerAssignment -> WorkerReport, s: System, a: Action)
    requires Enabled(s, a)
    requires SetupOk(setup) && IsDag(setup.graph) && SystemOk(setup, s)
    requires TraceOk(PlanOf(setup, answer), s) && Follows(answer, s, a)
    ensures TraceOk(PlanOf(setup, answer), Next(setup, s, a))
  {
    hide SetupOk, IsDag, SystemOk, Next, Follows;
    if s.active.None? {
      FinishedTrace(setup, answer, s, a);
    } else if WorkerStep(a) {
      WorkerStepTrace(setup, answer, s, a);
    } else {
      DeliverTrace(setup, answer, s);
    }
  }

  lemma FinishedTrace(setup: Setup, answer: WorkerAssignment -> WorkerReport, s: System, a: Action)
    requires Enabled(s, a)
    requires SystemOk(setup, s) && s.active.None? && TraceOk(PlanOf(setup, answer), s)
    ensures TraceOk(PlanOf(setup, answer), Next(setup, s, a))
  {
    hide RuntimeOk, IsFinished, Synthesize, ReportsFrom, Histories;
    if WorkerStep(a) {
      IdleCellsStuck(s, a, ReportsFrom(s.inbox, a.w));
    }
  }

  lemma {:induction false} RunTrace(setup: Setup, answer: WorkerAssignment -> WorkerReport, s: System, run: seq<Action>)
    requires SetupOk(setup) && IsDag(setup.graph) && SystemOk(setup, s) && Legal(setup, s, run)
    requires FollowsAll(setup, answer, s, run) && TraceOk(PlanOf(setup, answer), s)
    ensures TraceOk(PlanOf(setup, answer), Exec(setup, s, run))
    decreases |run|
  {
    hide SetupOk, IsDag, SystemOk, Next, Enabled, Follows, TraceOk;
    if run != [] {
      StepKeeps(setup, s, run[0]);
      StepTrace(setup, answer, s, run[0]);
      RunTrace(setup, answer, Next(setup, s, run[0]), run[1..]);
    }
  }

  lemma BootTrace(setup: Setup, answer: WorkerAssignment -> WorkerReport)
    requires SetupOk(setup)
    ensures TraceOk(PlanOf(setup, answer), Boot(setup))
  {
    hide RuntimeOk, Schedule, WellFormed, HistoryOk, InFlight, Balanced;
    var g, rt := setup.graph, NewRuntime(setup.graph);
    var idle := System(map w | w in setup.workers :: Cell([], IDLE), [], None, [], [], []);
    NewRuntimeOk(g, setup.checks);
    NewTokens(setup, rt, idle.cells);
    NewBalanced(PlanOf(setup, answer));
    forall n | n in g.nodes
      ensures HistoryOk(PlanOf(setup, answer), rt, n) && InState(rt.states, n.id, Pending)
    {
      NewHistory(PlanOf(setup, answer), n);
    }
    assert forall n :: n in g.nodes ==> !InState(rt.states, n.id, Running);
    ScheduleTrace(setup, answer, rt, idle);
  }

  lemma NewHistory(p: Plan, n: TaskNode)
    requires n in p.graph.nodes
    ensures HistoryOk(p, NewRuntime(p.graph), n) && InState(NewRuntime(p.graph).states, n.id, Pending)
  {
    assert n.id in NewRuntime(p.graph).states;
  }

  // ---------------------------------------------------------------- main theorems

  /** What a completed run leaves on record: finished, with every attempt traced and judged. */
  lemma RunRecord(setup: Setup, answer: WorkerAssignment -> WorkerReport, run: seq<Action>) returns (rt: Runtime)
    requires SetupOk(setup) && IsDag(setup.graph)
    requires Legal(setup, Boot(setup), run) && FollowsAll(setup, answer, Boot(setup), run)
    requires Exec(setup, Boot(setup), run).active.None?
    ensures Exec(setup, Boot(setup), run).recorded == [rt]
    ensures Exec(setup, Boot(setup), run).texts == [Synthesize(setup.graph, rt.states, rt.reports)]
    ensures RuntimeOk(setup.graph, setup.checks, rt) && IsFinished(rt.states) && Histories(PlanOf(setup, answer), rt)
  {
    hide Boot, Legal, Exec, FollowsAll, RuntimeOk, IsFinished, WellFormed, AllRegistered, IsDag, Histories, Synthesize,
        NoToken;
    BootOk(setup);
    BootTrace(setup, answer);
    RunOk(setup, Boot(setup), run);
    RunTrace(setup, answer, Boot(setup), run);
    rt := Exec(setup, Boot(setup), run).recorded[0];
  }

  /**
   * A completed run leaves every node as the recursive evaluation of the graph says, whatever the
   * interleaving of its steps was.
   */
  lemma RunsAsEvaluated(setup: Setup, answer: WorkerAssignment -> WorkerReport, rank: map<string, nat>,
      run: seq<Action>, n: TaskNode)
    requires SetupOk(setup) && IsRank(setup.graph, rank) && n in setup.graph.nodes
    requires Legal(setup, Boot(setup), run) && FollowsAll(setup, answer, Boot(setup), run)
    requires Exec(setup, Boot(setup), run).active.None?
    ensures var last := Exec(setup, Boot(setup), run);
            |last.recorded| == 1 && EndedAs(last.recorded[0], n.id, EndingOf(PlanOf(setup, answer), rank, n))
  {
    hide Boot, Legal, Exec, FollowsAll, RuntimeOk, IsFinished, WellFormed, AllRegistered, IsRank, HistoryOk, EndingOf,
        EndedAs, Synthesize, Balanced;
    assert IsDag(setup.graph);
    var rt := RunRecord(setup, answer, run);
    FinishedAsEvaluated(PlanOf(setup, answer), rank, rt, n);
  }

  /**
   * Schedule independence: two completed runs whose workers answer alike end with the same states, reports
   * and numbers of attempts, with the same verdicts up to their order, and with the same final text.
   */
  lemma SchedulesAgree(setup: Setup, answer: WorkerAssignment -> WorkerReport, run: seq<Action>, other: seq<Action>)
    requires SetupOk(setup) && IsDag(setup.graph)
    requires Legal(setup, Boot(setup), run) && FollowsAll(setup, answer, Boot(setup), run)
    requires Legal(setup, Boot(setup), other) && FollowsAll(setup, answer, Boot(setup), other)
    requires Exec(setup, Boot(setup), run).active.None? && Exec(setup, Boot(setup), other).active.None?
    ensures var one, two := Exec(setup, Boot(setup), run), Exec(setup, Boot(setup), other);
            && |one.recorded| == 1 == |two.recorded|
            && one.recorded[0].states == two.recorded[0].states
            && one.recorded[0].reports == two.recorded[0].reports
            && one.recorded[0].attempts == two.recorded[0].attempts
            && multiset(one.recorded[0].evaluations) == multiset(two.recorded[0].evaluations)
            && one.texts == two.texts
  {
    hide Boot, Legal, Exec, FollowsAll, RuntimeOk, WellFormed, AllRegistered, IsRank, EndingOf, EndedAs, Synthesize,
        IsFinished, Histories;
    var rank: map<string, nat> :| IsRank(setup.graph, rank);
    var one := RunRecord(setup, answer, run);
    var two := RunRecord(setup, answer, other);
    forall n | n in setup.graph.nodes
      ensures EndedAs(one, n.id, EndingOf(PlanOf(setup, answer), rank, n))
      ensures EndedAs(two, n.id, EndingOf(PlanOf(setup, answer), rank, n))
    {
      RunsAsEvaluated(setup, answer, rank, run, n);
      RunsAsEvaluated(setup, answer, rank, other, n);
    }
    SameEndings(setup, answer, rank, one, two);
    SameAttempts(PlanOf(setup, answer), one, two);
    SameVerdicts(PlanOf(setup, answer), one, two) by { BooksBalance(PlanOf(setup, answer), one, two); }
  }

  lemma BooksBalance(p: Plan, one: Runtime, two: Runtime)
    requires Histories(p, one) && Histories(p, two)
    ensures Balanced(p, one) && Balanced(p, two)
  {
  }

  lemma SameAttempts(p: Plan, one: Runtime, two: Runtime)
    requires RuntimeOk(p.graph, p.checks, one) && RuntimeOk(p.graph, p.checks, two)
    requires Histories(p, one) && Histories(p, two)
    requires one.states == two.states && one.reports == two.reports && IsFinished(one.states)
    ensures one.attempts == two.attempts
  {
    hide NodeOk, HistoryOk, WellFormed, OnePerWorker, Balanced;
    forall id
      ensures id in one.attempts <==> id in two.attempts
      ensures id in one.attempts ==> one.attempts[id] == two.attempts[id]
    {
      if HasNode(p.graph, id) {
        var n :| n in p.graph.nodes && n.id == id;
        assert NodeOk(p.checks, one, n) && NodeOk(p.checks, two, n);
        SameAttemptCount(p, one, two, n);
      }
    }
  }

  lemma SameEndings(setup: Setup, answer: WorkerAssignment -> WorkerReport, rank: map<string, nat>, one: Runtime,
      two: Runtime)
    requires WellFormed(setup.graph) && IsRank(setup.graph, rank)
    requires RuntimeOk(setup.graph, setup.checks, one) && RuntimeOk(setup.graph, setup.checks, two)
    requires forall n :: n in setup.graph.nodes ==> EndedAs(one, n.id, EndingOf(PlanOf(setup, answer), rank, n))
    requires forall n :: n in setup.graph.nodes ==> EndedAs(two, n.id, EndingOf(PlanOf(setup, answer), rank, n))
    ensures one.states == two.states && one.reports == two.reports
  {
    hide NodeOk, EndingOf, WellFormed, OnePerWorker, IsRank;
    forall id
      ensures id in one.states <==> id in two.states
      ensures id in one.states ==> one.states[id] == two.states[id]
      ensures id in one.reports <==> id in two.reports
      ensures id in one.reports ==> one.reports[id] == two.reports[id]
    {
      if HasNode(setup.graph, id) {
        var n :| n in setup.graph.nodes && n.id == id;
        assert EndedAs(one, n.id, EndingOf(PlanOf(setup, answer), rank, n));
        assert EndedAs(two, n.id, EndingOf(PlanOf(setup, answer), rank, n));
      }
    }
  }
}
