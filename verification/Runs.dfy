/** Whole runs: every one ends, none gets stuck, and the host hears exactly once. */
module Runs {
  import opened Common
  import opened TaskGraphs
  import opened Evaluator
  import opened GraphRuntime
  import opened RuntimeInvariant
  import opened Scheduling
  import opened Synthesis
  import opened TaskCommander
  import opened Workers
  import opened Protocol
  import opened ProtocolSafety
  import opened Accounting

  // ---------------------------------------------------------------- runs

  ghost predicate Legal(setup: Setup, s: System, run: seq<Action>)
    decreases |run|
  {
    run == [] || (Enabled(s, run[0]) && Legal(setup, Next(setup, s, run[0]), run[1..]))
  }

  ghost function Exec(setup: Setup, s: System, run: seq<Action>): System
    requires Legal(setup, s, run)
    decreases |run|
  {
    if run == [] then s else Exec(setup, Next(setup, s, run[0]), run[1..])
  }

  /** The steps of a run that do more than drive an action that stays active. */
  ghost function Effective(setup: Setup, s: System, run: seq<Action>): nat
    requires Legal(setup, s, run)
    decreases |run|
  {
    if run == [] then 0
    else (if Stutter(s, run[0]) then 0 else 1) + Effective(setup, Next(setup, s, run[0]), run[1..])
  }

  lemma {:induction false} RunOk(setup: Setup, s: System, run: seq<Action>)
    requires SetupOk(setup) && IsDag(setup.graph) && SystemOk(setup, s) && Legal(setup, s, run)
    ensures SystemOk(setup, Exec(setup, s, run))
    decreases |run|
  {
    hide SetupOk, IsDag, SystemOk, Next, Enabled;
    if run != [] {
      StepKeeps(setup, s, run[0]);
      RunOk(setup, Next(setup, s, run[0]), run[1..]);
    }
  }

  // ---------------------------------------------------------------- dispatching, counted

  ghost predicate Spent(g: TaskGraph, rt: Runtime, cells: map<string, Cell>, d: Dispatch) {
    && Work(g, d.rt, Post(cells, d.sends)) <= Work(g, rt, cells)
    && TotalAttempts(g, d.rt) == TotalAttempts(g, rt) + |d.sends|
    && RunningCount(g, d.rt) == RunningCount(g, rt) + |d.sends|
    && d.rt.evaluations == rt.evaluations
  }

  lemma {:induction false} DispatchAllSpends(setup: Setup, rt: Runtime, cells: map<string, Cell>,
      inbox: seq<Message>, ready: seq<TaskNode>)
    requires AllRegistered(setup.graph, setup.workers) && cells.Keys == setup.workers
    requires RuntimeOk(setup.graph, setup.checks, rt) && TokensOk(setup.graph, rt, cells, inbox)
    requires Selection(setup.graph, rt.states, ready)
    ensures Spent(setup.graph, rt, cells, DispatchAll(setup.graph, rt, ready, setup.workers))
  {
    hide RuntimeOk, TokensOk, Runnable, WorkerBusy, Work, TotalAttempts, RunningCount, PostOne;
    if ready != [] {
      var front, n := ready[..|ready| - 1], ready[|ready| - 1];
      assert ready == front + [n];
      SelectionSplit(setup.graph, rt.states, front, n);
      DispatchAllSpends(setup, rt, cells, inbox, front);
      DispatchAllKeeps(setup, rt, cells, inbox, front);
      var d := DispatchAll(setup.graph, rt, front, setup.workers);
      SelectionLast(setup.graph, setup.checks, rt, d.rt, front, n);
      hide DispatchEffect, Selection, InputReports;
      DispatchSpends(setup.graph, setup.checks, d.rt, Post(cells, d.sends), inbox, n);
      assert (d.sends + [BuildAssignment(setup.graph, d.rt, n)])[..|d.sends|] == d.sends;
    }
  }

  // ---------------------------------------------------------------- the measure

  lemma WorkerStepDrops(setup: Setup, s: System, a: Action)
    requires Enabled(s, a)
    requires SystemOk(setup, s) && s.active.Some? && WorkerStep(a)
    ensures if Stutter(s, a) then Next(setup, s, a) == s else Measure(setup.graph, Next(setup, s, a)) < Measure(setup.graph, s)
  {
    hide OneToken, NoToken, RuntimeOk, NoIdleReady, IsFinished, TokensOk, CurrentAssignment, Next, ReportsFrom,
        Synthesize, WorkMap;
    var g, rt, after := setup.graph, s.active.value, Next(setup, s, a);
    RuntimeOkParts(g, setup.checks, rt);
    IdleCellsStuck(s, a, ReportsFrom(s.inbox, a.w));
    var n := BusyWorkerHasNode(g, rt, s, a.w);
    NodeIdentity(g);
    IdsOf(g);
    StepWork(setup, s, a);
    if !Stutter(s, a) {
      forall id | id in Ids(g.nodes) && id != n.id
        ensures Lookup(WorkMap(g, rt, s.cells), id) == Lookup(WorkMap(g, rt, after.cells), id)
      {
        OtherCellWork(g, rt, s.cells, after.cells, n, id);
      }
      OwnCellWork(g, rt, s.cells, after.cells, n);
      hide OnePerWorker, Distinct, CellWork;
      TotalChange(Ids(g.nodes), WorkMap(g, rt, s.cells), WorkMap(g, rt, after.cells), n.id);
    }
  }

  /** The worker's own cell loses more work than it adds to the commander's inbox. */
  lemma StepWork(setup: Setup, s: System, a: Action)
    requires Enabled(s, a) && WorkerStep(a)
    ensures var after := Next(setup, s, a);
            && after.active == s.active && a.w in after.cells && after.cells.Keys == s.cells.Keys
            && (forall v :: v in s.cells && v != a.w ==> after.cells[v] == s.cells[v])
            && if Stutter(s, a) then after == s
               else CellWork(after.cells[a.w]) + |after.inbox| < CellWork(s.cells[a.w]) + |s.inbox|
  {
    if Stutter(s, a) {
      assert s.inbox + [] == s.inbox;
    }
  }

  lemma OtherCellWork(g: TaskGraph, rt: Runtime, cells: map<string, Cell>, after: map<string, Cell>, n: TaskNode,
      id: string)
    requires OnePerWorker(g, rt.states) && n in g.nodes && InState(rt.states, n.id, Running) && id != n.id
    requires cells.Keys == after.Keys && forall v :: v in cells && v != n.workerId ==> after[v] == cells[v]
    ensures Lookup(WorkMap(g, rt, cells), id) == Lookup(WorkMap(g, rt, after), id)
  {
    hide CellWork;
    assert NodeWork(g, rt, cells, id) == NodeWork(g, rt, after, id);
  }

  lemma OwnCellWork(g: TaskGraph, rt: Runtime, cells: map<string, Cell>, after: map<string, Cell>, n: TaskNode)
    requires FindNode(g.nodes, n.id) == Some(n) && InState(rt.states, n.id, Running)
    requires n.workerId in cells && n.workerId in after
    ensures Lookup(WorkMap(g, rt, after), n.id) - CellWork(after[n.workerId])
         == Lookup(WorkMap(g, rt, cells), n.id) - CellWork(cells[n.workerId])
  {
  }

  ghost function Current(s: System): Option<Runtime> {
    if s.active.Some? then s.active else if |s.recorded| == 1 then Some(s.recorded[0]) else None
  }

  /** Every attempt was dispatched once, and was evaluated unless its node still runs. */
  ghost predicate CountsOk(g: TaskGraph, s: System) {
    && Current(s).Some?
    && DispatchCount(s.log) == TotalAttempts(g, Current(s).value)
    && |Current(s).value.evaluations| + RunningCount(g, Current(s).value) == TotalAttempts(g, Current(s).value)
  }

  lemma {:induction false} DispatchCountAppend(log: seq<Event>, more: seq<Event>)
    ensures DispatchCount(log + more) == DispatchCount(log) + DispatchCount(more)
  {
    if more == [] {
      assert log + more == log;
    } else {
      assert (log + more)[..|log + more| - 1] == log + more[..|more| - 1];
      DispatchCountAppend(log, more[..|more| - 1]);
    }
  }

  lemma {:induction false} DispatchEventsCount(sends: seq<WorkerAssignment>)
    ensures DispatchCount(DispatchEvents(sends)) == |sends|
  {
    if sends != [] {
      var events := DispatchEvents(sends);
      assert events[..|events| - 1] == DispatchEvents(sends[..|sends| - 1]);
      DispatchEventsCount(sends[..|sends| - 1]);
    }
  }

  lemma OutcomeEventsCount(after: Runtime, report: WorkerReport, outcome: Outcome)
    ensures DispatchCount(OutcomeEvents(after, report, outcome)) == 0
  {
    var events := OutcomeEvents(after, report, outcome);
    assert |events| == 2 && !events[0].Dispatched? && !events[1].Dispatched?;
    assert events[..1] == [events[0]] && [events[0]][..0] == [];
    assert DispatchCount(events[..1]) == 0;
  }

  /** Scheduling keeps the books: as many dispatch events as attempts and running nodes added. */
  lemma ScheduleAccounts(setup: Setup, rt: Runtime, s: System)
    requires SetupOk(setup) && IsDag(setup.graph) && s.cells.Keys == setup.workers
    requires RuntimeOk(setup.graph, setup.checks, rt) && TokensOk(setup.graph, rt, s.cells, s.inbox)
    requires s.recorded == []
    requires DispatchCount(s.log) == TotalAttempts(setup.graph, rt)
    requires |rt.evaluations| + RunningCount(setup.graph, rt) == TotalAttempts(setup.graph, rt)
    ensures var after := Perform(s, Schedule(setup.graph, rt, setup.workers));
            && CountsOk(setup.graph, after)
            && Measure(setup.graph, after) <= |s.inbox| + Work(setup.graph, rt, s.cells)
  {
    hide RuntimeOk, TokensOk, Synthesize, IsDag, Work, TotalAttempts, RunningCount, ReadyNodes, Selection,
        IsFinished, WellFormed;
    var d := Schedule(setup.graph, rt, setup.workers);
    DispatchCountAppend(s.log, d.events);
    if IsFinished(rt.states) {
      assert [GraphFinished][..0] == [];
      assert DispatchCount([GraphFinished]) == 0;
    } else {
      ReadySelection(setup.graph, rt.states);
      DispatchAllSpends(setup, rt, s.cells, s.inbox, ReadyNodes(setup.graph, rt.states));
      DispatchEventsCount(d.sends);
    }
  }

  lemma DeliverAccounts(setup: Setup, s: System)
    requires Enabled(s, DeliverStep)
    requires SetupOk(setup) && IsDag(setup.graph) && SystemOk(setup, s) && s.active.Some?
    ensures Measure(setup.graph, Next(setup, s, DeliverStep)) < Measure(setup.graph, s)
    ensures CountsOk(setup.graph, s) ==> CountsOk(setup.graph, Next(setup, s, DeliverStep))
  {
    hide RuntimeOk, TokensOk, NoIdleReady, ApplyReport, Schedule, CurrentAssignment, NoToken, WellFormed,
        ReportsFrom, SetupOk, IsDag, IsFinished, Work, TotalAttempts, RunningCount;
    var rt, rest := s.active.value, s.(inbox := s.inbox[1..]);
    if s.inbox[0].Reported? {
      var n := ReportArrives(setup.graph, rt, s);
      var report := s.inbox[0].report;
      AnswersNode(setup.graph, rt, n, report);
      ReportKeeps(setup.graph, setup.checks, rt, n, report);
      var (after, outcome) := ApplyReport(setup.graph, setup.checks, rt, report);
      AppliedTokens(setup.graph, setup.checks, rt, after, n, s);
      ReportSpends(setup.graph, setup.checks, rt, after, n, s.cells);
      EvaluatedOnce(setup, rt, report);
      DeliveredAccounts(setup, s, after, outcome, report);
    }
  }

  lemma EvaluatedOnce(setup: Setup, rt: Runtime, report: WorkerReport)
    ensures |ApplyReport(setup.graph, setup.checks, rt, report).0.evaluations| == |rt.evaluations| + 1
  {
    hide SkipBlocked, Evaluate;
  }

  /** Handling a report is scheduling from the runtime it left, with its outcome events first. */
  lemma DeliveredAccounts(setup: Setup, s: System, after: Runtime, outcome: Outcome, report: WorkerReport)
    requires Enabled(s, DeliverStep)
    requires SetupOk(setup) && IsDag(setup.graph) && s.cells.Keys == setup.workers && s.recorded == []
    requires s.inbox != [] && s.inbox[0] == Reported(report) && s.active.Some?
    requires ApplyReport(setup.graph, setup.checks, s.active.value, report) == (after, outcome)
    requires RuntimeOk(setup.graph, setup.checks, after) && TokensOk(setup.graph, after, s.cells, s.inbox[1..])
    requires Work(setup.graph, after, s.cells) <= Work(setup.graph, s.active.value, s.cells)
    requires TotalAttempts(setup.graph, after) == TotalAttempts(setup.graph, s.active.value)
    requires RunningCount(setup.graph, after) + 1 == RunningCount(setup.graph, s.active.value)
    requires |after.evaluations| == |s.active.value.evaluations| + 1
    ensures Measure(setup.graph, Next(setup, s, DeliverStep)) < Measure(setup.graph, s)
    ensures CountsOk(setup.graph, s) ==> CountsOk(setup.graph, Next(setup, s, DeliverStep))
  {
    hide RuntimeOk, TokensOk, ApplyReport, Schedule, WellFormed, SetupOk, IsDag, Work, TotalAttempts, RunningCount,
        OutcomeEvents, Post;
    var noted := s.(inbox := s.inbox[1..], log := s.log + OutcomeEvents(after, report, outcome));
    var d := Schedule(setup.graph, after, setup.workers);
    assert Next(setup, s, DeliverStep) == Perform(noted, d);
    DispatchCountAppend(s.log, OutcomeEvents(after, report, outcome));
    OutcomeEventsCount(after, report, outcome);
    ScheduleMeasure(setup, after, noted);
    if CountsOk(setup.graph, s) {
      ScheduleAccounts(setup, after, noted);
    }
  }

  lemma ScheduleMeasure(setup: Setup, rt: Runtime, s: System)
    requires SetupOk(setup) && s.cells.Keys == setup.workers
    requires RuntimeOk(setup.graph, setup.checks, rt) && TokensOk(setup.graph, rt, s.cells, s.inbox)
    ensures Measure(setup.graph, Perform(s, Schedule(setup.graph, rt, setup.workers))) <= |s.inbox| + Work(setup.graph, rt, s.cells)
  {
    hide RuntimeOk, TokensOk, Synthesize, Work, TotalAttempts, RunningCount, ReadyNodes, Selection, IsFinished,
        WellFormed;
    if !IsFinished(rt.states) {
      ReadySelection(setup.graph, rt.states);
      DispatchAllSpends(setup, rt, s.cells, s.inbox, ReadyNodes(setup.graph, rt.states));
    }
  }

  lemma FinishedDrops(setup: Setup, s: System, a: Action)
    requires Enabled(s, a)
    requires SystemOk(setup, s) && s.active.None?
    ensures Measure(setup.graph, Next(setup, s, a)) < Measure(setup.graph, s)
    ensures Current(Next(setup, s, a)) == Current(s) && Next(setup, s, a).log == s.log
  {
    hide RuntimeOk, IsFinished, Synthesize, ReportsFrom;
    if WorkerStep(a) {
      IdleCellsStuck(s, a, ReportsFrom(s.inbox, a.w));
    }
  }

  /** Every step but driving a still-active action lowers the measure; that one changes nothing. */
  lemma StepDrops(setup: Setup, s: System, a: Action)
    requires Enabled(s, a)
    requires SetupOk(setup) && IsDag(setup.graph) && SystemOk(setup, s)
    ensures if Stutter(s, a) then Next(setup, s, a) == s else Measure(setup.graph, Next(setup, s, a)) < Measure(setup.graph, s)
    ensures CountsOk(setup.graph, s) ==> CountsOk(setup.graph, Next(setup, s, a))
  {
    hide SetupOk, IsDag, SystemOk, Next, Measure, TotalAttempts, RunningCount;
    if s.active.None? {
      FinishedDrops(setup, s, a);
      FinishedNoStutter(setup, s, a);
    } else if WorkerStep(a) {
      WorkerStepDrops(setup, s, a);
      WorkerStepSilent(setup, s, a);
    } else {
      DeliverAccounts(setup, s);
    }
  }

  lemma FinishedNoStutter(setup: Setup, s: System, a: Action)
    requires Enabled(s, a)
    requires SystemOk(setup, s) && s.active.None?
    ensures !Stutter(s, a)
  {
    hide RuntimeOk, IsFinished, Synthesize, ReportsFrom;
    if WorkerStep(a) {
      IdleCellsStuck(s, a, ReportsFrom(s.inbox, a.w));
    }
  }

  lemma WorkerStepSilent(setup: Setup, s: System, a: Action)
    requires Enabled(s, a) && WorkerStep(a)
    ensures Current(Next(setup, s, a)) == Current(s) && Next(setup, s, a).log == s.log
  {
  }

  // ---------------------------------------------------------------- main theorems

  lemma {:induction false} RunDrops(setup: Setup, s: System, run: seq<Action>)
    requires SetupOk(setup) && IsDag(setup.graph) && SystemOk(setup, s) && Legal(setup, s, run)
    ensures Effective(setup, s, run) + Measure(setup.graph, Exec(setup, s, run)) <= Measure(setup.graph, s)
    ensures CountsOk(setup.graph, s) ==> CountsOk(setup.graph, Exec(setup, s, run))
    decreases |run|
  {
    hide SetupOk, IsDag, SystemOk, Next, Enabled, Measure, CountsOk, Stutter;
    if run != [] {
      StepKeeps(setup, s, run[0]);
      StepDrops(setup, s, run[0]);
      RunDrops(setup, Next(setup, s, run[0]), run[1..]);
    }
  }

  lemma {:induction false} FreshTotals(ids: seq<string>, work: map<string, nat>, allowed: map<string, nat>)
    requires forall id :: id in ids ==> Lookup(work, id) == 7 * Lookup(allowed, id)
    ensures Total(ids, work) == 7 * Total(ids, allowed)
  {
    if ids != [] {
      assert ids[0] in ids && forall id :: id in ids[1..] ==> id in ids;
      FreshTotals(ids[1..], work, allowed);
    }
  }

  lemma {:induction false} ZeroTotal(ids: seq<string>, m: map<string, nat>)
    requires forall id :: id in ids ==> Lookup(m, id) == 0
    ensures Total(ids, m) == 0
  {
    if ids != [] {
      assert ids[0] in ids && forall id :: id in ids[1..] ==> id in ids;
      ZeroTotal(ids[1..], m);
    }
  }

  /** The attempts the graph allows in all: the sum of `max_attempts` over its nodes. */
  function Budget(g: TaskGraph): nat {
    AllowedAttempts(g, NewRuntime(g).states.Keys)
  }

  lemma BootAccounts(setup: Setup)
    requires SetupOk(setup) && IsDag(setup.graph)
    ensures CountsOk(setup.graph, Boot(setup))
    ensures Measure(setup.graph, Boot(setup)) <= 7 * Budget(setup.graph)
  {
    hide RuntimeOk, Schedule, IsDag, WellFormed, IsFinished, Measure, CountsOk;
    var g, rt := setup.graph, NewRuntime(setup.graph);
    var idle := System(map w | w in setup.workers :: Cell([], IDLE), [], None, [], [], []);
    NewRuntimeOk(g, setup.checks);
    assert forall id :: id in rt.states ==> rt.states[id] == Pending;
    NewTokens(setup, rt, idle.cells);
    FreshWork(g, rt, idle.cells);
    ScheduleAccounts(setup, rt, idle);
  }

  lemma NewTokens(setup: Setup, rt: Runtime, cells: map<string, Cell>)
    requires forall id :: id in rt.states ==> rt.states[id] == Pending
    requires cells == map w | w in setup.workers :: Cell([], IDLE)
    ensures TokensOk(setup.graph, rt, cells, [])
  {
  }

  lemma FreshNodeWork(g: TaskGraph, rt: Runtime, cells: map<string, Cell>, id: string)
    requires rt.attempts == map[] && (id in rt.states ==> rt.states[id] == Pending)
    ensures Lookup(WorkMap(g, rt, cells), id) == 7 * Lookup(AllowedMap(g, rt.states.Keys), id)
  {
  }

  lemma FreshWork(g: TaskGraph, rt: Runtime, cells: map<string, Cell>)
    requires rt == NewRuntime(g)
    ensures Work(g, rt, cells) == 7 * Budget(g)
    ensures TotalAttempts(g, rt) == 0 && RunningCount(g, rt) == 0
  {
    hide WorkMap, AllowedMap;
    assert rt.attempts == map[] && forall id :: id in rt.states ==> rt.states[id] == Pending;
    forall id | id in Ids(g.nodes)
      ensures Lookup(WorkMap(g, rt, cells), id) == 7 * Lookup(AllowedMap(g, rt.states.Keys), id)
    {
      FreshNodeWork(g, rt, cells, id);
    }
    FreshTotals(Ids(g.nodes), WorkMap(g, rt, cells), AllowedMap(g, rt.states.Keys));
    ZeroTotal(Ids(g.nodes), AttemptMap(rt));
    ZeroTotal(Ids(g.nodes), RunningMap(rt));
  }

  lemma AttemptsWithinBudget(g: TaskGraph, checks: TextChecks, rt: Runtime)
    requires RuntimeOk(g, checks, rt)
    ensures TotalAttempts(g, rt) <= Budget(g)
  {
    hide RuntimeOk, AttemptMap, AllowedMap, NewRuntime;
    forall id | id in Ids(g.nodes)
      ensures Lookup(AttemptMap(rt), id) <= Lookup(AllowedMap(g, NewRuntime(g).states.Keys), id)
    {
      var i :| 0 <= i < |g.nodes| && Ids(g.nodes)[i] == id;
      NodeWithinBudget(g, checks, rt, g.nodes[i]);
    }
    TotalBound(Ids(g.nodes), AttemptMap(rt), AllowedMap(g, NewRuntime(g).states.Keys));
  }

  lemma NodeWithinBudget(g: TaskGraph, checks: TextChecks, rt: Runtime, n: TaskNode)
    requires RuntimeOk(g, checks, rt) && n in g.nodes
    ensures Lookup(AttemptMap(rt), n.id) <= Lookup(AllowedMap(g, NewRuntime(g).states.Keys), n.id)
  {
    hide NodeOk, WellFormed, KeysOk, OnePerWorker, NewRuntime;
    NodeIdentity(g);
    AttemptsAtMost(checks, rt, n);
    FreshNode(g, n);
  }

  lemma AttemptsAtMost(checks: TextChecks, rt: Runtime, n: TaskNode)
    requires NodeOk(checks, rt, n) && 1 <= n.maxAttempts
    ensures Lookup(AttemptMap(rt), n.id) <= n.maxAttempts
  {
  }

  lemma FreshNode(g: TaskGraph, n: TaskNode)
    requires n in g.nodes
    ensures n.id in NewRuntime(g).states && NewRuntime(g).states[n.id] == Pending && NewRuntime(g).attempts == map[]
  {
  }

  /**
   * Termination: whatever workers answer and however messages interleave, a run makes at most seven
   * effective steps per allowed attempt, dispatches at most the sum of `max_attempts`, and every
   * attempt is evaluated unless its node still runs.
   */
  lemma EveryRunEnds(setup: Setup, run: seq<Action>)
    requires SetupOk(setup) && IsDag(setup.graph) && Legal(setup, Boot(setup), run)
    ensures Effective(setup, Boot(setup), run) <= 7 * Budget(setup.graph)
    ensures DispatchCount(Exec(setup, Boot(setup), run).log) <= Budget(setup.graph)
    ensures CountsOk(setup.graph, Exec(setup, Boot(setup), run))
  {
    hide Measure, TotalAttempts, RunningCount, Budget, Boot, Legal, Exec, Effective, SetupOk, IsDag;
    BootOk(setup);
    BootAccounts(setup);
    RunDrops(setup, Boot(setup), run);
    RunOk(setup, Boot(setup), run);
    var last := Exec(setup, Boot(setup), run);
    assert RuntimeOk(setup.graph, setup.checks, Current(last).value) by { CurrentOk(setup, last); }
    AttemptsWithinBudget(setup.graph, setup.checks, Current(last).value);
  }

  lemma CurrentOk(setup: Setup, s: System)
    requires SystemOk(setup, s)
    ensures Current(s).Some? && RuntimeOk(setup.graph, setup.checks, Current(s).value)
  {
  }

  /** Deadlock freedom: while the graph is active some effective step is enabled. */
  lemma NeverStuck(setup: Setup, s: System) returns (a: Action)
    requires SetupOk(setup) && IsDag(setup.graph) && SystemOk(setup, s) && s.active.Some?
    ensures Enabled(s, a) && !Stutter(s, a)
  {
    hide RuntimeOk, NoIdleReady, IsFinished, Synthesize, CurrentAssignment;
    var g, rt := setup.graph, s.active.value;
    NeverStalls(g, setup.checks, rt);
    var n :| n in g.nodes && InState(rt.states, n.id, Running);
    var w := n.workerId;
    assert OneToken(s.cells[w], ReportsFrom(s.inbox, w), CurrentAssignment(g, rt, n));
    hide SystemOk;
    a := TokenMoves(s, w, CurrentAssignment(g, rt, n));
  }

  lemma TokenMoves(s: System, w: string, token: WorkerAssignment) returns (a: Action)
    requires w in s.cells && OneToken(s.cells[w], ReportsFrom(s.inbox, w), token)
    ensures Enabled(s, a) && !Stutter(s, a)
  {
    var worker := s.cells[w].worker;
    if s.cells[w].inbox != [] {
      a := TakeStep(w);
    } else if worker.running {
      match worker.phase {
        case Thinking => a := ThinkStep(w, Confused(""));
        case Acting => a := ActStep(w, Completed);
        case Finishing => a := AnswerStep(w);
        case Failing => a := AnswerStep(w);
      }
    } else {
      a := DeliverStep;
    }
  }

  /** From every reachable system the run can be brought to its end. */
  lemma {:induction false} CanFinish(setup: Setup, s: System) returns (rest: seq<Action>)
    requires SetupOk(setup) && IsDag(setup.graph) && SystemOk(setup, s)
    ensures Legal(setup, s, rest) && Exec(setup, s, rest).active.None?
    decreases Measure(setup.graph, s)
  {
    hide SetupOk, IsDag, SystemOk, Enabled, Next, Measure, Stutter, CountsOk;
    if s.active.None? {
      rest := [];
    } else {
      var a := NeverStuck(setup, s);
      StepDrops(setup, s, a);
      StepKeeps(setup, s, a);
      var more := CanFinish(setup, Next(setup, s, a));
      rest := [a] + more;
      assert rest[1..] == more;
    }
  }

  ghost predicate FinalText(setup: Setup, s: System, rt: Runtime) {
    && RuntimeOk(setup.graph, setup.checks, rt) && IsFinished(rt.states)
    && s.texts == [Synthesize(setup.graph, rt.states, rt.reports)]
  }

  /**
   * The host hears exactly once: while the graph is active nothing was sent to it, and a run that
   * can go no further has finished the graph and sent its synthesis, the single text of the run.
   */
  lemma HostHearsOnce(setup: Setup, run: seq<Action>)
    requires SetupOk(setup) && IsDag(setup.graph) && Legal(setup, Boot(setup), run)
    ensures var last := Exec(setup, Boot(setup), run);
            && (last.active.Some? ==> last.texts == [])
            && (last.active.None? ==> |last.recorded| == 1 && FinalText(setup, last, last.recorded[0]))
            && ((forall a :: Enabled(last, a) ==> Stutter(last, a)) ==> last.active.None?)
  {
    hide Boot, Legal, Exec, SetupOk, IsDag, RuntimeOk, IsFinished, Synthesize, TokensOk, NoIdleReady, Enabled,
        Stutter, NoToken;
    BootOk(setup);
    RunOk(setup, Boot(setup), run);
    var last := Exec(setup, Boot(setup), run);
    if last.active.Some? {
      var a := NeverStuck(setup, last);
    }
  }

  /**
   * In every reachable system each running node has exactly one token in flight, its worker works
   * for no other node, and workers without a running node have nothing in flight.
   */
  lemma OneTokenPerRunningNode(setup: Setup, run: seq<Action>)
    requires SetupOk(setup) && IsDag(setup.graph) && Legal(setup, Boot(setup), run)
    requires Exec(setup, Boot(setup), run).active.Some?
    ensures var last := Exec(setup, Boot(setup), run);
            var rt := last.active.value;
            && (forall n :: n in setup.graph.nodes && InState(rt.states, n.id, Running) ==>
                  n.workerId in last.cells
                  && OneToken(last.cells[n.workerId], ReportsFrom(last.inbox, n.workerId), CurrentAssignment(setup.graph, rt, n)))
            && (forall w :: w in last.cells && !WorkerBusy(setup.graph, rt.states, w) ==> NoToken(last.cells[w], ReportsFrom(last.inbox, w)))
            && OnePerWorker(setup.graph, rt.states)
  {
    hide Boot, Legal, Exec, RuntimeOk, WellFormed, IsDag, OneToken, NoToken, OnePerWorker, NoIdleReady, IsFinished,
        CurrentAssignment, ReportsFrom, WorkerBusy;
    BootOk(setup);
    RunOk(setup, Boot(setup), run);
    RuntimeOkParts(setup.graph, setup.checks, Exec(setup, Boot(setup), run).active.value);
  }

  /** Between the steps of every run no runnable node waits for an idle worker. */
  lemma NoIdleWorkerWaits(setup: Setup, run: seq<Action>)
    requires SetupOk(setup) && IsDag(setup.graph) && Legal(setup, Boot(setup), run)
    requires Exec(setup, Boot(setup), run).active.Some?
    ensures NoIdleReady(setup.graph, Exec(setup, Boot(setup), run).active.value.states)
  {
    hide Boot, Legal, Exec, RuntimeOk, WellFormed, IsDag, NoIdleReady, IsFinished, TokensOk;
    BootOk(setup);
    RunOk(setup, Boot(setup), run);
  }

  /** Every report the commander applies answers the current assignment of a running node. */
  lemma ReportsAreAwaited(setup: Setup, run: seq<Action>)
    requires SetupOk(setup) && IsDag(setup.graph) && Legal(setup, Boot(setup), run)
    requires var last := Exec(setup, Boot(setup), run); last.active.Some? && last.inbox != [] && last.inbox[0].Reported?
    ensures var last := Exec(setup, Boot(setup), run);
            var report := last.inbox[0].report;
            exists n :: n in setup.graph.nodes && n.id == report.nodeId && n.workerId == report.workerId
                        && InState(last.active.value.states, n.id, Running)
                        && Answers(report, CurrentAssignment(setup.graph, last.active.value, n))
  {
    hide Boot, Legal, Exec, RuntimeOk, WellFormed, IsDag, NoToken, NoIdleReady, IsFinished, ReportsFrom, TokensOk;
    BootOk(setup);
    RunOk(setup, Boot(setup), run);
    var last := Exec(setup, Boot(setup), run);
    var n := ReportArrives(setup.graph, last.active.value, last);
  }

  /** Between the steps of every run, a node is skipped if and only if a proper ancestor failed. */
  lemma SkipsAreExact(setup: Setup, run: seq<Action>, n: TaskNode)
    requires SetupOk(setup) && IsDag(setup.graph) && Legal(setup, Boot(setup), run) && n in setup.graph.nodes
    ensures Current(Exec(setup, Boot(setup), run)).Some?
    ensures var rt := Current(Exec(setup, Boot(setup), run)).value;
            && (SkippedId(rt.states, n.id) <==> exists a :: Ancestor(setup.graph, a, n.id) && FailedId(rt.states, a))
            && (SkippedId(rt.states, n.id) ==> Untouched(rt, n.id))
            && (Worked(rt.states, n.id) ==> forall a :: Ancestor(setup.graph, a, n.id) ==> InState(rt.states, a, Passed))
  {
    hide Boot, Legal, Exec, RuntimeOk, WellFormed, IsRank, Ancestor, SystemOk;
    BootOk(setup);
    RunOk(setup, Boot(setup), run);
    CurrentOk(setup, Exec(setup, Boot(setup), run));
    var rank: map<string, nat> :| IsRank(setup.graph, rank);
    SkipExactness(setup.graph, setup.checks, Current(Exec(setup, Boot(setup), run)).value, rank, n);
  }
}
