/** Runs whose workers answer as a given function says: there always is one that ends. */
module AnsweringRuns {
  import opened Common
  import opened TaskGraphs
  import opened GraphRuntime
  import opened RuntimeInvariant
  import opened Scheduling
  import opened Synthesis
  import opened TaskCommander
  import opened Workers
  import opened Protocol
  import opened ProtocolSafety
  import opened Accounting
  import opened Runs
  import opened Denotation
  import opened ScheduleIndependence

  /**
   * What a worker can answer: any completed report that echoes its assignment, and the report of an
   * aborted action or of a failure of its cognition.
   */
  predicate CanAnswer(report: WorkerReport, a: WorkerAssignment) {
    && Answers(report, a)
    && (report.status.ReportFailed? ==>
          && (report.content == ABORTED || CONFUSED <= report.content)
          && report == FailedReport(a.workerId, Task(a.taskId, Some(a)), a, report.content))
  }

  ghost predicate Answerable(answer: WorkerAssignment -> WorkerReport) {
    forall a :: CanAnswer(answer(a), a)
  }

  function OutputOf(report: WorkerReport): Output {
    Output("", report.content, report.roleOutput, report.evidence, report.risks, report.openQuestions)
  }

  /** A running worker is on its way to answer `report` of its assignment. */
  predicate Leads(worker: WorkerState, report: WorkerReport) {
    match worker.phase
    case Thinking => true
    case Acting => worker.hasAction && report.status.ReportFailed? && report.content == ABORTED
    case Finishing => report.status.ReportCompleted? && worker.output == Some(OutputOf(report))
    case Failing => report.status.ReportFailed? && worker.error == Some(report.content)
  }

  predicate OnTrack(worker: WorkerState, answer: WorkerAssignment -> WorkerReport) {
    worker.running && worker.task.Some? && worker.task.value.assignment.Some? ==>
      Leads(worker, answer(worker.task.value.assignment.value))
  }

  predicate AllOnTrack(cells: map<string, Cell>, answer: WorkerAssignment -> WorkerReport) {
    forall w :: w in cells ==> OnTrack(cells[w].worker, answer)
  }

  /** The thought that leads a worker to `report`. */
  function ThoughtFor(report: WorkerReport): Thought {
    if report.status.ReportCompleted? then Decided(OutputOf(report), false)
    else if CONFUSED <= report.content then Confused(report.content[|CONFUSED|..])
    else Decided(NO_OUTPUT, true)
  }

  lemma ThoughtLeads(worker: WorkerState, report: WorkerReport, token: WorkerAssignment)
    requires WorkingOn(worker, token) && worker.phase.Thinking? && CanAnswer(report, token)
    ensures Leads(Think(worker, ThoughtFor(report)), report)
    ensures Think(worker, ThoughtFor(report)).task == worker.task
  {
    if report.status.ReportFailed? && CONFUSED <= report.content {
      assert CONFUSED + report.content[|CONFUSED|..] == report.content;
    }
  }

  lemma LedAnswer(worker: WorkerState, report: WorkerReport, token: WorkerAssignment)
    requires WorkingOn(worker, token) && (worker.phase.Finishing? || worker.phase.Failing?)
    requires CanAnswer(report, token) && Leads(worker, report)
    ensures Conclude(token.workerId, worker).1 == [Reported(report)] && !Conclude(token.workerId, worker).0.running
  {
  }

  /** Whoever holds a token can move it on towards the wanted answer. */
  lemma AnsweringMove(setup: Setup, s: System, w: string, token: WorkerAssignment,
      answer: WorkerAssignment -> WorkerReport) returns (a: Action)
    requires w in s.cells && OneToken(s.cells[w], ReportsFrom(s.inbox, w), token) && token.workerId == w
    requires CanAnswer(answer(token), token) && OnTrack(s.cells[w].worker, answer)
    ensures Enabled(s, a) && !Stutter(s, a) && Follows(answer, s, a)
    ensures WorkerStep(a) ==> a.w == w && w in Next(setup, s, a).cells && OnTrack(Next(setup, s, a).cells[w].worker, answer)
  {
    hide CanAnswer;
    var worker := s.cells[w].worker;
    if s.cells[w].inbox != [] {
      a := TakeStep(w);
    } else if worker.running {
      match worker.phase {
        case Thinking =>
          a := ThinkStep(w, ThoughtFor(answer(token)));
          ThoughtLeads(worker, answer(token), token);
        case Acting => a := ActStep(w, Aborted);
        case Finishing =>
          a := AnswerStep(w);
          LedAnswer(worker, answer(token), token);
        case Failing =>
          a := AnswerStep(w);
          LedAnswer(worker, answer(token), token);
      }
    } else {
      a := DeliverStep;
    }
  }

  lemma {:induction false} PostKeepsWorkers(cells: map<string, Cell>, sends: seq<WorkerAssignment>)
    ensures Post(cells, sends).Keys == cells.Keys
    ensures forall w :: w in cells ==> Post(cells, sends)[w].worker == cells[w].worker
  {
    if sends != [] {
      PostKeepsWorkers(cells, sends[..|sends| - 1]);
    }
  }

  lemma PerformOnTrack(s: System, d: Decision, answer: WorkerAssignment -> WorkerReport)
    requires AllOnTrack(s.cells, answer)
    ensures AllOnTrack(Perform(s, d).cells, answer)
  {
    hide OnTrack, Post;
    PostKeepsWorkers(s.cells, d.sends);
  }

  lemma DeliverOnTrack(setup: Setup, s: System, answer: WorkerAssignment -> WorkerReport)
    requires Enabled(s, DeliverStep) && AllOnTrack(s.cells, answer)
    ensures AllOnTrack(Next(setup, s, DeliverStep).cells, answer)
  {
    hide OnTrack, AllOnTrack, Perform, OnReport;
    if s.inbox[0].Reported? {
      PerformOnTrack(s.(inbox := s.inbox[1..]),
                     OnReport(setup.graph, setup.checks, s.active, s.inbox[0].report, setup.workers), answer);
    }
  }

  lemma BootOnTrack(setup: Setup, answer: WorkerAssignment -> WorkerReport)
    ensures AllOnTrack(Boot(setup).cells, answer)
  {
    hide Perform, Schedule;
    var idle := System(map w | w in setup.workers :: Cell([], IDLE), [], None, [], [], []);
    PerformOnTrack(idle, Schedule(setup.graph, NewRuntime(setup.graph), setup.workers), answer);
  }

  lemma StepOnTrack(setup: Setup, s: System, w: string, token: WorkerAssignment,
      answer: WorkerAssignment -> WorkerReport) returns (a: Action)
    requires w in s.cells && OneToken(s.cells[w], ReportsFrom(s.inbox, w), token) && token.workerId == w
    requires CanAnswer(answer(token), token) && AllOnTrack(s.cells, answer)
    ensures Enabled(s, a) && !Stutter(s, a) && Follows(answer, s, a)
    ensures AllOnTrack(Next(setup, s, a).cells, answer)
  {
    hide Enabled, Stutter, Follows, Next, OnTrack, CanAnswer;
    a := AnsweringMove(setup, s, w, token, answer);
    if WorkerStep(a) {
      WorkerStepEffect(setup, s, a, token, ReportsFrom(s.inbox, w));
    } else {
      DeliverOnTrack(setup, s, answer);
    }
  }

  /** While the graph is active some effective step follows `answer` and stays on track. */
  lemma NeverLost(setup: Setup, s: System, answer: WorkerAssignment -> WorkerReport) returns (a: Action)
    requires SetupOk(setup) && IsDag(setup.graph) && SystemOk(setup, s) && s.active.Some?
    requires Answerable(answer) && AllOnTrack(s.cells, answer)
    ensures Enabled(s, a) && !Stutter(s, a) && Follows(answer, s, a)
    ensures AllOnTrack(Next(setup, s, a).cells, answer)
  {
    hide RuntimeOk, NoIdleReady, IsFinished, Synthesize, CurrentAssignment, CanAnswer, AllOnTrack;
    var g, rt := setup.graph, s.active.value;
    NeverStalls(g, setup.checks, rt);
    var n :| n in g.nodes && InState(rt.states, n.id, Running);
    var token := CurrentAssignment(g, rt, n);
    assert OneToken(s.cells[n.workerId], ReportsFrom(s.inbox, n.workerId), token);
    assert CanAnswer(answer(token), token);
    CurrentWorker(g, rt, n);
    hide *;
    a := StepOnTrack(setup, s, n.workerId, token, answer);
  }

  lemma {:induction false} CanFollow(setup: Setup, s: System, answer: WorkerAssignment -> WorkerReport)
      returns (rest: seq<Action>)
    requires SetupOk(setup) && IsDag(setup.graph) && SystemOk(setup, s)
    requires Answerable(answer) && AllOnTrack(s.cells, answer)
    ensures Legal(setup, s, rest) && FollowsAll(setup, answer, s, rest) && Exec(setup, s, rest).active.None?
    decreases Measure(setup.graph, s)
  {
    hide SetupOk, IsDag, SystemOk, Enabled, Next, Measure, Stutter, CountsOk, Answerable, AllOnTrack, Follows;
    if s.active.None? {
      rest := [];
    } else {
      var a := NeverLost(setup, s, answer);
      StepDrops(setup, s, a);
      StepKeeps(setup, s, a);
      var more := CanFollow(setup, Next(setup, s, a), answer);
      rest := [a] + more;
      assert rest[1..] == more;
    }
  }

  /**
   * The recursive evaluation is attained: for every answer that workers can give to their assignments some
   * run follows it to the end, and leaves every node as the evaluation says.
   */
  lemma EvaluationAttained(setup: Setup, answer: WorkerAssignment -> WorkerReport, rank: map<string, nat>)
      returns (run: seq<Action>)
    requires SetupOk(setup) && IsRank(setup.graph, rank) && Answerable(answer)
    ensures Legal(setup, Boot(setup), run) && FollowsAll(setup, answer, Boot(setup), run)
    ensures var last := Exec(setup, Boot(setup), run);
            && last.active.None? && |last.recorded| == 1
            && forall n :: n in setup.graph.nodes ==>
                 EndedAs(last.recorded[0], n.id, EndingOf(PlanOf(setup, answer), rank, n))
  {
    hide Boot, Legal, Exec, FollowsAll, WellFormed, AllRegistered, IsRank, EndingOf, EndedAs, Answerable, AllOnTrack;
    assert IsDag(setup.graph);
    BootOk(setup);
    BootOnTrack(setup, answer);
    run := CanFollow(setup, Boot(setup), answer);
    HostHearsOnce(setup, run);
    forall n | n in setup.graph.nodes
      ensures EndedAs(Exec(setup, Boot(setup), run).recorded[0], n.id, EndingOf(PlanOf(setup, answer), rank, n))
    {
      RunsAsEvaluated(setup, answer, rank, run, n);
    }
  }

  // ---------------------------------------------------------------- no other answers

  /** How far a worker can have come. */
  predicate Underway(worker: WorkerState) {
    worker.running ==>
      match worker.phase
      case Thinking => true
      case Acting => worker.hasAction
      case Finishing => true
      case Failing => worker.error.Some? && (worker.error.value == ABORTED || CONFUSED <= worker.error.value)
  }

  predicate AllUnderway(cells: map<string, Cell>) {
    forall w :: w in cells ==> Underway(cells[w].worker)
  }

  lemma ThinkUnderway(worker: WorkerState, thought: Thought)
    requires Underway(worker)
    ensures Underway(Think(worker, thought))
  {
    if thought.Confused? {
      assert (CONFUSED + thought.description)[..|CONFUSED|] == CONFUSED;
    }
  }

  lemma StepUnderway(setup: Setup, s: System, a: Action)
    requires Enabled(s, a) && AllUnderway(s.cells)
    ensures AllUnderway(Next(setup, s, a).cells)
  {
    hide Perform, OnReport, Think;
    match a
    case TakeStep(w) =>
    case ThinkStep(w, thought) => ThinkUnderway(s.cells[w].worker, thought);
    case ActStep(w, drive) =>
    case AnswerStep(w) =>
    case DeliverStep =>
      if s.inbox[0].Reported? {
        PerformUnderway(s.(inbox := s.inbox[1..]),
                        OnReport(setup.graph, setup.checks, s.active, s.inbox[0].report, setup.workers));
      }
  }

  lemma PerformUnderway(s: System, d: Decision)
    requires AllUnderway(s.cells)
    ensures AllUnderway(Perform(s, d).cells)
  {
    hide Underway, Post;
    PostKeepsWorkers(s.cells, d.sends);
  }

  lemma {:induction false} RunUnderway(setup: Setup, s: System, run: seq<Action>)
    requires Legal(setup, s, run) && AllUnderway(s.cells)
    ensures AllUnderway(Exec(setup, s, run).cells)
    decreases |run|
  {
    hide Enabled, Next, AllUnderway;
    if run != [] {
      StepUnderway(setup, s, run[0]);
      RunUnderway(setup, Next(setup, s, run[0]), run[1..]);
    }
  }

  lemma BootUnderway(setup: Setup)
    ensures AllUnderway(Boot(setup).cells)
  {
    hide Perform, Schedule;
    var idle := System(map w | w in setup.workers :: Cell([], IDLE), [], None, [], [], []);
    PerformUnderway(idle, Schedule(setup.graph, NewRuntime(setup.graph), setup.workers));
  }

  lemma ConcludedAnswer(worker: WorkerState, token: WorkerAssignment)
    requires WorkingOn(worker, token) && Underway(worker) && (worker.phase.Finishing? || worker.phase.Failing?)
    ensures var sent := Conclude(token.workerId, worker).1;
            |sent| == 1 && sent[0].Reported? && CanAnswer(sent[0].report, token)
  {
  }

  /**
   * `CanAnswer` leaves nothing out: in every run each report that a worker sends is one of the answers to
   * the current assignment of its running node.
   */
  lemma OnlyAnswers(setup: Setup, run: seq<Action>, w: string) returns (n: TaskNode)
    requires SetupOk(setup) && IsDag(setup.graph) && Legal(setup, Boot(setup), run)
    requires Enabled(Exec(setup, Boot(setup), run), AnswerStep(w))
    ensures var last := Exec(setup, Boot(setup), run);
            && last.active.Some? && n in setup.graph.nodes && n.workerId == w
            && InState(last.active.value.states, n.id, Running)
            && var sent := Sent(last, AnswerStep(w));
               |sent| == 1 && sent[0].Reported?
               && CanAnswer(sent[0].report, CurrentAssignment(setup.graph, last.active.value, n))
  {
    hide Boot, Legal, Exec, RuntimeOk, WellFormed, AllRegistered, IsDag, NoIdleReady, IsFinished, CanAnswer, TokensOk,
        CurrentAssignment, Conclude, Synthesize, Underway, NoToken, ReportsFrom;
    BootOk(setup);
    RunOk(setup, Boot(setup), run);
    BootUnderway(setup);
    RunUnderway(setup, Boot(setup), run);
    var last := Exec(setup, Boot(setup), run);
    IdleCellsStuck(last, AnswerStep(w), ReportsFrom(last.inbox, w));
    n := BusyWorkerHasNode(setup.graph, last.active.value, last, w);
    CurrentWorker(setup.graph, last.active.value, n);
    ConcludedAnswer(last.cells[w].worker, CurrentAssignment(setup.graph, last.active.value, n));
  }
}
