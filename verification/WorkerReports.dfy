/** What a worker reports: how its last thought and the fate of its action decide the answer. */
module WorkerReports {
  import opened Common
  import opened TaskGraphs
  import opened GraphRuntime
  import opened RuntimeInvariant
  import opened Scheduling
  import opened Synthesis
  import opened TaskCommander
  import opened Workers
  import opened Protocol
  import opened ProtocolSafety
  import opened Runs
  import opened AnsweringRuns

  // ---------------------------------------------------------------- reports in terms of what happened

  /** A completed report that carries the output. */
  predicate Carries(report: WorkerReport, o: Output) {
    && report.status == ReportCompleted
    && report.content == o.content && report.roleOutput == o.roleOutput
    && report.evidence == o.evidence && report.risks == o.risks && report.openQuestions == o.openQuestions
  }

  /** A failed report whose content and one open question are the reason. */
  predicate FailsWith(report: WorkerReport, reason: string) {
    && report.status == ReportFailed
    && report.content == reason && report.openQuestions == [reason]
    && report.roleOutput == None && report.evidence == [] && report.risks == []
  }

  /** What a worker went through since it accepted its task: its thought, and the last drive of its action. */
  datatype Story = Story(thought: Option<Thought>, drive: Option<Drive>)

  const NOTHING_YET := Story(None, None)

  function Told(story: Story, w: string, a: Action): Story {
    match a
    case TakeStep(v) => if v == w then NOTHING_YET else story
    case ThinkStep(v, thought) => if v == w then Story(Some(thought), None) else story
    case ActStep(v, drive) => if v == w then story.(drive := Some(drive)) else story
    case AnswerStep(_) => story
    case DeliverStep => story
  }

  /** The story of worker `w` along a run. */
  function StoryOf(story: Story, w: string, run: seq<Action>): Story
    decreases |run|
  {
    if run == [] then story else StoryOf(Told(story, w, run[0]), w, run[1..])
  }

  /** The worker owes an answer: its thought needs no action, failed, or its action has completed or aborted. */
  predicate Settled(story: Story) {
    match story.thought
    case None => false
    case Some(Confused(_)) => true
    case Some(Decided(_, selectsAction)) =>
      !selectsAction || story.drive == Some(Completed) || story.drive == Some(Aborted)
  }

  /** The report that the story calls for. */
  predicate Reports(story: Story, report: WorkerReport) {
    match story.thought
    case None => false
    case Some(Confused(description)) => FailsWith(report, "cognition failure: " + description)
    case Some(Decided(output, selectsAction)) =>
      if selectsAction && story.drive == Some(Aborted) then FailsWith(report, "action aborted")
      else Carries(report, output) && (selectsAction ==> story.drive == Some(Completed))
  }

  // ---------------------------------------------------------------- one worker

  /** A running worker is where its story has brought it. */
  predicate Follows(worker: WorkerState, story: Story) {
    worker.running ==>
      match story.thought
      case None => worker.phase == Thinking
      case Some(Confused(description)) => worker.phase == Failing && worker.error == Some("cognition failure: " + description)
      case Some(Decided(output, selectsAction)) =>
        worker.output == Some(output) &&
        if !selectsAction || story.drive == Some(Completed) then worker.phase == Finishing
        else if story.drive == Some(Aborted) then worker.phase == Failing && worker.error == Some("action aborted")
        else worker.phase == Acting && worker.hasAction
  }

  /** A worker answers exactly when its story is settled, and acts exactly while its action is open. */
  lemma PhaseOfStory(worker: WorkerState, story: Story)
    requires worker.running && Follows(worker, story)
    ensures worker.phase.Finishing? || worker.phase.Failing? <==> Settled(story)
    ensures worker.phase.Thinking? <==> story.thought.None?
  {
  }

  /**
   * The answer of a worker: one report of its assignment, completed with the output of its thought when no
   * action was selected or the action completed, and failed when the thought failed or the action aborted.
   */
  lemma ConcludesStory(worker: WorkerState, story: Story, token: WorkerAssignment)
    requires WorkingOn(worker, token) && Follows(worker, story) && Settled(story)
    ensures var sent := Conclude(token.workerId, worker).1;
            |sent| == 1 && sent[0].Reported? && Answers(sent[0].report, token) && Reports(story, sent[0].report)
  {
    ConcludeAnswers(token.workerId, worker);
  }

  /** A whole job of one worker: a thought, then the drives of its action as long as it acts. */
  function Driven(worker: WorkerState, drives: seq<Drive>): WorkerState
    decreases |drives|
  {
    if drives == [] || !worker.phase.Acting? then worker else Driven(Act(worker, drives[0]), drives[1..])
  }

  function Worked(token: WorkerAssignment, before: WorkerState, thought: Thought, drives: seq<Drive>): WorkerState {
    Driven(Think(Accept(token.workerId, before, Task(token.taskId, Some(token))).0, thought), drives)
  }

  /** The first drive that does not leave the action active. */
  function Fate(drives: seq<Drive>): Option<Drive> {
    if drives == [] then None else if drives[0] != StillActive then Some(drives[0]) else Fate(drives[1..])
  }

  lemma {:induction false} DrivenToFate(worker: WorkerState, output: Output, drives: seq<Drive>)
    requires worker.running && Follows(worker, Story(Some(Decided(output, true)), None))
    ensures Driven(worker, drives).running && Driven(worker, drives).task == worker.task
    ensures Follows(Driven(worker, drives), Story(Some(Decided(output, true)), Fate(drives)))
    decreases |drives|
  {
    if drives != [] && drives[0] == StillActive {
      DrivenToFate(worker, output, drives[1..]);
    }
  }

  /** From the acceptance of an assignment to its report, for every thought and every course of the action. */
  lemma JobReports(token: WorkerAssignment, before: WorkerState, thought: Thought, drives: seq<Drive>)
    ensures var worker, story := Worked(token, before, thought, drives), Story(Some(thought), Fate(drives));
            if Settled(story) then
              var sent := Conclude(token.workerId, worker).1;
              |sent| == 1 && sent[0].Reported? && Answers(sent[0].report, token) && Reports(story, sent[0].report)
            else worker.running && worker.phase.Acting?
  {
    var started := Think(Accept(token.workerId, before, Task(token.taskId, Some(token))).0, thought);
    var worker, story := Worked(token, before, thought, drives), Story(Some(thought), Fate(drives));
    if thought.Decided? && thought.selectsAction {
      DrivenToFate(started, thought.output, drives);
    }
    if Settled(story) {
      ConcludesStory(worker, story, token);
    }
  }

  // ---------------------------------------------------------------- runs

  predicate CellFollows(cells: map<string, Cell>, w: string, story: Story) {
    w in cells ==> Follows(cells[w].worker, story)
  }

  lemma StepFollows(setup: Setup, s: System, a: Action, w: string, story: Story)
    requires Enabled(s, a) && CellFollows(s.cells, w, story)
    ensures CellFollows(Next(setup, s, a).cells, w, Told(story, w, a))
  {
    hide Perform, OnReport;
    if a.DeliverStep? && s.inbox[0].Reported? {
      PerformFollows(s.(inbox := s.inbox[1..]),
                     OnReport(setup.graph, setup.checks, s.active, s.inbox[0].report, setup.workers), w, story);
    }
  }

  lemma PerformFollows(s: System, d: Decision, w: string, story: Story)
    requires CellFollows(s.cells, w, story)
    ensures CellFollows(Perform(s, d).cells, w, story)
  {
    hide Follows, Post;
    PostKeepsWorkers(s.cells, d.sends);
  }

  lemma {:induction false} RunFollows(setup: Setup, s: System, run: seq<Action>, w: string, story: Story)
    requires Legal(setup, s, run) && CellFollows(s.cells, w, story)
    ensures CellFollows(Exec(setup, s, run).cells, w, StoryOf(story, w, run))
    decreases |run|
  {
    hide Enabled, Next, CellFollows;
    if run != [] {
      StepFollows(setup, s, run[0], w, story);
      RunFollows(setup, Next(setup, s, run[0]), run[1..], w, Told(story, w, run[0]));
    }
  }

  lemma BootFollows(setup: Setup, w: string)
    ensures CellFollows(Boot(setup).cells, w, NOTHING_YET)
  {
    hide Perform, Schedule;
    var idle := System(map v | v in setup.workers :: Cell([], IDLE), [], None, [], [], []);
    PerformFollows(idle, Schedule(setup.graph, NewRuntime(setup.graph), setup.workers), w, NOTHING_YET);
  }

  /**
   * In every run a working worker can answer exactly when its story is settled, and then it sends one
   * report: of the current assignment of its running node, and as the story calls for.
   */
  lemma AnswersAsTold(setup: Setup, run: seq<Action>, w: string) returns (n: TaskNode)
    requires SetupOk(setup) && IsDag(setup.graph) && Legal(setup, Boot(setup), run)
    requires w in Exec(setup, Boot(setup), run).cells && Exec(setup, Boot(setup), run).cells[w].worker.running
    ensures var last, story := Exec(setup, Boot(setup), run), StoryOf(NOTHING_YET, w, run);
            && last.active.Some? && n in setup.graph.nodes && n.workerId == w
            && InState(last.active.value.states, n.id, Running)
            && (Enabled(last, AnswerStep(w)) <==> Settled(story))
            && (Settled(story) ==>
                  var sent, token := Conclude(w, last.cells[w].worker).1, CurrentAssignment(setup.graph, last.active.value, n);
                  |sent| == 1 && sent[0].Reported? && Answers(sent[0].report, token) && Reports(story, sent[0].report))
  {
    hide Boot, Legal, Exec, RuntimeOk, WellFormed, AllRegistered, IsDag, NoIdleReady, IsFinished, TokensOk,
        CurrentAssignment, Conclude, Synthesize, ReportsFrom, Follows, Settled, Reports;
    BootOk(setup);
    RunOk(setup, Boot(setup), run);
    BootFollows(setup, w);
    RunFollows(setup, Boot(setup), run, w, NOTHING_YET);
    var last, story := Exec(setup, Boot(setup), run), StoryOf(NOTHING_YET, w, run);
    n := BusyWorkerHasNode(setup.graph, last.active.value, last, w);
    CurrentWorker(setup.graph, last.active.value, n);
    PhaseOfStory(last.cells[w].worker, story);
    if Settled(story) {
      ConcludesStory(last.cells[w].worker, story, CurrentAssignment(setup.graph, last.active.value, n));
    }
  }
}
