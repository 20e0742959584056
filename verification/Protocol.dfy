/**
 * A whole task-graph run: the commander with its inbox, the workers with theirs, and the messages
 * between them. A step is one worker step or the delivery of one message to the commander.
 */
module Protocol {
  import opened Common
  import opened TaskGraphs
  import opened Evaluator
  import opened GraphRuntime
  import opened RuntimeInvariant
  import opened Scheduling
  import opened Synthesis
  import opened TaskCommander
  import opened Workers

  datatype Setup = Setup(graph: TaskGraph, checks: TextChecks, workers: set<string>)

  /** A worker with the assignments queued for it. */
  datatype Cell = Cell(inbox: seq<WorkerAssignment>, worker: WorkerState)

  datatype System = System(
    cells: map<string, Cell>, inbox: seq<Message>, active: Option<Runtime>,
    texts: seq<string>, recorded: seq<Runtime>, log: seq<Event>)

  datatype Action =
    | TakeStep(w: string)
    | ThinkStep(w: string, thought: Thought)
    | ActStep(w: string, drive: Drive)
    | AnswerStep(w: string)
    | DeliverStep

  // ---------------------------------------------------------------- the transition system

  /** One assignment, put at the end of its worker's queue. */
  function PostOne(cells: map<string, Cell>, a: WorkerAssignment): map<string, Cell> {
    if a.workerId in cells
    then cells[a.workerId := cells[a.workerId].(inbox := cells[a.workerId].inbox + [a])]
    else cells
  }

  function Post(cells: map<string, Cell>, sends: seq<WorkerAssignment>): map<string, Cell> {
    if sends == [] then cells
    else PostOne(Post(cells, sends[..|sends| - 1]), sends[|sends| - 1])
  }

  function Perform(s: System, d: Decision): System {
    System(Post(s.cells, d.sends), s.inbox, d.active, s.texts + d.texts, s.recorded + d.recorded, s.log + d.events)
  }

  /** All workers idle, and the graph scheduled for the first time. */
  function Boot(setup: Setup): System {
    var idle := System(map w | w in setup.workers :: Cell([], IDLE), [], None, [], [], []);
    Perform(idle, Schedule(setup.graph, NewRuntime(setup.graph), setup.workers))
  }

  predicate Enabled(s: System, a: Action) {
    match a
    case TakeStep(w) => w in s.cells && !s.cells[w].worker.running && s.cells[w].inbox != []
    case ThinkStep(w, _) => w in s.cells && s.cells[w].worker.running && s.cells[w].worker.phase.Thinking?
    case ActStep(w, _) => w in s.cells && s.cells[w].worker.running && s.cells[w].worker.phase.Acting?
    case AnswerStep(w) =>
      w in s.cells && s.cells[w].worker.running && (s.cells[w].worker.phase.Finishing? || s.cells[w].worker.phase.Failing?)
    case DeliverStep => s.inbox != []
  }

  function WithWorker(s: System, w: string, worker: WorkerState, sent: seq<Message>): System
    requires w in s.cells
  {
    s.(cells := s.cells[w := s.cells[w].(worker := worker)], inbox := s.inbox + sent)
  }

  ghost function Next(setup: Setup, s: System, a: Action): System
    requires Enabled(s, a)
  {
    match a
    case TakeStep(w) =>
      var next := s.cells[w].inbox[0];
      var (worker, started) := Accept(w, s.cells[w].worker, Task(next.taskId, Some(next)));
      s.(cells := s.cells[w := Cell(s.cells[w].inbox[1..], worker)], inbox := s.inbox + [started])
    case ThinkStep(w, thought) => WithWorker(s, w, Think(s.cells[w].worker, thought), [])
    case ActStep(w, drive) => WithWorker(s, w, Act(s.cells[w].worker, drive), [])
    case AnswerStep(w) => WithWorker(s, w, Conclude(w, s.cells[w].worker).0, Conclude(w, s.cells[w].worker).1)
    case DeliverStep =>
      var rest := s.(inbox := s.inbox[1..]);
      if s.inbox[0].Reported?
      then Perform(rest, OnReport(setup.graph, setup.checks, s.active, s.inbox[0].report, setup.workers))
      else rest
  }

  // ---------------------------------------------------------------- tokens in flight

  /** The assignment a running node is being worked on with. */
  function CurrentAssignment(g: TaskGraph, rt: Runtime, n: TaskNode): WorkerAssignment {
    AssignmentFor(g, rt, n, AttemptsOf(rt, n.id))
  }

  function ReportsFrom(inbox: seq<Message>, w: string): seq<WorkerReport> {
    if inbox == [] then []
    else
      (if inbox[0].Reported? && inbox[0].report.workerId == w then [inbox[0].report] else [])
      + ReportsFrom(inbox[1..], w)
  }

  predicate Quiet(worker: WorkerState) {
    !worker.running && worker.task.None?
  }

  predicate WorkingOn(worker: WorkerState, a: WorkerAssignment) {
    worker.running && worker.task == Some(Task(a.taskId, Some(a)))
  }

  /** Nothing is queued for the worker, it has no task, and none of its reports is on the way. */
  ghost predicate NoToken(cell: Cell, reports: seq<WorkerReport>) {
    cell.inbox == [] && Quiet(cell.worker) && reports == []
  }

  /** Exactly one token of `a`: queued, being worked on, or answered and on the way back. */
  ghost predicate OneToken(cell: Cell, reports: seq<WorkerReport>, a: WorkerAssignment) {
    || (cell.inbox == [a] && Quiet(cell.worker) && reports == [])
    || (cell.inbox == [] && WorkingOn(cell.worker, a) && reports == [])
    || (cell.inbox == [] && Quiet(cell.worker) && |reports| == 1 && Answers(reports[0], a))
  }

  ghost predicate TokensOk(g: TaskGraph, rt: Runtime, cells: map<string, Cell>, inbox: seq<Message>) {
    && (forall n :: n in g.nodes && InState(rt.states, n.id, Running) ==>
          n.workerId in cells && OneToken(cells[n.workerId], ReportsFrom(inbox, n.workerId), CurrentAssignment(g, rt, n)))
    && (forall w :: w in cells && !WorkerBusy(g, rt.states, w) ==> NoToken(cells[w], ReportsFrom(inbox, w)))
  }

  /** Only what a task-graph run sends: start notices, and reports of registered workers. */
  ghost predicate InboxOk(setup: Setup, inbox: seq<Message>) {
    forall i :: 0 <= i < |inbox| ==> inbox[i].Started? || (inbox[i].Reported? && inbox[i].report.workerId in setup.workers)
  }

  ghost predicate SetupOk(setup: Setup) {
    WellFormed(setup.graph) && AllRegistered(setup.graph, setup.workers)
  }

  ghost predicate ActiveOk(setup: Setup, rt: Runtime, s: System) {
    && RuntimeOk(setup.graph, setup.checks, rt) && !IsFinished(rt.states) && NoIdleReady(setup.graph, rt.states)
    && TokensOk(setup.graph, rt, s.cells, s.inbox)
    && s.texts == [] && s.recorded == []
  }

  ghost predicate FinishedOk(setup: Setup, rt: Runtime, s: System) {
    && RuntimeOk(setup.graph, setup.checks, rt) && IsFinished(rt.states)
    && s.texts == [Synthesize(setup.graph, rt.states, rt.reports)]
    && forall w :: w in s.cells ==> NoToken(s.cells[w], ReportsFrom(s.inbox, w))
  }

  /** What every reachable system satisfies. */
  ghost predicate SystemOk(setup: Setup, s: System) {
    && s.cells.Keys == setup.workers && InboxOk(setup, s.inbox)
    && match s.active
       case Some(rt) => ActiveOk(setup, rt, s)
       case None => |s.recorded| == 1 && FinishedOk(setup, s.recorded[0], s)
  }
}
