/** One worker: it accepts a task, thinks, perhaps acts, and answers exactly once. */
module Workers {
  import opened Common
  import opened TaskGraphs

  datatype Phase = Thinking | Acting | Finishing | Failing

  datatype Task = Task(id: string, assignment: Option<WorkerAssignment>)

  /** A cognition output: its text, and the role output parsed from it with the skill results merged in. */
  datatype Output = Output(
    text: string, content: string, roleOutput: Option<RoleWorkOutput>,
    evidence: seq<string>, risks: seq<string>, openQuestions: seq<string>)

  datatype Thought = Decided(output: Output, selectsAction: bool) | Confused(description: string)

  datatype Drive = Completed | Aborted | StillActive

  datatype Message =
    | Started(workerId: string, taskId: string)
    | Reported(report: WorkerReport)
    | TextFinished(workerId: string, taskId: string, output: Option<string>)
    | TextFailed(workerId: string, taskId: string, reason: string)

  /** `running` tells the running worker from the idle one. */
  datatype WorkerState = WorkerState(
    running: bool, phase: Phase, task: Option<Task>, hasAction: bool, output: Option<Output>, error: Option<string>)

  const NO_OUTPUT := Output("", "", None, [], [], [])
  const ABORTED := "action aborted"
  const CONFUSED := "cognition failure: "
  const NO_ACTION := "acting phase entered without current_action"

  const IDLE := WorkerState(false, Thinking, None, false, None, None)

  function Accept(id: string, w: WorkerState, task: Task): (WorkerState, Message) {
    (WorkerState(true, Thinking, Some(task), false, None, None), Started(id, task.id))
  }

  function Think(w: WorkerState, thought: Thought): WorkerState {
    if w.task.None? then w.(running := false)
    else
      match thought
      case Decided(output, true) => w.(output := Some(output), hasAction := true, phase := Acting)
      case Decided(output, false) => w.(output := Some(output), phase := Finishing)
      case Confused(description) => w.(error := Some(CONFUSED + description), phase := Failing)
  }

  function Act(w: WorkerState, drive: Drive): WorkerState {
    if !w.hasAction then w.(error := Some(NO_ACTION), phase := Failing)
    else
      match drive
      case Completed => w.(hasAction := false, phase := Finishing)
      case Aborted => w.(error := Some(ABORTED), phase := Failing)
      case StillActive => w
  }

  function CompletedReport(id: string, task: Task, a: WorkerAssignment, output: Output): WorkerReport {
    WorkerReport(a.graphId, a.nodeId, task.id, id, a.role, output.content, output.roleOutput, output.evidence,
                 output.risks, output.openQuestions, ReportCompleted)
  }

  function FailedReport(id: string, task: Task, a: WorkerAssignment, reason: string): WorkerReport {
    WorkerReport(a.graphId, a.nodeId, task.id, id, a.role, reason, None, [], [], [reason], ReportFailed)
  }

  function FinishedMessage(id: string, task: Task, output: Option<Output>): Message {
    match task.assignment
    case Some(a) => Reported(CompletedReport(id, task, a, output.GetOr(NO_OUTPUT)))
    case None => TextFinished(id, task.id, if output.Some? then Some(output.value.text) else None)
  }

  function FailedMessage(id: string, task: Task, error: Option<string>): Message {
    var reason := error.GetOr("unknown error");
    match task.assignment
    case Some(a) => Reported(FailedReport(id, task, a, reason))
    case None => TextFailed(id, task.id, reason)
  }

  /** The answer of a finishing or failing worker, and the idle worker it leaves. */
  function Conclude(id: string, w: WorkerState): (WorkerState, seq<Message>) {
    if w.task.None? then (w.(running := false), [])
    else if w.phase.Failing? then
      (w.(running := false, phase := Thinking, task := None, hasAction := false), [FailedMessage(id, w.task.value, w.error)])
    else
      (w.(running := false, phase := Thinking, task := None), [FinishedMessage(id, w.task.value, w.output)])
  }

  /** A report answers an assignment when it echoes its graph, node, task, worker and role. */
  predicate Answers(report: WorkerReport, a: WorkerAssignment) {
    && report.graphId == a.graphId && report.nodeId == a.nodeId && report.taskId == a.taskId
    && report.workerId == a.workerId && report.role == a.role
  }

  /** Whatever it thought and did, a worker concludes an assignment with one report that echoes it. */
  lemma ConcludeAnswers(id: string, w: WorkerState)
    requires w.task.Some? && w.task.value.assignment.Some?
    requires w.task.value.id == w.task.value.assignment.value.taskId && id == w.task.value.assignment.value.workerId
    ensures var (after, sent) := Conclude(id, w);
            && !after.running && after.task.None?
            && |sent| == 1 && sent[0].Reported? && Answers(sent[0].report, w.task.value.assignment.value)
  {
  }

  class Worker {
    const id: string
    var running: bool
    var phase: Phase
    var task: Option<Task>
    var hasAction: bool
    var output: Option<Output>
    var error: Option<string>
    var sent: seq<Message>

    constructor (runtimeRole: string)
      ensures id == "worker." + runtimeRole && Model() == IDLE && sent == []
    {
      id := "worker." + runtimeRole;
      running, phase, task, hasAction, output, error, sent := false, Thinking, None, false, None, None, [];
    }

    function Model(): WorkerState
      reads this
    {
      WorkerState(running, phase, task, hasAction, output, error)
    }

    method StartTask(t: Task)
      modifies this
      ensures Model() == Accept(id, old(Model()), t).0
      ensures sent == old(sent) + [Accept(id, old(Model()), t).1]
    {
      sent := sent + [Started(id, t.id)];
      task := Some(t);
      hasAction := false;
      phase := Thinking;
      running := true;
      output, error := None, None;
    }

    /** One step of the run loop; `thought` and `drive` are what cognition and the action yield. */
    method RuntimeStep(thought: Thought, drive: Drive)
      requires running
      modifies this
      ensures old(phase).Thinking? ==> Model() == Think(old(Model()), thought) && sent == old(sent)
      ensures old(phase).Acting? ==> Model() == Act(old(Model()), drive) && sent == old(sent)
      ensures old(phase).Finishing? || old(phase).Failing? ==>
                Model() == Conclude(id, old(Model())).0 && sent == old(sent) + Conclude(id, old(Model())).1
    {
      match phase {
        case Thinking => StepThinking(thought);
        case Acting => StepActing(drive);
        case Finishing => HandleTaskFinished();
        case Failing => HandleTaskFailed();
      }
    }

    method StepThinking(thought: Thought)
      modifies this
      ensures Model() == Think(old(Model()), thought) && sent == old(sent)
    {
      if task.None? {
        running := false;
        return;
      }
      match thought {
        case Decided(o, selectsAction) =>
          output := Some(o);
          if selectsAction {
            hasAction := true;
            phase := Acting;
          } else {
            phase := Finishing;
          }
        case Confused(description) =>
          phase := Failing;
          error := Some(CONFUSED + description);
      }
    }

    method StepActing(drive: Drive)
      modifies this
      ensures Model() == Act(old(Model()), drive) && sent == old(sent)
    {
      if !hasAction {
        phase := Failing;
        error := Some(NO_ACTION);
        return;
      }
      match drive {
        case Completed =>
          hasAction := false;
          phase := Finishing;
        case Aborted =>
          phase := Failing;
          error := Some(ABORTED);
        case StillActive =>
      }
    }

    method HandleTaskFinished()
      requires !phase.Failing?
      modifies this
      ensures Model() == Conclude(id, old(Model())).0
      ensures sent == old(sent) + Conclude(id, old(Model())).1
    {
      if task.None? {
        running := false;
        return;
      }
      var t := task.value;
      task := None;
      sent := sent + [FinishedMessage(id, t, output)];
      phase := Thinking;
      running := false;
    }

    method HandleTaskFailed()
      requires phase.Failing?
      modifies this
      ensures Model() == Conclude(id, old(Model())).0
      ensures sent == old(sent) + Conclude(id, old(Model())).1
    {
      if task.None? {
        running := false;
        return;
      }
      var t := task.value;
      task := None;
      sent := sent + [FailedMessage(id, t, error)];
      hasAction := false;
      phase := Thinking;
      running := false;
    }
  }
}
