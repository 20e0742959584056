/** The quantities a run spends and keeps: work left, attempts, evaluations and running nodes. */
module Accounting {
  import opened Common
  import opened TaskGraphs
  import opened Evaluator
  import opened GraphRuntime
  import opened RuntimeInvariant
  import opened TaskCommander
  import opened Workers
  import opened Protocol
  import opened ProtocolSafety

  // ---------------------------------------------------------------- work left

  function CellWork(cell: Cell): nat {
    6 * |cell.inbox| +
    if !cell.worker.running then 0
    else
      match cell.worker.phase
      case Thinking => 4
      case Acting => 3
      case Finishing => 2
      case Failing => 2
  }

  function AttemptsLeft(n: TaskNode, rt: Runtime): nat {
    if AttemptsOf(rt, n.id) < n.maxAttempts then n.maxAttempts - AttemptsOf(rt, n.id) else 0
  }

  function NodeWork(g: TaskGraph, rt: Runtime, cells: map<string, Cell>, id: string): nat {
    match FindNode(g.nodes, id)
    case None => 0
    case Some(n) =>
      7 * AttemptsLeft(n, rt)
      + if InState(rt.states, id, Running) && n.workerId in cells then CellWork(cells[n.workerId]) else 0
  }

  function WorkMap(g: TaskGraph, rt: Runtime, cells: map<string, Cell>): map<string, nat> {
    map id | id in rt.states :: NodeWork(g, rt, cells, id)
  }

  /** Seven units for each attempt left, plus what the token of each running node still has to do. */
  function Work(g: TaskGraph, rt: Runtime, cells: map<string, Cell>): nat {
    Total(Ids(g.nodes), WorkMap(g, rt, cells))
  }

  function Measure(g: TaskGraph, s: System): nat {
    |s.inbox| + match s.active case Some(rt) => Work(g, rt, s.cells) case None => 0
  }

  /** A step that drives an action which stays active; it changes nothing. */
  predicate Stutter(s: System, a: Action) {
    a.ActStep? && a.w in s.cells && s.cells[a.w].worker.hasAction && a.drive.StillActive?
  }

  // ---------------------------------------------------------------- counts

  function AttemptMap(rt: Runtime): map<string, nat> {
    map id | id in rt.attempts :: rt.attempts[id]
  }

  function RunningMap(rt: Runtime): map<string, nat> {
    map id | id in rt.states :: if rt.states[id].Running? then 1 else 0
  }

  function AllowedMap(g: TaskGraph, ids: set<string>): map<string, nat> {
    map id | id in ids :: match FindNode(g.nodes, id) case Some(n) => n.maxAttempts case None => 0
  }

  function TotalAttempts(g: TaskGraph, rt: Runtime): nat {
    Total(Ids(g.nodes), AttemptMap(rt))
  }

  function RunningCount(g: TaskGraph, rt: Runtime): nat {
    Total(Ids(g.nodes), RunningMap(rt))
  }

  function AllowedAttempts(g: TaskGraph, ids: set<string>): nat {
    Total(Ids(g.nodes), AllowedMap(g, ids))
  }

  function DispatchCount(log: seq<Event>): nat {
    if log == [] then 0
    else DispatchCount(log[..|log| - 1]) + if log[|log| - 1].Dispatched? then 1 else 0
  }

  // ---------------------------------------------------------------- effects of the updates

  lemma IdsOf(g: TaskGraph)
    requires WellFormed(g)
    ensures Distinct(Ids(g.nodes)) && forall n :: n in g.nodes ==> n.id in Ids(g.nodes)
  {
    forall n | n in g.nodes
      ensures n.id in Ids(g.nodes)
    {
      var i :| 0 <= i < |g.nodes| && g.nodes[i] == n;
      assert Ids(g.nodes)[i] == n.id;
    }
  }

  /** A dispatch uses one attempt for one more running node, and leaves less work. */
  lemma DispatchSpends(g: TaskGraph, checks: TextChecks, rt: Runtime, cells: map<string, Cell>, inbox: seq<Message>,
      n: TaskNode)
    requires RuntimeOk(g, checks, rt) && TokensOk(g, rt, cells, inbox) && n in g.nodes && n.workerId in cells
    requires Runnable(rt.states, n) && !WorkerBusy(g, rt.states, n.workerId)
    ensures var a := BuildAssignment(g, rt, n);
            && Work(g, MarkRunning(rt, a), PostOne(cells, a)) < Work(g, rt, cells)
            && TotalAttempts(g, MarkRunning(rt, a)) == TotalAttempts(g, rt) + 1
            && RunningCount(g, MarkRunning(rt, a)) == RunningCount(g, rt) + 1
  {
    hide RuntimeOk, TokensOk, WellFormed, RunningMap, AttemptMap, WorkMap, KeepsSettled, InputReports;
    RuntimeOkParts(g, checks, rt);
    NodeIdentity(g);
    IdsOf(g);
    DispatchKeeps(g, checks, rt, n);
    IdleHasNoToken(g, rt, cells, inbox, n.workerId);
    var a := BuildAssignment(g, rt, n);
    forall id | id in Ids(g.nodes) && id != n.id
      ensures Lookup(WorkMap(g, rt, cells), id) == Lookup(WorkMap(g, MarkRunning(rt, a), PostOne(cells, a)), id)
      ensures Lookup(AttemptMap(rt), id) == Lookup(AttemptMap(MarkRunning(rt, a)), id)
      ensures Lookup(RunningMap(rt), id) == Lookup(RunningMap(MarkRunning(rt, a)), id)
    {
      OtherWork(g, rt, cells, n, id);
    }
    DispatchedWork(g, rt, cells, n);
    hide WorkerBusy, Runnable;
    TotalChange(Ids(g.nodes), WorkMap(g, rt, cells), WorkMap(g, MarkRunning(rt, a), PostOne(cells, a)), n.id);
    TotalChange(Ids(g.nodes), AttemptMap(rt), AttemptMap(MarkRunning(rt, a)), n.id);
    TotalChange(Ids(g.nodes), RunningMap(rt), RunningMap(MarkRunning(rt, a)), n.id);
  }

  lemma OtherWork(g: TaskGraph, rt: Runtime, cells: map<string, Cell>, n: TaskNode, id: string)
    requires !WorkerBusy(g, rt.states, n.workerId) && id != n.id && n.workerId in cells
    ensures var a := BuildAssignment(g, rt, n);
            && Lookup(WorkMap(g, rt, cells), id) == Lookup(WorkMap(g, MarkRunning(rt, a), PostOne(cells, a)), id)
            && Lookup(AttemptMap(rt), id) == Lookup(AttemptMap(MarkRunning(rt, a)), id)
            && Lookup(RunningMap(rt), id) == Lookup(RunningMap(MarkRunning(rt, a)), id)
  {
    hide InputReports;
    var a := BuildAssignment(g, rt, n);
    assert NodeWork(g, rt, cells, id) == NodeWork(g, MarkRunning(rt, a), PostOne(cells, a), id);
  }

  lemma DispatchedWork(g: TaskGraph, rt: Runtime, cells: map<string, Cell>, n: TaskNode)
    requires FindNode(g.nodes, n.id) == Some(n) && n.workerId in cells && InState(rt.states, n.id, Pending)
    requires cells[n.workerId].inbox == [] && !cells[n.workerId].worker.running
    requires NextAttempt(AttemptsOf(rt, n.id)) == AttemptsOf(rt, n.id) + 1 <= n.maxAttempts
    ensures var a := BuildAssignment(g, rt, n);
            && Lookup(WorkMap(g, MarkRunning(rt, a), PostOne(cells, a)), n.id) == Lookup(WorkMap(g, rt, cells), n.id) - 1
            && Lookup(AttemptMap(MarkRunning(rt, a)), n.id) == Lookup(AttemptMap(rt), n.id) + 1
            && Lookup(RunningMap(MarkRunning(rt, a)), n.id) == Lookup(RunningMap(rt), n.id) + 1
  {
    hide InputReports;
  }

  /** A report spends no attempt; it takes one node out of the running ones. */
  lemma ReportSpends(g: TaskGraph, checks: TextChecks, rt: Runtime, after: Runtime, n: TaskNode,
      cells: map<string, Cell>)
    requires RuntimeOk(g, checks, rt) && n in g.nodes && InState(rt.states, n.id, Running) && ReportEffect(rt, after, n.id)
    ensures Work(g, after, cells) <= Work(g, rt, cells)
    ensures TotalAttempts(g, after) == TotalAttempts(g, rt)
    ensures RunningCount(g, after) + 1 == RunningCount(g, rt)
  {
    hide RuntimeOk, WellFormed, WorkMap, RunningMap, AttemptMap, ReportEffect;
    RuntimeOkParts(g, checks, rt);
    IdsOf(g);
    forall id | id in Ids(g.nodes)
      ensures Lookup(WorkMap(g, after, cells), id) <= Lookup(WorkMap(g, rt, cells), id)
      ensures if id == n.id then Lookup(RunningMap(rt), id) == 1 && Lookup(RunningMap(after), id) == 0
              else Lookup(RunningMap(rt), id) == Lookup(RunningMap(after), id)
    {
      ReportedWork(g, rt, after, n, cells, id);
    }
    TotalBound(Ids(g.nodes), WorkMap(g, after, cells), WorkMap(g, rt, cells));
    TotalChange(Ids(g.nodes), RunningMap(rt), RunningMap(after), n.id);
    SameAttempts(rt, after, n);
  }

  lemma SameAttempts(rt: Runtime, after: Runtime, n: TaskNode)
    requires ReportEffect(rt, after, n.id)
    ensures AttemptMap(rt) == AttemptMap(after)
  {
  }

  lemma ReportedWork(g: TaskGraph, rt: Runtime, after: Runtime, n: TaskNode, cells: map<string, Cell>, id: string)
    requires InState(rt.states, n.id, Running) && ReportEffect(rt, after, n.id)
    ensures Lookup(WorkMap(g, after, cells), id) <= Lookup(WorkMap(g, rt, cells), id)
    ensures if id == n.id then Lookup(RunningMap(rt), id) == 1 && Lookup(RunningMap(after), id) == 0
            else Lookup(RunningMap(rt), id) == Lookup(RunningMap(after), id)
  {
    assert id != n.id ==> Bystander(rt, after, id);
    assert NodeWork(g, after, cells, id) <= NodeWork(g, rt, cells, id);
  }
}
