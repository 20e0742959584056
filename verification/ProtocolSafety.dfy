/** Every step keeps the tokens: each running node has exactly one, and no other exists. */
module ProtocolSafety {
  import opened Common
  import opened TaskGraphs
  import opened Evaluator
  import opened GraphRuntime
  import opened RuntimeInvariant
  import opened Scheduling
  import opened Synthesis
  import opened TaskCommander
  import opened Workers
  import opened Protocol

  // ---------------------------------------------------------------- worker steps

  lemma {:induction false} ReportsAppend(inbox: seq<Message>, m: Message, w: string)
    ensures ReportsFrom(inbox + [m], w)
         == ReportsFrom(inbox, w) + if m.Reported? && m.report.workerId == w then [m.report] else []
  {
    if inbox == [] {
      assert [m][1..] == [];
    } else {
      assert (inbox + [m])[1..] == inbox[1..] + [m];
      ReportsAppend(inbox[1..], m, w);
    }
  }

  /** A step of worker `w` that leaves its node one token keeps all tokens. */
  lemma MoveToken(g: TaskGraph, rt: Runtime, before: System, after: System, w: string, n: TaskNode)
    requires OnePerWorker(g, rt.states) && TokensOk(g, rt, before.cells, before.inbox)
    requires w in before.cells && w in after.cells && after.cells == before.cells[w := after.cells[w]]
    requires forall v :: v != w ==> ReportsFrom(after.inbox, v) == ReportsFrom(before.inbox, v)
    requires n in g.nodes && n.workerId == w && InState(rt.states, n.id, Running)
    requires OneToken(after.cells[w], ReportsFrom(after.inbox, w), CurrentAssignment(g, rt, n))
    ensures TokensOk(g, rt, after.cells, after.inbox)
  {
    hide OneToken, NoToken, CurrentAssignment;
    forall m | m in g.nodes && InState(rt.states, m.id, Running)
      ensures m.workerId in after.cells
      ensures OneToken(after.cells[m.workerId], ReportsFrom(after.inbox, m.workerId), CurrentAssignment(g, rt, m))
    {
      if m.workerId == w {
        assert m == n;
      }
    }
    assert WorkerBusy(g, rt.states, w);
  }

  /** A worker that has anything in flight works for a running node. */
  lemma BusyWorkerHasNode(g: TaskGraph, rt: Runtime, s: System, w: string) returns (n: TaskNode)
    requires TokensOk(g, rt, s.cells, s.inbox) && w in s.cells
    requires !NoToken(s.cells[w], ReportsFrom(s.inbox, w))
    ensures n in g.nodes && n.workerId == w && InState(rt.states, n.id, Running)
    ensures OneToken(s.cells[w], ReportsFrom(s.inbox, w), CurrentAssignment(g, rt, n))
  {
    hide NoToken, OneToken, CurrentAssignment;
    n :| n in g.nodes && n.workerId == w && InState(rt.states, n.id, Running);
  }

  lemma SentByWorker(before: System, after: System, w: string, sent: seq<Message>)
    requires after.inbox == before.inbox + sent && |sent| <= 1
    requires sent != [] ==> sent[0].Started? || (sent[0].Reported? && sent[0].report.workerId == w)
    ensures forall v :: v != w ==> ReportsFrom(after.inbox, v) == ReportsFrom(before.inbox, v)
    ensures ReportsFrom(after.inbox, w)
         == ReportsFrom(before.inbox, w) + if sent != [] && sent[0].Reported? then [sent[0].report] else []
  {
    if sent == [] {
      assert after.inbox == before.inbox;
    } else {
      assert sent == [sent[0]];
      forall v
        ensures ReportsFrom(after.inbox, v)
             == ReportsFrom(before.inbox, v) + if sent[0].Reported? && sent[0].report.workerId == v then [sent[0].report] else []
      {
        ReportsAppend(before.inbox, sent[0], v);
      }
    }
  }

  predicate WorkerStep(a: Action) {
    !a.DeliverStep?
  }

  /** The messages a worker step adds to the commander's inbox. */
  function Sent(s: System, a: Action): seq<Message>
    requires Enabled(s, a) && WorkerStep(a)
  {
    match a
    case TakeStep(w) => [Started(w, s.cells[w].inbox[0].taskId)]
    case ThinkStep(_, _) => []
    case ActStep(_, _) => []
    case AnswerStep(w) => Conclude(w, s.cells[w].worker).1
  }

  function ReportsOf(sent: seq<Message>): seq<WorkerReport> {
    if sent != [] && sent[0].Reported? then [sent[0].report] else []
  }

  /** A worker step changes its own cell and the commander's inbox, and moves its token on. */
  lemma WorkerStepEffect(setup: Setup, s: System, a: Action, token: WorkerAssignment, reports: seq<WorkerReport>)
    requires Enabled(s, a) && WorkerStep(a)
    requires token.workerId == a.w && OneToken(s.cells[a.w], reports, token)
    ensures var after, sent := Next(setup, s, a), Sent(s, a);
            && after.cells == s.cells[a.w := after.cells[a.w]] && after.inbox == s.inbox + sent
            && after.active == s.active && after.texts == s.texts && after.recorded == s.recorded && after.log == s.log
            && |sent| <= 1
            && (sent != [] ==> sent[0].Started? || (sent[0].Reported? && sent[0].report.workerId == a.w))
            && OneToken(after.cells[a.w], reports + ReportsOf(sent), token)
  {
    assert reports + [] == reports;
    if a.AnswerStep? {
      ConcludeAnswers(a.w, s.cells[a.w].worker);
      assert [] + ReportsOf(Sent(s, a)) == ReportsOf(Sent(s, a));
    }
  }

  lemma WorkerStepKeeps(setup: Setup, s: System, a: Action)
    requires SystemOk(setup, s) && s.active.Some? && Enabled(s, a) && WorkerStep(a)
    ensures SystemOk(setup, Next(setup, s, a))
  {
    hide OneToken, NoToken, RuntimeOk, NoIdleReady, IsFinished, TokensOk, CurrentAssignment, Next, ReportsFrom;
    var rt := s.active.value;
    assert OnePerWorker(setup.graph, rt.states) by { RuntimeOkParts(setup.graph, setup.checks, rt); }
    IdleCellsStuck(s, a, ReportsFrom(s.inbox, a.w));
    var n := BusyWorkerHasNode(setup.graph, rt, s, a.w);
    assert CurrentAssignment(setup.graph, rt, n).workerId == a.w by { CurrentWorker(setup.graph, rt, n); }
    WorkerStepEffect(setup, s, a, CurrentAssignment(setup.graph, rt, n), ReportsFrom(s.inbox, a.w));
    var after := Next(setup, s, a);
    SentByWorker(s, after, a.w, Sent(s, a));
    MoveToken(setup.graph, rt, s, after, a.w, n);
  }

  lemma CurrentWorker(g: TaskGraph, rt: Runtime, n: TaskNode)
    ensures CurrentAssignment(g, rt, n).workerId == n.workerId
  {
  }

  /** An idle worker with an empty queue has no step to make. */
  lemma IdleCellsStuck(s: System, a: Action, reports: seq<WorkerReport>)
    requires Enabled(s, a) && WorkerStep(a)
    ensures !NoToken(s.cells[a.w], reports)
  {
  }

  lemma RuntimeOkParts(g: TaskGraph, checks: TextChecks, rt: Runtime)
    requires RuntimeOk(g, checks, rt)
    ensures WellFormed(g) && OnePerWorker(g, rt.states) && KeysOk(g, rt)
  {
  }

  // ---------------------------------------------------------------- assignments in progress

  lemma {:induction false} InputReportsFrame(refs: seq<string>, m: map<string, WorkerReport>,
      n: map<string, WorkerReport>)
    requires forall r :: r in refs ==> (r in m <==> r in n) && (r in m ==> m[r] == n[r])
    ensures InputReports(refs, m) == InputReports(refs, n)
  {
    if refs != [] {
      assert refs[|refs| - 1] in refs;
      assert forall r :: r in refs[..|refs| - 1] ==> r in refs;
      InputReportsFrame(refs[..|refs| - 1], m, n);
    }
  }

  /** A running node's assignment stays as it is while its own entries and settled nodes stay. */
  lemma CurrentFrame(g: TaskGraph, before: Runtime, after: Runtime, n: TaskNode)
    requires KeepsSettled(before, after) && InputsPassed(before.states, n)
    requires AttemptsOf(before, n.id) == AttemptsOf(after, n.id) && ReworkOf(before, n.id) == ReworkOf(after, n.id)
    ensures CurrentAssignment(g, before, n) == CurrentAssignment(g, after, n)
  {
    forall r | r in n.inputRefs
      ensures (r in before.reports <==> r in after.reports) && (r in before.reports ==> before.reports[r] == after.reports[r])
    {
      assert InState(before.states, r, Passed);
    }
    InputReportsFrame(n.inputRefs, before.reports, after.reports);
  }

  lemma RunningInputsPassed(g: TaskGraph, checks: TextChecks, rt: Runtime, n: TaskNode)
    requires RuntimeOk(g, checks, rt) && n in g.nodes && InState(rt.states, n.id, Running)
    ensures InputsPassed(rt.states, n)
  {
    assert NodeOk(checks, rt, n);
  }

  // ---------------------------------------------------------------- deliveries

  lemma TokensInbox(g: TaskGraph, rt: Runtime, cells: map<string, Cell>, inbox: seq<Message>, rest: seq<Message>)
    requires TokensOk(g, rt, cells, inbox)
    requires forall w :: ReportsFrom(rest, w) == ReportsFrom(inbox, w)
    ensures TokensOk(g, rt, cells, rest)
  {
    hide OneToken, NoToken, CurrentAssignment, ReportsFrom;
  }

  /** The report at the head of the inbox is the one token of a running node. */
  lemma ReportArrives(g: TaskGraph, rt: Runtime, s: System) returns (n: TaskNode)
    requires s.inbox != [] && s.inbox[0].Reported? && s.inbox[0].report.workerId in s.cells
    requires TokensOk(g, rt, s.cells, s.inbox)
    ensures n in g.nodes && InState(rt.states, n.id, Running)
    ensures Answers(s.inbox[0].report, CurrentAssignment(g, rt, n))
    ensures var w := n.workerId; w == s.inbox[0].report.workerId && NoToken(s.cells[w], ReportsFrom(s.inbox[1..], w))
    ensures forall w :: w != n.workerId ==> ReportsFrom(s.inbox[1..], w) == ReportsFrom(s.inbox, w)
  {
    var w := s.inbox[0].report.workerId;
    n := BusyWorkerHasNode(g, rt, s, w);
    hide CurrentAssignment, TokensOk;
    assert ReportsFrom(s.inbox, w)[0] == s.inbox[0].report;
  }

  /** Once the head report is applied, the tokens fit the runtime that results. */
  lemma AppliedTokens(g: TaskGraph, checks: TextChecks, rt: Runtime, after: Runtime, n: TaskNode, s: System)
    requires s.inbox != [] && n in g.nodes && n.workerId in s.cells && InState(rt.states, n.id, Running)
    requires RuntimeOk(g, checks, rt) && TokensOk(g, rt, s.cells, s.inbox)
    requires ReportEffect(rt, after, n.id)
    requires NoToken(s.cells[n.workerId], ReportsFrom(s.inbox[1..], n.workerId))
    requires forall w :: w != n.workerId ==> ReportsFrom(s.inbox[1..], w) == ReportsFrom(s.inbox, w)
    ensures TokensOk(g, after, s.cells, s.inbox[1..])
  {
    hide RuntimeOk, OneToken, NoToken, CurrentAssignment, ReportsFrom, ReportEffect, WorkerBusy;
    forall m | m in g.nodes && InState(after.states, m.id, Running)
      ensures InState(rt.states, m.id, Running) && m.workerId != n.workerId
      ensures CurrentAssignment(g, rt, m) == CurrentAssignment(g, after, m)
    {
      StillRunning(g, checks, rt, after, n, m);
    }
    forall w | w in s.cells && w != n.workerId && !WorkerBusy(g, after.states, w)
      ensures !WorkerBusy(g, rt.states, w)
    {
      if WorkerBusy(g, rt.states, w) {
        StillBusy(g, checks, rt, after, n, w);
      }
    }
  }

  lemma StillRunning(g: TaskGraph, checks: TextChecks, rt: Runtime, after: Runtime, n: TaskNode, m: TaskNode)
    requires RuntimeOk(g, checks, rt) && n in g.nodes && InState(rt.states, n.id, Running) && ReportEffect(rt, after, n.id)
    requires m in g.nodes && InState(after.states, m.id, Running)
    ensures InState(rt.states, m.id, Running) && m.workerId != n.workerId
    ensures CurrentAssignment(g, rt, m) == CurrentAssignment(g, after, m)
  {
    hide RuntimeOk, KeepsSettled, InputsPassed, CurrentAssignment;
    RuntimeOkParts(g, checks, rt);
    EffectKeepsSettled(rt, after, n.id);
    assert m.id != n.id;
    assert Bystander(rt, after, m.id);
    RunningInputsPassed(g, checks, rt, m);
    CurrentFrame(g, rt, after, m);
  }

  lemma StillBusy(g: TaskGraph, checks: TextChecks, rt: Runtime, after: Runtime, n: TaskNode, w: string)
    requires RuntimeOk(g, checks, rt) && n in g.nodes && ReportEffect(rt, after, n.id)
    requires w != n.workerId && WorkerBusy(g, rt.states, w)
    ensures WorkerBusy(g, after.states, w)
  {
    hide RuntimeOk;
    RuntimeOkParts(g, checks, rt);
    var m :| m in g.nodes && m.workerId == w && InState(rt.states, m.id, Running);
    if m.id == n.id {
      SameNode(g, m, n);
    }
    assert Bystander(rt, after, m.id);
  }

  // ---------------------------------------------------------------- scheduling

  /** What dispatching the nodes in `ready` does to the runtime. */
  ghost predicate DispatchEffect(rt: Runtime, after: Runtime, ready: seq<TaskNode>) {
    && after.states.Keys == rt.states.Keys && after.reports == rt.reports && after.rework == rt.rework
    && forall id :: id in rt.states ==> after.states[id] == if HasId(ready, id) then Running else rt.states[id]
  }

  predicate HasId(nodes: seq<TaskNode>, id: string) {
    exists n :: n in nodes && n.id == id
  }

  /** A selection that may be dispatched in any order: runnable, idle workers, one per worker. */
  ghost predicate Selection(g: TaskGraph, states: map<string, NodeState>, ready: seq<TaskNode>) {
    && DistinctWorkers(ready)
    && forall n :: n in ready ==> n in g.nodes && Runnable(states, n) && !WorkerBusy(g, states, n.workerId)
  }

  ghost predicate DispatchedOk(setup: Setup, rt: Runtime, cells: map<string, Cell>, inbox: seq<Message>,
      ready: seq<TaskNode>) {
    var d := DispatchAll(setup.graph, rt, ready, setup.workers);
    && RuntimeOk(setup.graph, setup.checks, d.rt) && DispatchEffect(rt, d.rt, ready)
    && Post(cells, d.sends).Keys == cells.Keys && TokensOk(setup.graph, d.rt, Post(cells, d.sends), inbox)
  }

  lemma {:induction false} DispatchAllKeeps(setup: Setup, rt: Runtime, cells: map<string, Cell>, inbox: seq<Message>,
      ready: seq<TaskNode>)
    requires AllRegistered(setup.graph, setup.workers) && cells.Keys == setup.workers
    requires RuntimeOk(setup.graph, setup.checks, rt) && TokensOk(setup.graph, rt, cells, inbox)
    requires Selection(setup.graph, rt.states, ready)
    ensures DispatchedOk(setup, rt, cells, inbox, ready)
  {
    hide RuntimeOk, TokensOk, Runnable, WorkerBusy, BuildAssignment, MarkRunning;
    if ready != [] {
      hide DispatchedOk, Selection;
      var front, n := ready[..|ready| - 1], ready[|ready| - 1];
      assert ready == front + [n];
      SelectionSplit(setup.graph, rt.states, front, n);
      DispatchAllKeeps(setup, rt, cells, inbox, front);
      DispatchMore(setup, rt, cells, inbox, front, n);
    }
  }

  lemma DispatchMore(setup: Setup, rt: Runtime, cells: map<string, Cell>, inbox: seq<Message>, front: seq<TaskNode>,
      n: TaskNode)
    requires AllRegistered(setup.graph, setup.workers) && cells.Keys == setup.workers
    requires RuntimeOk(setup.graph, setup.checks, rt) && Selection(setup.graph, rt.states, front + [n])
    requires DispatchedOk(setup, rt, cells, inbox, front)
    ensures DispatchedOk(setup, rt, cells, inbox, front + [n])
  {
    hide RuntimeOk, TokensOk, Runnable, WorkerBusy, BuildAssignment, MarkRunning, DispatchEffect, Selection;
    var d := DispatchAll(setup.graph, rt, front, setup.workers);
    SelectionLast(setup.graph, setup.checks, rt, d.rt, front, n);
    var posted, a := Post(cells, d.sends), BuildAssignment(setup.graph, d.rt, n);
    DispatchOne(setup, d.rt, posted, inbox, n);
    EffectOne(setup.graph, rt, d.rt, front, n);
    assert (front + [n])[..|front|] == front;
    assert (d.sends + [a])[..|d.sends|] == d.sends;
  }

  lemma SelectionSplit(g: TaskGraph, states: map<string, NodeState>, front: seq<TaskNode>, n: TaskNode)
    requires Selection(g, states, front + [n])
    ensures Selection(g, states, front)
    ensures n in g.nodes && Runnable(states, n) && !WorkerBusy(g, states, n.workerId) && n.id in states
    ensures forall m :: m in front ==> m in g.nodes && m.workerId != n.workerId && InState(states, m.id, Pending)
  {
    hide WorkerBusy, InputsPassed;
    var ready := front + [n];
    assert ready[|front|] == n;
    forall m | m in front
      ensures m in ready && m.workerId != n.workerId
    {
      var i :| 0 <= i < |front| && front[i] == m;
      assert ready[i] == m;
    }
    assert forall i, j :: 0 <= i < j < |front| ==> ready[i] == front[i] && ready[j] == front[j];
  }

  lemma SelectionLast(g: TaskGraph, checks: TextChecks, rt: Runtime, mid: Runtime, front: seq<TaskNode>, n: TaskNode)
    requires RuntimeOk(g, checks, rt) && Selection(g, rt.states, front + [n]) && DispatchEffect(rt, mid, front)
    ensures n in g.nodes && n.id in rt.states && Runnable(mid.states, n) && !WorkerBusy(g, mid.states, n.workerId)
  {
    hide RuntimeOk, WellFormed, Selection;
    RuntimeOkParts(g, checks, rt);
    NodeIdentity(g);
    SelectionSplit(g, rt.states, front, n);
    assert !HasId(front, n.id);
    forall r | r in n.inputRefs
      ensures InState(mid.states, r, Passed)
    {
      assert InState(rt.states, r, Passed);
    }
    forall m | m in g.nodes && m.workerId == n.workerId
      ensures !InState(mid.states, m.id, Running)
    {
      assert !InState(rt.states, m.id, Running);
      assert !HasId(front, m.id);
    }
  }

  lemma DispatchOne(setup: Setup, rt: Runtime, cells: map<string, Cell>, inbox: seq<Message>, n: TaskNode)
    requires cells.Keys == setup.workers && n.workerId in cells
    requires RuntimeOk(setup.graph, setup.checks, rt) && TokensOk(setup.graph, rt, cells, inbox)
    requires n in setup.graph.nodes && Runnable(rt.states, n) && !WorkerBusy(setup.graph, rt.states, n.workerId)
    ensures var a := BuildAssignment(setup.graph, rt, n);
            && a.workerId == n.workerId && a.nodeId == n.id
            && RuntimeOk(setup.graph, setup.checks, MarkRunning(rt, a))
            && TokensOk(setup.graph, MarkRunning(rt, a), PostOne(cells, a), inbox)
  {
    hide RuntimeOk, TokensOk, KeepsSettled, WorkerBusy;
    DispatchKeeps(setup.graph, setup.checks, rt, n);
    DispatchTokens(setup.graph, setup.checks, rt, cells, inbox, n);
  }

  lemma DispatchTokens(g: TaskGraph, checks: TextChecks, rt: Runtime, cells: map<string, Cell>, inbox: seq<Message>,
      n: TaskNode)
    requires n.workerId in cells && RuntimeOk(g, checks, rt) && TokensOk(g, rt, cells, inbox)
    requires n in g.nodes && Runnable(rt.states, n) && !WorkerBusy(g, rt.states, n.workerId)
    requires KeepsSettled(rt, MarkRunning(rt, BuildAssignment(g, rt, n)))
    ensures var a := BuildAssignment(g, rt, n);
            TokensOk(g, MarkRunning(rt, a), PostOne(cells, a), inbox)
  {
    hide RuntimeOk, OneToken, NoToken, CurrentAssignment, KeepsSettled, ReportsFrom, TokensOk, WorkerBusy;
    var a := BuildAssignment(g, rt, n);
    var after, w := MarkRunning(rt, a), n.workerId;
    var posted := PostOne(cells, a);
    assert NoToken(cells[w], ReportsFrom(inbox, w)) by { IdleHasNoToken(g, rt, cells, inbox, w); }
    FreshToken(g, rt, n, cells[w], posted[w], ReportsFrom(inbox, w));
    forall m | m in g.nodes && InState(after.states, m.id, Running) && m != n
      ensures m.workerId != w && InState(rt.states, m.id, Running)
      ensures CurrentAssignment(g, rt, m) == CurrentAssignment(g, after, m)
    {
      OtherRunning(g, checks, rt, n, m);
    }
    forall v | v != w && !WorkerBusy(g, after.states, v)
      ensures !WorkerBusy(g, rt.states, v)
    {
      BusyStays(g, rt.states, n.id, v);
    }
    AddToken(g, rt, after, cells, posted, inbox, n);
  }

  lemma IdleHasNoToken(g: TaskGraph, rt: Runtime, cells: map<string, Cell>, inbox: seq<Message>, w: string)
    requires TokensOk(g, rt, cells, inbox) && w in cells && !WorkerBusy(g, rt.states, w)
    ensures NoToken(cells[w], ReportsFrom(inbox, w))
  {
  }

  lemma OtherRunning(g: TaskGraph, checks: TextChecks, rt: Runtime, n: TaskNode, m: TaskNode)
    requires RuntimeOk(g, checks, rt) && n in g.nodes && !WorkerBusy(g, rt.states, n.workerId)
    requires KeepsSettled(rt, MarkRunning(rt, BuildAssignment(g, rt, n)))
    requires m in g.nodes && m != n && InState(MarkRunning(rt, BuildAssignment(g, rt, n)).states, m.id, Running)
    ensures m.workerId != n.workerId && InState(rt.states, m.id, Running)
    ensures CurrentAssignment(g, rt, m) == CurrentAssignment(g, MarkRunning(rt, BuildAssignment(g, rt, n)), m)
  {
    hide RuntimeOk, KeepsSettled, CurrentAssignment, InputsPassed, InputReports;
    RuntimeOkParts(g, checks, rt);
    if m.id == n.id {
      SameNode(g, m, n);
    }
    RunningInputsPassed(g, checks, rt, m);
    CurrentFrame(g, rt, MarkRunning(rt, BuildAssignment(g, rt, n)), m);
  }

  lemma BusyStays(g: TaskGraph, states: map<string, NodeState>, id: string, v: string)
    ensures WorkerBusy(g, states, v) ==> WorkerBusy(g, states[id := Running], v)
  {
    if WorkerBusy(g, states, v) {
      var m :| m in g.nodes && m.workerId == v && InState(states, m.id, Running);
      assert InState(states[id := Running], m.id, Running);
    }
  }

  lemma AddToken(g: TaskGraph, rt: Runtime, after: Runtime, cells: map<string, Cell>, posted: map<string, Cell>,
      inbox: seq<Message>, n: TaskNode)
    requires TokensOk(g, rt, cells, inbox) && n.workerId in cells && posted.Keys == cells.Keys
    requires forall v :: v in cells && v != n.workerId ==> posted[v] == cells[v]
    requires n in g.nodes && InState(after.states, n.id, Running)
    requires OneToken(posted[n.workerId], ReportsFrom(inbox, n.workerId), CurrentAssignment(g, after, n))
    requires forall m :: m in g.nodes && InState(after.states, m.id, Running) && m != n ==>
               && m.workerId != n.workerId && InState(rt.states, m.id, Running)
               && CurrentAssignment(g, rt, m) == CurrentAssignment(g, after, m)
    requires forall v :: v != n.workerId && !WorkerBusy(g, after.states, v) ==> !WorkerBusy(g, rt.states, v)
    ensures TokensOk(g, after, posted, inbox)
  {
    hide OneToken, NoToken, CurrentAssignment, ReportsFrom;
    assert WorkerBusy(g, after.states, n.workerId);
    hide WorkerBusy;
  }

  lemma FreshToken(g: TaskGraph, rt: Runtime, n: TaskNode, cell: Cell, posted: Cell, reports: seq<WorkerReport>)
    requires NoToken(cell, reports) && posted == cell.(inbox := cell.inbox + [BuildAssignment(g, rt, n)])
    ensures OneToken(posted, reports, CurrentAssignment(g, MarkRunning(rt, BuildAssignment(g, rt, n)), n))
  {
  }

  lemma EffectOne(g: TaskGraph, rt: Runtime, mid: Runtime, front: seq<TaskNode>, n: TaskNode)
    requires DispatchEffect(rt, mid, front) && n.id in rt.states
    ensures DispatchEffect(rt, MarkRunning(mid, BuildAssignment(g, mid, n)), front + [n])
  {
    forall id
      ensures HasId(front + [n], id) <==> HasId(front, id) || id == n.id
    {
      if HasId(front, id) {
        var m :| m in front && m.id == id;
        assert m in front + [n];
      }
      if id == n.id {
        assert n in front + [n];
      }
    }
  }

  /** After a dispatch no runnable node is left waiting for an idle worker. */
  lemma DispatchLeavesNoneReady(g: TaskGraph, states: map<string, NodeState>, rt: Runtime, after: Runtime)
    requires rt.states == states && DispatchEffect(rt, after, ReadyNodes(g, states))
    requires forall n :: n in g.nodes ==> n.id in states
    ensures NoIdleReady(g, after.states)
  {
    hide ReadyNodes, InputsPassed;
    var ready := ReadyNodes(g, states);
    ReadyExact(g, states, |g.nodes|);
    assert Selection(g, states, ready) && NoneOverlooked(g, states, ready, |g.nodes|) by { ReadySelection(g, states); }
    hide Selection;
    forall n | n in g.nodes && Runnable(after.states, n)
      ensures WorkerBusy(g, after.states, n.workerId)
    {
      RunnableBefore(rt, after, ready, n);
      if WorkerBusy(g, states, n.workerId) {
        var m :| m in g.nodes && m.workerId == n.workerId && InState(states, m.id, Running);
        assert InState(after.states, m.id, Running);
      } else {
        var i :| 0 <= i < |g.nodes| && g.nodes[i] == n;
        assert AmongWorkers(ready, n.workerId);
        var m :| m in ready && m.workerId == n.workerId;
        SelectedIsNode(g, states, ready, m);
        assert HasId(ready, m.id);
        assert InState(after.states, m.id, Running);
      }
    }
  }

  lemma SelectedIsNode(g: TaskGraph, states: map<string, NodeState>, ready: seq<TaskNode>, m: TaskNode)
    requires Selection(g, states, ready) && m in ready
    ensures m in g.nodes && m.id in states
  {
  }

  lemma ReadySelection(g: TaskGraph, states: map<string, NodeState>)
    ensures Selection(g, states, ReadyNodes(g, states))
    ensures NoneOverlooked(g, states, ReadyNodes(g, states), |g.nodes|)
  {
    ReadyExact(g, states, |g.nodes|);
  }

  lemma RunnableBefore(rt: Runtime, after: Runtime, ready: seq<TaskNode>, n: TaskNode)
    requires DispatchEffect(rt, after, ready) && Runnable(after.states, n)
    ensures Runnable(rt.states, n)
  {
    forall r | r in n.inputRefs
      ensures InState(rt.states, r, Passed)
    {
      assert InState(after.states, r, Passed);
    }
  }

  lemma AllNodesHaveStates(g: TaskGraph, checks: TextChecks, rt: Runtime)
    requires RuntimeOk(g, checks, rt)
    ensures forall n :: n in g.nodes ==> n.id in rt.states
  {
    forall n | n in g.nodes
      ensures n.id in rt.states
    {
      assert HasNode(g, n.id);
    }
  }

  /** Scheduling either dispatches what is ready, or finishes with the one final text. */
  lemma ScheduleKeeps(setup: Setup, rt: Runtime, s: System)
    requires SetupOk(setup) && IsDag(setup.graph) && s.cells.Keys == setup.workers && InboxOk(setup, s.inbox)
    requires RuntimeOk(setup.graph, setup.checks, rt) && TokensOk(setup.graph, rt, s.cells, s.inbox)
    requires s.texts == [] && s.recorded == []
    ensures SystemOk(setup, Perform(s, Schedule(setup.graph, rt, setup.workers)))
  {
    hide RuntimeOk, TokensOk, ReportsFrom, InboxOk, Synthesize, IsDag;
    var after := Perform(s, Schedule(setup.graph, rt, setup.workers));
    AllNodesHaveStates(setup.graph, setup.checks, rt);
    if IsFinished(rt.states) {
      FinishedQuiet(setup.graph, rt, s);
      assert after.cells == s.cells && after.recorded == [rt];
    } else {
      ReadySelection(setup.graph, rt.states);
      var ready := ReadyNodes(setup.graph, rt.states);
      hide ReadyNodes, Selection;
      DispatchAllKeeps(setup, rt, s.cells, s.inbox, ready);
      var d := DispatchAll(setup.graph, rt, ready, setup.workers);
      DispatchLeavesNoneReady(setup.graph, rt.states, rt, d.rt);
      DispatchUnfinished(setup, rt, d.rt, ready);
    }
  }

  lemma FinishedQuiet(g: TaskGraph, rt: Runtime, s: System)
    requires TokensOk(g, rt, s.cells, s.inbox) && IsFinished(rt.states)
    ensures forall w :: w in s.cells ==> NoToken(s.cells[w], ReportsFrom(s.inbox, w))
  {
    hide NoToken, OneToken, ReportsFrom;
    assert forall w :: !WorkerBusy(g, rt.states, w);
  }

  lemma DispatchUnfinished(setup: Setup, rt: Runtime, after: Runtime, ready: seq<TaskNode>)
    requires DispatchEffect(rt, after, ready) && !IsFinished(rt.states)
    ensures !IsFinished(after.states)
  {
    var id :| id in rt.states && !rt.states[id].Final();
    assert !after.states[id].Final();
  }

  // ---------------------------------------------------------------- the invariant

  lemma DeliverKeeps(setup: Setup, s: System)
    requires Enabled(s, DeliverStep)
    requires SetupOk(setup) && IsDag(setup.graph) && SystemOk(setup, s) && s.active.Some?
    ensures SystemOk(setup, Next(setup, s, DeliverStep))
  {
    hide RuntimeOk, TokensOk, NoIdleReady, ApplyReport, Schedule, CurrentAssignment, NoToken, WellFormed,
        ReportsFrom, SetupOk, IsDag, IsFinished;
    var rt, rest := s.active.value, s.(inbox := s.inbox[1..]);
    assert InboxOk(setup, rest.inbox);
    if s.inbox[0].Reported? {
      var n := ReportArrives(setup.graph, rt, s);
      var report := s.inbox[0].report;
      AnswersNode(setup.graph, rt, n, report);
      ReportKeeps(setup.graph, setup.checks, rt, n, report);
      var after := ApplyReport(setup.graph, setup.checks, rt, report).0;
      AppliedTokens(setup.graph, setup.checks, rt, after, n, s);
      ScheduleKeeps(setup, after, rest);
    } else {
      StartedIsSilent(s.inbox);
      TokensInbox(setup.graph, rt, s.cells, s.inbox, rest.inbox);
    }
  }

  lemma AnswersNode(g: TaskGraph, rt: Runtime, n: TaskNode, report: WorkerReport)
    requires Answers(report, CurrentAssignment(g, rt, n))
    ensures report.nodeId == n.id
  {
  }

  lemma StartedIsSilent(inbox: seq<Message>)
    requires inbox != [] && inbox[0].Started?
    ensures forall w :: ReportsFrom(inbox[1..], w) == ReportsFrom(inbox, w)
  {
  }

  /** After the final text nothing is in flight, so only start notices remain to be delivered. */
  lemma FinishedStepKeeps(setup: Setup, s: System, a: Action)
    requires Enabled(s, a)
    requires SystemOk(setup, s) && s.active.None?
    ensures SystemOk(setup, Next(setup, s, a)) && Next(setup, s, a).texts == s.texts
  {
    hide RuntimeOk, IsFinished, Synthesize, ReportsFrom;
    if WorkerStep(a) {
      IdleCellsStuck(s, a, ReportsFrom(s.inbox, a.w));
    } else {
      assert !s.inbox[0].Reported? by { FinishedInbox(s); }
      StartedIsSilent(s.inbox);
      assert InboxOk(setup, s.inbox[1..]);
    }
  }

  lemma FinishedInbox(s: System)
    requires s.inbox != [] && forall w :: w in s.cells ==> NoToken(s.cells[w], ReportsFrom(s.inbox, w))
    ensures s.inbox[0].Reported? ==> s.inbox[0].report.workerId !in s.cells
  {
  }

  /**
   * The protocol invariant is inductive. In particular every report the commander applies hits a
   * running node of the reporting worker, which is what `apply_report` itself never checks.
   */
  lemma StepKeeps(setup: Setup, s: System, a: Action)
    requires Enabled(s, a)
    requires SetupOk(setup) && IsDag(setup.graph) && SystemOk(setup, s)
    ensures SystemOk(setup, Next(setup, s, a))
  {
    hide SystemOk, SetupOk, IsDag, Next;
    if s.active.None? {
      FinishedStepKeeps(setup, s, a);
    } else if WorkerStep(a) {
      WorkerStepKeeps(setup, s, a);
    } else {
      DeliverKeeps(setup, s);
    }
  }

  lemma BootOk(setup: Setup)
    requires SetupOk(setup) && IsDag(setup.graph)
    ensures SystemOk(setup, Boot(setup))
  {
    hide RuntimeOk, Schedule, IsDag, WellFormed;
    var idle := System(map w | w in setup.workers :: Cell([], IDLE), [], None, [], [], []);
    NewRuntimeOk(setup.graph, setup.checks);
    var rt := NewRuntime(setup.graph);
    assert forall id :: id in rt.states ==> rt.states[id] == Pending;
    ScheduleKeeps(setup, rt, idle);
  }
}
