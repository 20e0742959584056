/** Whole collaborations without worker failures, in every order in which the workers may finish. */
module CollaborationRuns {
  import opened Common
  import opened Text
  import opened Roles
  import opened Router
  import opened Preselection
  import opened Agreement
  import opened Collaboration

  datatype Setup = Setup(route: RoleRoute, registered: set<string>, extract: string -> string, task: string)

  /** What a worker's finishing message said. */
  datatype Heard = Heard(taskId: string, output: Option<string>)

  /** `jobs` are the workers that still owe a finishing message. */
  datatype Session = Session(collab: Collab, jobs: set<string>, heard: map<string, Heard>, texts: seq<Answer>)

  /** A worker with a job finishes it, under a task id and with an output of its own. */
  datatype Finishing = Finishing(worker: string, heard: Heard)

  function PlanOf(setup: Setup): Plan {
    FromRoute(setup.route)
  }

  /** The supports that have a worker, in plan order. */
  function Dispatched(setup: Setup): seq<string> {
    OnlyIn(WorkerIds(PlanOf(setup).support), setup.registered)
  }

  /** The answer of a worker outside any collaboration. */
  function WorkerMessage(h: Heard, extract: string -> string): string {
    if h.output.Some? && !IsBlank(h.output.value) then extract(h.output.value) else Done(h.taskId)
  }

  /** The primary has been given its job. */
  function Start(setup: Setup): Session {
    var primary := PlanOf(setup).primary.workerId;
    Session(Prepared(NO_COLLAB, Some(setup.route), Some(primary)), {primary}, map[], [])
  }

  predicate Enabled(s: Session, f: Finishing) {
    f.worker in s.jobs
  }

  function Next(setup: Setup, s: Session, f: Finishing): Session {
    var e := OnFinished(s.collab, f.worker, f.heard.taskId, f.heard.output, setup.task, setup.registered, setup.extract);
    Session(e.collab, s.jobs - {f.worker} + (set w | w in e.sends), s.heard[f.worker := f.heard],
            s.texts + if e.handled then e.texts else [Plain(WorkerMessage(f.heard, setup.extract))])
  }

  // ---------------------------------------------------------------- plans of distinct workers

  ghost predicate PlanOk(plan: Plan) {
    && (forall i, j :: 0 <= i < j < |Everyone(plan)| ==> Everyone(plan)[i].workerId != Everyone(plan)[j].workerId)
    && (forall a :: a in Everyone(plan) ==> a.workerId != [])
  }

  lemma {:induction false} FindsAssignment(support: seq<RoleAssignment>, workerId: string)
    ensures var f := FindAssignment(support, workerId);
            && (f.Some? ==> f.value in support && f.value.workerId == workerId)
            && (f.None? ==> forall a :: a in support ==> a.workerId != workerId)
  {
    if support != [] {
      FindsAssignment(support[1..], workerId);
    }
  }

  lemma AssignmentUnique(plan: Plan, a: RoleAssignment)
    requires PlanOk(plan) && a in Everyone(plan)
    ensures AssignmentFor(plan, a.workerId) == Some(a)
  {
    var all := Everyone(plan);
    FindsAssignment(plan.support, a.workerId);
    var i :| 0 <= i < |all| && all[i] == a;
    if i > 0 {
      assert all[0].workerId != all[i].workerId;
      assert plan.support[i - 1] == a;
      var f := FindAssignment(plan.support, a.workerId).value;
      var j :| 0 <= j < |plan.support| && plan.support[j] == f;
      assert all[j + 1] == f;
    }
  }

  // ---------------------------------------------------------------- contributions

  function ContributionOf(a: RoleAssignment, h: Heard, extract: string -> string): Contribution
    requires h.output.Some?
  {
    Contribution(a.roleId, a.runtimeRole, a.workerId, h.taskId, extract(h.output.value))
  }

  predicate Gave(heard: map<string, Heard>, worker: string) {
    worker in heard && heard[worker].output.Some?
  }

  /** What the assignments' workers were heard to answer, in the order of the assignments. */
  function Gathered(assignments: seq<RoleAssignment>, heard: map<string, Heard>,
      extract: string -> string): seq<Contribution> {
    if assignments == [] then []
    else
      var a := assignments[0];
      (if Gave(heard, a.workerId) then [ContributionOf(a, heard[a.workerId], extract)] else [])
      + Gathered(assignments[1..], heard, extract)
  }

  ghost predicate OutputsOk(plan: Plan, outputs: map<string, Contribution>, heard: map<string, Heard>,
      extract: string -> string) {
    forall a :: a in Everyone(plan) ==>
      && (a.workerId in outputs <==> Gave(heard, a.workerId))
      && (a.workerId in outputs ==> outputs[a.workerId] == ContributionOf(a, heard[a.workerId], extract))
  }

  lemma {:induction false} CollectGathers(
    assignments: seq<RoleAssignment>, outputs: map<string, Contribution>, heard: map<string, Heard>, extract: string -> string)
    requires forall a :: a in assignments ==>
               && (a.workerId in outputs <==> Gave(heard, a.workerId))
               && (a.workerId in outputs ==> outputs[a.workerId] == ContributionOf(a, heard[a.workerId], extract))
    ensures Collect(assignments, outputs) == Gathered(assignments, heard, extract)
  {
    if assignments != [] {
      assert assignments[0] in assignments && forall a :: a in assignments[1..] ==> a in assignments;
      CollectGathers(assignments[1..], outputs, heard, extract);
    }
  }

  lemma RecordKeepsOutputs(
    plan: Plan, c: Collab, a: RoleAssignment, h: Heard, heard: map<string, Heard>, extract: string -> string)
    requires PlanOk(plan) && a in Everyone(plan) && a.workerId !in heard && OutputsOk(plan, c.outputs, heard, extract)
    ensures OutputsOk(plan, Record(c, a, h.taskId, h.output, extract).outputs, heard[a.workerId := h], extract)
  {
    hide PlanOk;
    var outputs, more := Record(c, a, h.taskId, h.output, extract).outputs, heard[a.workerId := h];
    forall b | b in Everyone(plan)
      ensures b.workerId in outputs <==> Gave(more, b.workerId)
      ensures b.workerId in outputs ==> outputs[b.workerId] == ContributionOf(b, more[b.workerId], extract)
    {
      if b.workerId == a.workerId {
        AssignmentUnique(plan, a);
        AssignmentUnique(plan, b);
      }
    }
  }

  /** These are the contributions of the workers at the places `at`, which are all that gave an output. */
  ghost predicate GivenAt(at: seq<nat>, assignments: seq<RoleAssignment>, heard: map<string, Heard>,
      extract: string -> string, contributions: seq<Contribution>)
  {
    && |at| == |contributions|
    && (forall i, j :: 0 <= i < j < |at| ==> at[i] < at[j])
    && (forall k: nat :: k in at <==> k < |assignments| && Gave(heard, assignments[k].workerId))
    && (forall i :: 0 <= i < |at| ==> at[i] < |assignments| && Gave(heard, assignments[at[i]].workerId)
                                      && contributions[i] == ContributionOf(assignments[at[i]], heard[assignments[at[i]].workerId], extract))
  }

  /** The contributions are those of the workers that gave an output, the primary's first and the rest in plan order. */
  lemma ContributionsExactly(plan: Plan, heard: map<string, Heard>, extract: string -> string) returns (at: seq<nat>)
    ensures GivenAt(at, [plan.primary] + plan.support, heard, extract, Gathered(Everyone(plan), heard, extract))
  {
    at := GatheredAt([plan.primary] + plan.support, heard, extract);
  }

  lemma {:induction false} GatheredAt(assignments: seq<RoleAssignment>, heard: map<string, Heard>, extract: string -> string)
      returns (at: seq<nat>)
    ensures GivenAt(at, assignments, heard, extract, Gathered(assignments, heard, extract))
    decreases |assignments|
  {
    hide Gave, ContributionOf, GivenAt, Gathered;
    if assignments == [] {
      at := [];
      NothingGathered(heard, extract);
    } else {
      var n := |assignments| - 1;
      var earlier := GatheredAt(assignments[..n], heard, extract);
      assert assignments == assignments[..n] + [assignments[n]];
      GatheredLast(assignments[..n], assignments[n], heard, extract);
      var found := Gathered(assignments[..n], heard, extract);
      if Gave(heard, assignments[n].workerId) {
        at := earlier + [n];
        GivenMore(earlier, assignments, heard, extract, found);
      } else {
        at := earlier;
        GivenSame(earlier, assignments, heard, extract, found);
        assert found + [] == found;
      }
    }
  }

  lemma NothingGathered(heard: map<string, Heard>, extract: string -> string)
    ensures GivenAt([], [], heard, extract, Gathered([], heard, extract))
  {
  }

  lemma {:induction false} GatheredLast(front: seq<RoleAssignment>, last: RoleAssignment, heard: map<string, Heard>,
      extract: string -> string)
    ensures Gathered(front + [last], heard, extract)
         == Gathered(front, heard, extract)
            + if Gave(heard, last.workerId) then [ContributionOf(last, heard[last.workerId], extract)] else []
  {
    if front == [] {
      assert front + [last] == [last];
    } else {
      assert (front + [last])[1..] == front[1..] + [last];
      GatheredLast(front[1..], last, heard, extract);
    }
  }

  lemma GivenMore(at: seq<nat>, assignments: seq<RoleAssignment>, heard: map<string, Heard>, extract: string -> string,
      found: seq<Contribution>)
    requires assignments != [] && GivenAt(at, assignments[..|assignments| - 1], heard, extract, found)
    requires Gave(heard, assignments[|assignments| - 1].workerId)
    ensures var a := assignments[|assignments| - 1];
            GivenAt(at + [|assignments| - 1], assignments, heard, extract, found + [ContributionOf(a, heard[a.workerId], extract)])
  {
    hide Gave, ContributionOf;
    var n := |assignments| - 1;
    var front, more := assignments[..n], at + [n];
    assert forall k: nat :: k < n ==> front[k] == assignments[k];
    assert forall k: nat :: k in more <==> k in at || k == n;
    assert forall i :: 0 <= i < |at| ==> more[i] == at[i] && at[i] in at;
  }

  lemma GivenSame(at: seq<nat>, assignments: seq<RoleAssignment>, heard: map<string, Heard>, extract: string -> string,
      found: seq<Contribution>)
    requires assignments != [] && GivenAt(at, assignments[..|assignments| - 1], heard, extract, found)
    requires !Gave(heard, assignments[|assignments| - 1].workerId)
    ensures GivenAt(at, assignments, heard, extract, found)
  {
    hide Gave, ContributionOf;
    var n := |assignments| - 1;
    var front := assignments[..n];
    assert forall k: nat :: k < n ==> front[k] == assignments[k];
  }

  // ---------------------------------------------------------------- the phases of a session

  /** The primary is at work and nothing was heard. */
  predicate Asking(setup: Setup, s: Session) {
    && s.jobs == {PlanOf(setup).primary.workerId} && s.heard == map[] && s.texts == []
    && s.collab == if PlanOf(setup).support == [] then NO_COLLAB else Collab(Some(PlanOf(setup)), None, [], [], map[])
  }

  /** Pending and completed supports are disjoint and together are the dispatched ones. */
  ghost predicate Split(setup: Setup, c: Collab) {
    && (forall w :: w in Dispatched(setup) <==> w in c.pending || w in c.completed)
    && (forall w :: !(w in c.pending && w in c.completed))
    && Distinct(c.completed)
  }

  /** The primary has answered and some supports are still at work. */
  ghost predicate SupportPhase(setup: Setup, s: Session) {
    var plan := PlanOf(setup);
    && plan.support != [] && s.collab.active == Some(plan) && s.texts == []
    && Split(setup, s.collab) && s.collab.pending != []
    && s.jobs == (set w | w in s.collab.pending)
    && s.heard.Keys == {plan.primary.workerId} + (set w | w in s.collab.completed)
    && s.collab.taskId == Some(s.heard[plan.primary.workerId].taskId)
    && OutputsOk(plan, s.collab.outputs, s.heard, setup.extract)
  }

  /** The one text of a finished session, given the order in which the supports finished. */
  function FinalText(setup: Setup, heard: map<string, Heard>, order: seq<string>): Answer
    requires PlanOf(setup).primary.workerId in heard
  {
    var plan := PlanOf(setup);
    var h := heard[plan.primary.workerId];
    if plan.support == [] then Plain(WorkerMessage(h, setup.extract))
    else if order == [] then Plain(if h.output.Some? then setup.extract(h.output.value) else Done(h.taskId))
    else Joint(h.taskId, setup.task, Join(order, ", "), Gathered(Everyone(plan), heard, setup.extract))
  }

  /** The primary and every dispatched support have answered, and the host has its one text. */
  ghost predicate Ended(setup: Setup, s: Session, order: seq<string>) {
    && s.collab == NO_COLLAB && s.jobs == {}
    && Distinct(order) && (forall w :: w in order <==> w in Dispatched(setup))
    && s.heard.Keys == {PlanOf(setup).primary.workerId} + (set w | w in order)
    && s.texts == [FinalText(setup, s.heard, order)]
  }

  ghost predicate SessionOk(setup: Setup, s: Session) {
    Asking(setup, s) || SupportPhase(setup, s) || exists order :: Ended(setup, s, order)
  }

  // ---------------------------------------------------------------- steps

  lemma {:induction false} InWithout(s: seq<string>, x: string, y: string)
    ensures y in Without(s, x) <==> y in s && y != x
  {
    if s != [] {
      InWithout(s[1..], x, y);
    }
  }

  /** A dispatched support is in the plan, is not the primary, and has its own assignment. */
  lemma SupportAssignment(setup: Setup, w: string)
    requires PlanOk(PlanOf(setup)) && w in Dispatched(setup)
    ensures w != PlanOf(setup).primary.workerId && w != []
    ensures AssignmentFor(PlanOf(setup), w).Some?
    ensures var a := AssignmentFor(PlanOf(setup), w).value; a in Everyone(PlanOf(setup)) && a.workerId == w
  {
    var plan := PlanOf(setup);
    var ids := WorkerIds(plan.support);
    InOnlyIn(ids, setup.registered, w);
    var i :| 0 <= i < |ids| && ids[i] == w;
    assert Everyone(plan)[i + 1] == plan.support[i] && Everyone(plan)[0] == plan.primary;
    assert plan.support[i] in Everyone(plan);
    hide PlanOf;
    AssignmentUnique(plan, plan.support[i]);
  }

  lemma DirectEnds(setup: Setup, s: Session, f: Finishing)
    requires Enabled(s, f)
    requires Asking(setup, s) && PlanOf(setup).support == []
    ensures Ended(setup, Next(setup, s, f), [])
  {
    hide WorkerMessage, FromRoute;
    var next := Next(setup, s, f);
    assert next.jobs == {};
    assert Dispatched(setup) == [];
    assert next.heard.Keys == {f.worker};
  }

  /** The state after the primary has answered, before its supports are asked. */
  function PrimaryAnswered(setup: Setup, s: Session, f: Finishing): Collab {
    Record(s.collab.(taskId := Some(f.heard.taskId)), PlanOf(setup).primary, f.heard.taskId, f.heard.output, setup.extract)
  }

  lemma PrimaryEffect(setup: Setup, s: Session, f: Finishing)
    requires Enabled(s, f)
    requires Asking(setup, s) && PlanOf(setup).support != []
    ensures var c, heard := PrimaryAnswered(setup, s, f), map[f.worker := f.heard];
            Next(setup, s, f) ==
              if Dispatched(setup) == [] then
                Session(NO_COLLAB, {}, heard, [FinalAnswer(c.(pending := []), f.heard.taskId, setup.task)])
              else Session(c.(pending := Dispatched(setup)), (set w | w in Dispatched(setup)), heard, [])
  {
    hide PlanOf, Dispatched, FinalAnswer;
    DispatchedIs(setup);
    assert s.heard[f.worker := f.heard] == map[f.worker := f.heard];
    assert s.jobs - {f.worker} == {};
  }

  lemma PrimaryOutputs(setup: Setup, s: Session, f: Finishing)
    requires PlanOk(PlanOf(setup)) && Enabled(s, f)
    requires Asking(setup, s) && PlanOf(setup).support != []
    ensures OutputsOk(PlanOf(setup), PrimaryAnswered(setup, s, f).outputs, map[f.worker := f.heard], setup.extract)
  {
    hide PlanOf, PlanOk, OutputsOk;
    var plan := PlanOf(setup);
    assert plan.primary in Everyone(plan);
    NothingGiven(plan, setup.extract);
    RecordKeepsOutputs(plan, s.collab.(taskId := Some(f.heard.taskId)), plan.primary, f.heard, s.heard, setup.extract);
  }

  lemma PrimaryStep(setup: Setup, s: Session, f: Finishing)
    requires Enabled(s, f)
    requires PlanOk(PlanOf(setup)) && Asking(setup, s) && PlanOf(setup).support != []
    ensures if Dispatched(setup) == [] then Ended(setup, Next(setup, s, f), []) else SupportPhase(setup, Next(setup, s, f))
  {
    hide PlanOf, Dispatched, FinalAnswer, PlanOk, OutputsOk, FinalText, Next;
    PrimaryEffect(setup, s, f);
    PrimaryOutputs(setup, s, f);
    var c := PrimaryAnswered(setup, s, f);
    if Dispatched(setup) == [] {
      AloneText(setup, c.(pending := []), map[f.worker := f.heard], f.heard.taskId);
    }
  }

  lemma DispatchedIs(setup: Setup)
    ensures Dispatched(setup) == OnlyIn(WorkerIds(PlanOf(setup).support), setup.registered)
  {
  }

  lemma NothingGiven(plan: Plan, extract: string -> string)
    ensures OutputsOk(plan, map[], map[], extract)
  {
  }

  /** Without dispatched supports the text is the primary's answer. */
  lemma AloneText(setup: Setup, c: Collab, heard: map<string, Heard>, taskId: string)
    requires var p := PlanOf(setup).primary.workerId;
             && p in heard && heard[p].taskId == taskId && PlanOf(setup).support != []
    requires c.active == Some(PlanOf(setup)) && c.completed == [] && OutputsOk(PlanOf(setup), c.outputs, heard, setup.extract)
    ensures FinalAnswer(c, taskId, setup.task) == FinalText(setup, heard, [])
  {
    hide PlanOf;
    assert PlanOf(setup).primary in Everyone(PlanOf(setup));
  }

  /** With supports it joins all contributions, the primary's first and the rest in plan order. */
  lemma JointText(setup: Setup, c: Collab, heard: map<string, Heard>, taskId: string)
    requires var p := PlanOf(setup).primary.workerId;
             && p in heard && heard[p].taskId == taskId && PlanOf(setup).support != []
    requires c.active == Some(PlanOf(setup)) && c.completed != [] && c.completed[0] != []
    requires OutputsOk(PlanOf(setup), c.outputs, heard, setup.extract)
    ensures FinalAnswer(c, taskId, setup.task) == FinalText(setup, heard, c.completed)
  {
    hide PlanOf;
    assert Join(c.completed, ", ") != [];
    CollectGathers(Everyone(PlanOf(setup)), c.outputs, heard, setup.extract);
  }

  /** The state after a pending support has answered, before the check for the end. */
  function Answered(setup: Setup, s: Session, f: Finishing): Collab
    requires AssignmentFor(PlanOf(setup), f.worker).Some?
  {
    Record(s.collab.(pending := Without(s.collab.pending, f.worker), completed := s.collab.completed + [f.worker]),
           AssignmentFor(PlanOf(setup), f.worker).value, f.heard.taskId, f.heard.output, setup.extract)
  }

  lemma AnsweredSplit(setup: Setup, s: Session, f: Finishing)
    requires AssignmentFor(PlanOf(setup), f.worker).Some?
    requires Split(setup, s.collab) && f.worker in s.collab.pending
    ensures Split(setup, Answered(setup, s, f))
    ensures forall w :: w in Answered(setup, s, f).pending <==> w in s.collab.pending && w != f.worker
  {
    hide Dispatched, PlanOf, AssignmentFor;
    forall w
      ensures w in Answered(setup, s, f).pending <==> w in s.collab.pending && w != f.worker
    {
      InWithout(s.collab.pending, f.worker, w);
    }
  }

  lemma AnsweredOutputs(setup: Setup, s: Session, f: Finishing)
    requires PlanOk(PlanOf(setup)) && SupportPhase(setup, s) && f.worker in s.collab.pending
    ensures AssignmentFor(PlanOf(setup), f.worker).Some? && f.worker !in s.heard
    ensures OutputsOk(PlanOf(setup), Answered(setup, s, f).outputs, s.heard[f.worker := f.heard], setup.extract)
  {
    hide Dispatched, PlanOf, PlanOk, AssignmentFor, OutputsOk;
    SupportAssignment(setup, f.worker);
    RecordKeepsOutputs(PlanOf(setup), s.collab, AssignmentFor(PlanOf(setup), f.worker).value, f.heard, s.heard, setup.extract);
  }

  lemma SupportEffect(setup: Setup, s: Session, f: Finishing)
    requires PlanOk(PlanOf(setup)) && SupportPhase(setup, s) && f.worker in s.collab.pending
    ensures AssignmentFor(PlanOf(setup), f.worker).Some?
    ensures var c := Answered(setup, s, f);
            Next(setup, s, f) ==
              if c.pending == [] then
                Session(NO_COLLAB, s.jobs - {f.worker}, s.heard[f.worker := f.heard],
                        [FinalAnswer(c, c.taskId.value, setup.task)])
              else Session(c, s.jobs - {f.worker}, s.heard[f.worker := f.heard], [])
  {
    hide Dispatched, PlanOf, PlanOk, AssignmentFor, OutputsOk, FinalAnswer;
    SupportAssignment(setup, f.worker);
  }

  lemma SupportStep(setup: Setup, s: Session, f: Finishing)
    requires Enabled(s, f)
    requires PlanOk(PlanOf(setup)) && SupportPhase(setup, s)
    ensures SupportPhase(setup, Next(setup, s, f))
         || (AssignmentFor(PlanOf(setup), f.worker).Some? && Ended(setup, Next(setup, s, f), Answered(setup, s, f).completed))
  {
    hide Dispatched, PlanOf, PlanOk, AssignmentFor, OutputsOk, FinalAnswer, FinalText, Next;
    SupportEffect(setup, s, f);
    AnsweredOutputs(setup, s, f);
    AnsweredSplit(setup, s, f);
    var c, next, plan := Answered(setup, s, f), Next(setup, s, f), PlanOf(setup);
    SupportAssignment(setup, f.worker) by { assert f.worker in s.collab.pending; }
    AnsweredKeys(setup, s, f);
    if c.pending == [] {
      FirstCompleted(setup, c);
      JointText(setup, c, next.heard, c.taskId.value);
      assert next.jobs == {};
    } else {
      assert next.jobs == set w | w in c.pending;
    }
  }

  lemma AnsweredKeys(setup: Setup, s: Session, f: Finishing)
    requires SupportPhase(setup, s) && AssignmentFor(PlanOf(setup), f.worker).Some?
    ensures s.heard[f.worker := f.heard].Keys
         == {PlanOf(setup).primary.workerId} + (set w | w in Answered(setup, s, f).completed)
    ensures Answered(setup, s, f).active == s.collab.active && Answered(setup, s, f).taskId == s.collab.taskId
  {
    hide Dispatched, PlanOf, AssignmentFor, OutputsOk, Split;
    var c := Answered(setup, s, f);
    assert c.completed == s.collab.completed + [f.worker];
    assert forall w :: w in c.completed <==> w in s.collab.completed || w == f.worker;
  }

  lemma FirstCompleted(setup: Setup, c: Collab)
    requires PlanOk(PlanOf(setup)) && Split(setup, c) && c.completed != []
    ensures c.completed[0] != []
  {
    hide Dispatched, PlanOf, PlanOk;
    assert c.completed[0] in c.completed;
    SupportAssignment(setup, c.completed[0]);
  }

  lemma NotHeard(setup: Setup, s: Session, w: string)
    requires PlanOk(PlanOf(setup)) && SessionOk(setup, s) && w in s.jobs
    ensures w !in s.heard
  {
    hide PlanOk, PlanOf, Dispatched, OutputsOk, FinalText;
    if SupportPhase(setup, s) {
      SupportAssignment(setup, w);
    }
  }

  lemma StepKeeps(setup: Setup, s: Session, f: Finishing)
    requires Enabled(s, f)
    requires PlanOk(PlanOf(setup)) && SessionOk(setup, s)
    ensures SessionOk(setup, Next(setup, s, f))
    ensures Next(setup, s, f).heard.Keys == s.heard.Keys + {f.worker} && f.worker !in s.heard
  {
    NotHeard(setup, s, f.worker);
    hide PlanOk, Asking, SupportPhase, OnFinished, PlanOf;
    if Asking(setup, s) {
      hide Ended, Dispatched;
      if PlanOf(setup).support == [] {
        DirectEnds(setup, s, f);
      } else {
        PrimaryStep(setup, s, f);
      }
    } else if SupportPhase(setup, s) {
      hide Ended;
      SupportStep(setup, s, f);
    }
  }

  lemma StartOk(setup: Setup)
    ensures Asking(setup, Start(setup))
  {
  }

  // ---------------------------------------------------------------- whole sessions

  ghost predicate Legal(setup: Setup, s: Session, run: seq<Finishing>)
    decreases |run|
  {
    run == [] || (Enabled(s, run[0]) && Legal(setup, Next(setup, s, run[0]), run[1..]))
  }

  ghost function Exec(setup: Setup, s: Session, run: seq<Finishing>): Session
    requires Legal(setup, s, run)
    decreases |run|
  {
    if run == [] then s else Exec(setup, Next(setup, s, run[0]), run[1..])
  }

  lemma {:induction false} RunKeeps(setup: Setup, s: Session, run: seq<Finishing>)
    requires PlanOk(PlanOf(setup)) && SessionOk(setup, s) && Legal(setup, s, run)
    ensures SessionOk(setup, Exec(setup, s, run))
    ensures |Exec(setup, s, run).heard| == |s.heard| + |run|
    decreases |run|
  {
    if run != [] {
      hide SessionOk, Next, PlanOk, PlanOf;
      StepKeeps(setup, s, run[0]);
      OneMore(s.heard, Next(setup, s, run[0]).heard, run[0].worker);
      RunKeeps(setup, Next(setup, s, run[0]), run[1..]);
    }
  }

  lemma OneMore(m: map<string, Heard>, n: map<string, Heard>, w: string)
    requires n.Keys == m.Keys + {w} && w !in m
    ensures |n| == |m| + 1
  {
    assert |m.Keys + {w}| == |m.Keys| + 1;
    assert |m| == |m.Keys| && |n| == |n.Keys|;
  }

  lemma {:induction false} SetOfSeq(s: seq<string>)
    ensures |set w | w in s| <= |s|
  {
    if s != [] {
      SetOfSeq(s[1..]);
      assert (set w | w in s) == {s[0]} + (set w | w in s[1..]);
    }
  }

  lemma HeardBound(setup: Setup, s: Session)
    requires SessionOk(setup, s)
    ensures |s.heard| <= 1 + |Dispatched(setup)|
  {
    hide PlanOf, Dispatched, OutputsOk, FinalText;
    var dispatched := set w | w in Dispatched(setup);
    SetOfSeq(Dispatched(setup));
    var all := {PlanOf(setup).primary.workerId} + dispatched;
    assert |all| <= 1 + |dispatched|;
    assert s.heard.Keys <= all;
    Smaller(s.heard.Keys, all);
    assert |s.heard| == |s.heard.Keys|;
  }

  lemma {:induction false} Smaller(a: set<string>, b: set<string>)
    requires a <= b
    ensures |a| <= |b|
  {
    if a != {} {
      var x :| x in a;
      Smaller(a - {x}, b - {x});
    }
  }

  /** The host has heard nothing while anyone works, and exactly the one joint text once all have answered. */
  ghost predicate AnswersOnce(setup: Setup, s: Session) {
    && (s.jobs != {} ==> s.texts == [])
    && (s.jobs == {} ==> exists order :: Ended(setup, s, order))
  }

  /**
   * Every collaboration ends after the primary and the dispatched supports have each answered once, with
   * exactly one text to the host, whatever the order of their answers.
   */
  lemma CollaborationEnds(setup: Setup, run: seq<Finishing>)
    requires PlanOk(PlanOf(setup)) && Legal(setup, Start(setup), run)
    ensures AnswersOnce(setup, Exec(setup, Start(setup), run))
    ensures |run| <= 1 + |Dispatched(setup)|
  {
    StartOk(setup);
    var s := Exec(setup, Start(setup), run);
    hide PlanOk, PlanOf, Dispatched, OutputsOk, FinalText, Prepared;
    RunKeeps(setup, Start(setup), run);
    HeardBound(setup, s);
    hide Ended;
    OkAnswersOnce(setup, s);
  }

  lemma OkAnswersOnce(setup: Setup, s: Session)
    requires SessionOk(setup, s)
    ensures AnswersOnce(setup, s)
  {
    hide PlanOf, Dispatched, OutputsOk, FinalText;
    if SupportPhase(setup, s) {
      assert s.collab.pending[0] in s.jobs;
    }
  }

  // ---------------------------------------------------------------- routed plans

  lemma {:induction false} ZipNames(ids: seq<string>, names: seq<string>)
    requires |ids| == |names|
    ensures |ZipSupport(ids, names)| == |names|
    ensures forall i :: 0 <= i < |names| ==> ZipSupport(ids, names)[i].workerId == WorkerIdFor(names[i])
  {
    if names != [] {
      ZipNames(ids[1..], names[1..]);
    }
  }

  /** The plan of a route over a valid catalog gives every role a worker of its own. */
  lemma RoutedPlanOk(catalog: seq<Role>, lower: string -> string, task: string)
    requires catalog != [] && UniqueRoles(catalog)
    ensures PlanOk(FromRoute(Route(catalog, TaskInput(task), lower)))
  {
    var route, head := Route(catalog, TaskInput(task), lower), Head(catalog, TaskInput(task), lower);
    HeadNames(catalog, TaskInput(task), lower);
    HeadUnique(catalog, TaskInput(task), lower);
    RouteLengths(catalog, TaskInput(task), lower);
    hide Route, Head;
    ZipNames(route.supportRoles, route.supportRuntimeRoles);
    NamedPlanOk(FromRoute(route), [route.primaryRuntimeRole] + route.supportRuntimeRoles, head);
  }

  lemma RouteLengths(catalog: seq<Role>, input: RouteInput, lower: string -> string)
    requires catalog != []
    ensures |Route(catalog, input, lower).supportRoles| == |Route(catalog, input, lower).supportRuntimeRoles|
  {
  }

  lemma NamedPlanOk(plan: Plan, names: seq<string>, roles: seq<Role>)
    requires |Everyone(plan)| == |names| && forall i :: 0 <= i < |names| ==> Everyone(plan)[i].workerId == WorkerIdFor(names[i])
    requires UniqueRoles(roles) && NamesOf(names, roles)
    ensures PlanOk(plan)
  {
    forall i, j | 0 <= i < j < |names|
      ensures Everyone(plan)[i].workerId != Everyone(plan)[j].workerId
    {
      assert roles[i].runtimeRole != roles[j].runtimeRole;
      assert WorkerIdFor(names[i])[7..] == names[i] && WorkerIdFor(names[j])[7..] == names[j];
    }
  }
}
