/** Role collaboration: a primary worker, then its supports, then one joint answer. */
module Collaboration {
  import opened Common
  import opened Text
  import opened Router

  datatype RoleAssignment = RoleAssignment(roleId: string, runtimeRole: string, workerId: string)

  datatype Plan = Plan(primary: RoleAssignment, support: seq<RoleAssignment>)

  datatype Contribution = Contribution(roleId: string, runtimeRole: string, workerId: string, taskId: string, content: string)

  /** What the host receives: a text, or the answer synthesised from all contributions. */
  datatype Answer =
    | Plain(content: string)
    | Joint(taskId: string, task: string, supportWorkers: string, contributions: seq<Contribution>)

  function WorkerIdFor(runtimeRole: string): string {
    "worker." + runtimeRole
  }

  function Assign(roleId: string, runtimeRole: string): RoleAssignment {
    RoleAssignment(roleId, runtimeRole, WorkerIdFor(runtimeRole))
  }

  function ZipSupport(ids: seq<string>, names: seq<string>): seq<RoleAssignment> {
    if ids == [] || names == [] then [] else [Assign(ids[0], names[0])] + ZipSupport(ids[1..], names[1..])
  }

  function FromRoute(route: RoleRoute): Plan {
    Plan(Assign(route.primaryRole, route.primaryRuntimeRole), ZipSupport(route.supportRoles, route.supportRuntimeRoles))
  }

  function FindAssignment(support: seq<RoleAssignment>, workerId: string): Option<RoleAssignment> {
    if support == [] then None
    else if support[0].workerId == workerId then Some(support[0])
    else FindAssignment(support[1..], workerId)
  }

  function AssignmentFor(plan: Plan, workerId: string): Option<RoleAssignment> {
    if plan.primary.workerId == workerId then Some(plan.primary) else FindAssignment(plan.support, workerId)
  }

  function Everyone(plan: Plan): seq<RoleAssignment> {
    [plan.primary] + plan.support
  }

  function WorkerIds(assignments: seq<RoleAssignment>): (ids: seq<string>)
    ensures |ids| == |assignments| && forall i :: 0 <= i < |ids| ==> ids[i] == assignments[i].workerId
  {
    seq(|assignments|, i requires 0 <= i < |assignments| => assignments[i].workerId)
  }

  // ---------------------------------------------------------------- the commander's fields as a value

  datatype Collab = Collab(
    active: Option<Plan>, taskId: Option<string>, pending: seq<string>, completed: seq<string>,
    outputs: map<string, Contribution>)

  const NO_COLLAB := Collab(None, None, [], [], map[])

  /** What handling one message does; `handled` tells whether it belonged to the collaboration. */
  datatype Effect = Effect(collab: Collab, sends: seq<string>, texts: seq<Answer>, handled: bool)

  function Without(s: seq<string>, x: string): seq<string> {
    if s == [] then [] else (if s[0] == x then [] else [s[0]]) + Without(s[1..], x)
  }

  function OnlyIn(s: seq<string>, keep: set<string>): seq<string> {
    if s == [] then [] else (if s[0] in keep then [s[0]] else []) + OnlyIn(s[1..], keep)
  }

  /** The recorded contributions of the assignments, in their order. */
  function Collect(assignments: seq<RoleAssignment>, outputs: map<string, Contribution>): seq<Contribution> {
    if assignments == [] then []
    else (if assignments[0].workerId in outputs then [outputs[assignments[0].workerId]] else [])
         + Collect(assignments[1..], outputs)
  }

  function Done(taskId: string): string {
    "任务已完成: " + taskId
  }

  function FinalAnswer(c: Collab, taskId: string, task: string): Answer {
    var supportWorkers := Join(c.completed, ", ");
    if supportWorkers == [] then
      Plain(if c.active.Some? && c.active.value.primary.workerId in c.outputs
            then c.outputs[c.active.value.primary.workerId].content else Done(taskId))
    else
      Joint(taskId, task, supportWorkers, if c.active.Some? then Collect(Everyone(c.active.value), c.outputs) else [])
  }

  function Finish(c: Collab, taskId: string, task: string, sends: seq<string>): Effect {
    Effect(NO_COLLAB, sends, [FinalAnswer(c, taskId, task)], true)
  }

  function Record(c: Collab, a: RoleAssignment, taskId: string, output: Option<string>,
      extract: string -> string): Collab {
    match output
    case None => c
    case Some(text) =>
      c.(outputs := c.outputs[a.workerId := Contribution(a.roleId, a.runtimeRole, a.workerId, taskId, extract(text))])
  }

  function DispatchSupport(c: Collab, plan: Plan, taskId: string, task: string, registered: set<string>): Effect {
    var dispatched := OnlyIn(WorkerIds(plan.support), registered);
    if dispatched == [] then Finish(c.(pending := []), taskId, task, [])
    else Effect(c.(pending := dispatched), dispatched, [], true)
  }

  /** A finished worker; `extract` stands for reading the answer out of the worker's output. */
  function OnFinished(
    c: Collab, workerId: string, taskId: string, output: Option<string>, task: string, registered: set<string>,
    extract: string -> string): Effect
  {
    if c.active.None? then Effect(c, [], [], false)
    else
      var plan := c.active.value;
      if workerId == plan.primary.workerId && plan.support != [] then
        DispatchSupport(Record(c.(taskId := Some(taskId)), plan.primary, taskId, output, extract), plan, taskId, task, registered)
      else if workerId in c.pending then
        var moved := c.(pending := Without(c.pending, workerId), completed := c.completed + [workerId]);
        var next := match AssignmentFor(plan, workerId) case Some(a) => Record(moved, a, taskId, output, extract) case None => moved;
        if next.pending == [] then Finish(next, next.taskId.GetOr(taskId), task, []) else Effect(next, [], [], true)
      else Effect(c, [], [], false)
  }

  /** The collaboration begins only with support roles and the routed primary as the target. */
  function Prepared(c: Collab, route: Option<RoleRoute>, target: Option<string>): Collab {
    match route
    case None => c
    case Some(r) =>
      var plan := FromRoute(r);
      if target != Some(plan.primary.workerId) || plan.support == [] then c
      else Collab(Some(plan), None, [], [], map[])
  }

  /** A collaboration begins exactly when the routed primary is the target and has supports; otherwise nothing changes. */
  lemma PreparedExactly(c: Collab, route: RoleRoute, target: Option<string>)
    requires |route.supportRoles| == |route.supportRuntimeRoles|
    ensures var after := Prepared(c, Some(route), target);
            if target == Some("worker." + route.primaryRuntimeRole) && route.supportRoles != [] then
              && after.active.Some? && after.taskId == None
              && after.pending == [] && after.completed == [] && after.outputs == map[]
              && var plan := after.active.value;
                 && plan.primary == RoleAssignment(route.primaryRole, route.primaryRuntimeRole, "worker." + route.primaryRuntimeRole)
                 && |plan.support| == |route.supportRoles|
                 && forall i :: 0 <= i < |plan.support| ==>
                      plan.support[i] == RoleAssignment(route.supportRoles[i], route.supportRuntimeRoles[i], "worker." + route.supportRuntimeRoles[i])
            else after == c
  {
    ZipExactly(route.supportRoles, route.supportRuntimeRoles);
  }

  lemma {:induction false} ZipExactly(ids: seq<string>, names: seq<string>)
    requires |ids| == |names|
    ensures |ZipSupport(ids, names)| == |ids|
    ensures forall i :: 0 <= i < |ids| ==> ZipSupport(ids, names)[i] == RoleAssignment(ids[i], names[i], "worker." + names[i])
  {
    if ids != [] {
      ZipExactly(ids[1..], names[1..]);
    }
  }

  // ---------------------------------------------------------------- the commander as written

  class CollaborationCommander {
    const registered: set<string>
    const extract: string -> string
    const task: string
    var activeCollaboration: Option<Plan>
    var activeTaskId: Option<string>
    var pendingSupportWorkers: seq<string>
    var completedSupportWorkers: seq<string>
    var outputs: map<string, Contribution>
    var sends: seq<string>
    var texts: seq<Answer>

    constructor (registered: set<string>, extract: string -> string, task: string)
      ensures this.registered == registered && this.extract == extract && this.task == task
      ensures Model() == NO_COLLAB && sends == [] && texts == []
    {
      this.registered, this.extract, this.task := registered, extract, task;
      activeCollaboration, activeTaskId := None, None;
      pendingSupportWorkers, completedSupportWorkers, outputs := [], [], map[];
      sends, texts := [], [];
    }

    function Model(): Collab
      reads this
    {
      Collab(activeCollaboration, activeTaskId, pendingSupportWorkers, completedSupportWorkers, outputs)
    }

    twostate predicate Did(e: Effect)
      reads this
    {
      Model() == e.collab && sends == old(sends) + e.sends && texts == old(texts) + e.texts
    }

    method PrepareCollaboration(route: Option<RoleRoute>, target: Option<string>)
      modifies this
      ensures Model() == Prepared(old(Model()), route, target) && sends == old(sends) && texts == old(texts)
    {
      if route.None? {
        return;
      }
      var plan := FromRoute(route.value);
      if target != Some(plan.primary.workerId) {
        return;
      }
      if plan.support == [] {
        return;
      }
      activeCollaboration, activeTaskId := Some(plan), None;
      pendingSupportWorkers, completedSupportWorkers, outputs := [], [], map[];
    }

    method HandleFinished(workerId: string, taskId: string, output: Option<string>) returns (handled: bool)
      modifies this
      ensures handled == OnFinished(old(Model()), workerId, taskId, output, task, registered, extract).handled
      ensures Did(OnFinished(old(Model()), workerId, taskId, output, task, registered, extract))
    {
      hide FinalAnswer;
      if activeCollaboration.None? {
        return false;
      }
      var plan := activeCollaboration.value;
      if workerId == plan.primary.workerId && plan.support != [] {
        activeTaskId := Some(taskId);
        if output.Some? {
          RecordOutput(plan.primary, taskId, output.value);
        }
        DispatchSupportWorkers(plan, taskId);
        return true;
      }
      if workerId in pendingSupportWorkers {
        pendingSupportWorkers := Without(pendingSupportWorkers, workerId);
        completedSupportWorkers := completedSupportWorkers + [workerId];
        var assignment := AssignmentFor(plan, workerId);
        if output.Some? && assignment.Some? {
          RecordOutput(assignment.value, taskId, output.value);
        }
        if pendingSupportWorkers == [] {
          SendCollaborationDone(activeTaskId.GetOr(taskId));
        }
        return true;
      }
      return false;
    }

    method RecordOutput(a: RoleAssignment, taskId: string, text: string)
      modifies `outputs
      ensures Model() == Record(old(Model()), a, taskId, Some(text), extract)
    {
      outputs := outputs[a.workerId := Contribution(a.roleId, a.runtimeRole, a.workerId, taskId, extract(text))];
    }

    method DispatchSupportWorkers(plan: Plan, taskId: string)
      modifies this
      ensures Did(DispatchSupport(old(Model()), plan, taskId, task, registered))
    {
      hide FinalAnswer;
      pendingSupportWorkers := WorkerIds(plan.support);
      var dispatched: seq<string> := [];
      for i := 0 to |plan.support|
        invariant dispatched == OnlyIn(WorkerIds(plan.support)[..i], registered)
        invariant sends == old(sends) + dispatched && texts == old(texts)
        invariant Model() == old(Model()).(pending := WorkerIds(plan.support))
      {
        OnlyInStep(WorkerIds(plan.support), i, registered);
        if plan.support[i].workerId in registered {
          sends := sends + [plan.support[i].workerId];
          dispatched := dispatched + [plan.support[i].workerId];
        }
      }
      RetainDispatched(WorkerIds(plan.support), registered);
      pendingSupportWorkers := OnlyIn(pendingSupportWorkers, (set w | w in dispatched));
      if pendingSupportWorkers == [] {
        SendCollaborationDone(taskId);
      }
    }

    method SendCollaborationDone(taskId: string)
      modifies this
      ensures Did(Finish(old(Model()), taskId, task, []))
    {
      var supportWorkers := Join(completedSupportWorkers, ", ");
      var answer;
      if supportWorkers == [] {
        answer := Plain(
          if activeCollaboration.Some? && activeCollaboration.value.primary.workerId in outputs
          then outputs[activeCollaboration.value.primary.workerId].content else Done(taskId));
      } else {
        answer := Joint(taskId, task, supportWorkers,
                        if activeCollaboration.Some? then Collect(Everyone(activeCollaboration.value), outputs) else []);
      }
      texts := texts + [answer];
      activeCollaboration, activeTaskId := None, None;
      pendingSupportWorkers, completedSupportWorkers, outputs := [], [], map[];
    }
  }

  lemma OnlyInStep(ids: seq<string>, i: nat, keep: set<string>)
    requires i < |ids|
    ensures OnlyIn(ids[..i + 1], keep) == OnlyIn(ids[..i], keep) + (if ids[i] in keep then [ids[i]] else [])
  {
    assert ids[..i + 1] == ids[..i] + [ids[i]];
    OnlyInConcat(ids[..i], [ids[i]], keep);
  }

  lemma {:induction false} OnlyInConcat(a: seq<string>, b: seq<string>, keep: set<string>)
    ensures OnlyIn(a + b, keep) == OnlyIn(a, keep) + OnlyIn(b, keep)
    decreases |a|
  {
    if a == [] {
      assert a + b == b;
    } else {
      assert (a + b)[1..] == a[1..] + b;
      OnlyInConcat(a[1..], b, keep);
    }
  }

  lemma {:induction false} InOnlyIn(s: seq<string>, keep: set<string>, x: string)
    ensures x in OnlyIn(s, keep) <==> x in s && x in keep
  {
    if s != [] {
      InOnlyIn(s[1..], keep, x);
    }
  }

  /** The supports are asked in plan order: those with a worker, and nobody else. */
  lemma {:induction false} OnlyInOrder(s: seq<string>, keep: set<string>)
    ensures InOrderOf(OnlyIn(s, keep), s) && forall x :: x in OnlyIn(s, keep) <==> x in s && x in keep
    decreases |s|
  {
    hide InOrderOf;
    if s == [] {
      NothingInOrder<string>([]);
    } else {
      var front, last := s[..|s| - 1], s[|s| - 1];
      OnlyInOrder(front, keep);
      OnlyInStep(s, |s| - 1, keep);
      MoreInOrder(OnlyIn(front, keep), front, last);
      assert s[..|s|] == s && front + [last] == s;
      assert OnlyIn(front, keep) + [] == OnlyIn(front, keep);
    }
  }

  lemma {:induction false} OnlyInAgree(s: seq<string>, a: set<string>, b: set<string>)
    requires forall x :: x in s ==> (x in a <==> x in b)
    ensures OnlyIn(s, a) == OnlyIn(s, b)
  {
    if s != [] {
      assert s[0] in s;
      OnlyInAgree(s[1..], a, b);
    }
  }

  /** Keeping what was dispatched keeps exactly the registered workers. */
  lemma RetainDispatched(ids: seq<string>, registered: set<string>)
    ensures var dispatched := OnlyIn(ids[..|ids|], registered);
            OnlyIn(ids, (set w | w in dispatched)) == OnlyIn(ids, registered) == dispatched
  {
    assert ids[..|ids|] == ids;
    var dispatched := OnlyIn(ids, registered);
    forall x | x in ids
      ensures x in dispatched <==> x in registered
    {
      InOnlyIn(ids, registered, x);
    }
    OnlyInAgree(ids, (set w | w in dispatched), registered);
  }
}
