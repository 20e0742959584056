/** Which words of a task yield which nodes of its built-in plan, and what these refer to. */
module PlanWords {
  import opened Common
  import opened Text
  import opened TaskGraphs
  import opened Planner

  /** A node of the role is listed exactly on the condition, and refers to the given nodes. */
  ghost predicate Listed(nodes: seq<TaskNode>, role: string, condition: bool, refs: seq<string>) {
    && (HasRole(nodes, role) <==> condition)
    && forall n :: n in nodes && n.role == role ==> n.id == role && n.inputRefs == refs
  }

  /** A node that waits for nothing is told the task itself. */
  ghost predicate ToldTask(nodes: seq<TaskNode>, task: string) {
    forall n :: n in nodes && n.inputRefs == [] ==> Occurs(n.objective, task)
  }

  ghost predicate OnlyRoles(nodes: seq<TaskNode>, roles: set<string>) {
    forall n :: n in nodes ==> n.role in roles
  }

  /** The specialists before the operations node, or else the data node. A copy node comes after it. */
  function OperationsRefs(design: bool, accounting: bool, campaign: bool): seq<string> {
    if !design && !accounting && !campaign then ["data"]
    else (if design then ["design"] else []) + (if accounting then ["accounting"] else []) + (if campaign then ["creative"] else [])
  }

  ghost predicate DataTable(nodes: seq<TaskNode>, design: bool, budget: bool, campaign: bool, operations: bool, copy: bool) {
    && OnlyRoles(nodes, {"data", "design", "accounting", "creative", "ops"})
    && Listed(nodes, "data", true, [])
    && Listed(nodes, "design", design, ["data"])
    && Listed(nodes, "accounting", budget || campaign, ["data"])
    && Listed(nodes, "creative", campaign || copy, ["data"])
    && Listed(nodes, "ops", operations, OperationsRefs(design, budget || campaign, campaign))
  }

  lemma ListedMore(nodes: seq<TaskNode>, when: bool, n: TaskNode, role: string, condition: bool, refs: seq<string>)
    requires Listed(nodes, role, condition, refs) && (n.role == role ==> n.id == role && n.inputRefs == refs)
    ensures Listed(AddWhen(when, nodes, n), role, condition || (when && n.role == role), refs)
  {
    assert forall m :: m in nodes + [n] <==> m in nodes || m == n;
  }

  /** What is known of a growing data plan. */
  ghost predicate Stage(nodes: seq<TaskNode>, task: string, design: bool, accounting: bool, creative: bool) {
    && OnlyRoles(nodes, {"data", "design", "accounting", "creative"}) && ToldTask(nodes, task)
    && Listed(nodes, "data", true, []) && Listed(nodes, "design", design, ["data"])
    && Listed(nodes, "accounting", accounting, ["data"]) && Listed(nodes, "creative", creative, ["data"])
  }

  lemma StageMore(nodes: seq<TaskNode>, when: bool, n: TaskNode, task: string, design: bool, accounting: bool, creative: bool)
    requires Stage(nodes, task, design, accounting, creative)
    requires n.role in {"design", "accounting", "creative"} && n.id == n.role && n.inputRefs == ["data"]
    ensures Stage(AddWhen(when, nodes, n), task, design || (when && n.role == "design"),
                  accounting || (when && n.role == "accounting"), creative || (when && n.role == "creative"))
  {
    hide Listed, Occurs;
    RolesDiffer();
    ListedMore(nodes, when, n, "data", true, []);
    ListedMore(nodes, when, n, "design", design, ["data"]);
    ListedMore(nodes, when, n, "accounting", accounting, ["data"]);
    ListedMore(nodes, when, n, "creative", creative, ["data"]);
    assert forall m :: m in nodes + [n] <==> m in nodes || m == n;
  }

  lemma OccursLast(before: string, task: string)
    ensures Occurs(before + task, task)
  {
    assert (before + task)[|before|..] == task;
  }

  lemma StageStart(task: string)
    ensures Stage([DataNode(task)], task, false, false, false)
  {
    RolesDiffer();
    OccursLast("分析任务中的数据、指标、归因和约束：", task);
    assert DataNode(task) in [DataNode(task)];
  }

  lemma HasRoleOf(nodes: seq<TaskNode>, role: string, condition: bool, refs: seq<string>)
    requires Listed(nodes, role, condition, refs)
    ensures HasRole(nodes, role) <==> condition
  {
  }

  lemma DataStages(task: string, design: bool, budget: bool, campaign: bool) returns (campaigned: seq<TaskNode>)
    ensures Stage(campaigned, task, design, budget || campaign, campaign)
    ensures forall operations, copy :: DataPlan(task, design, budget, campaign, operations, copy)
              == var operated := AddWhen(operations, campaigned, OperationsNode(OperationsInputs(campaigned)));
                 AddWhen(copy && !HasRole(operated, "creative"), operated, CopyNode())
  {
    hide Listed, AddWhen, HasRole, ToldTask, OnlyRoles, OperationsInputs, DataNode;
    RolesDiffer();
    var data := [DataNode(task)];
    StageStart(task);
    var designed := AddWhen(design, data, DesignNode());
    StageMore(data, design, DesignNode(), task, false, false, false);
    var budgeted := AddWhen(budget, designed, BudgetNode());
    StageMore(designed, budget, BudgetNode(), task, design, false, false);
    HasRoleOf(budgeted, "accounting", budget, ["data"]);
    var funded := AddWhen(campaign && !HasRole(budgeted, "accounting"), budgeted, CampaignBudgetNode());
    StageMore(budgeted, campaign && !HasRole(budgeted, "accounting"), CampaignBudgetNode(), task, design, budget, false);
    campaigned := AddWhen(campaign, funded, CampaignNode());
    StageMore(funded, campaign, CampaignNode(), task, design, budget || campaign, false);
  }

  lemma StageInputs(nodes: seq<TaskNode>, task: string, design: bool, accounting: bool, creative: bool)
    requires Stage(nodes, task, design, accounting, creative)
    ensures OperationsInputs(nodes) == OperationsRefs(design, accounting, creative) != []
    ensures HasRole(nodes, "creative") <==> creative
  {
    hide HasRole, ToldTask, OnlyRoles;
  }

  /** The last two steps of a data plan. */
  lemma TableOfStage(nodes: seq<TaskNode>, task: string, design: bool, budget: bool, campaign: bool, operations: bool, copy: bool)
    requires Stage(nodes, task, design, budget || campaign, campaign)
    ensures var operated := AddWhen(operations, nodes, OperationsNode(OperationsInputs(nodes)));
            var all := AddWhen(copy && !HasRole(operated, "creative"), operated, CopyNode());
            DataTable(all, design, budget, campaign, operations, copy) && ToldTask(all, task)
  {
    hide Listed, HasRole, Occurs, OperationsInputs;
    RolesDiffer();
    StageInputs(nodes, task, design, budget || campaign, campaign);
    var refs := OperationsRefs(design, budget || campaign, campaign);
    var ops := OperationsNode(OperationsInputs(nodes));
    var operated := AddWhen(operations, nodes, ops);
    NotYet(nodes, task, design, budget || campaign, campaign, refs);
    ListedMore(nodes, operations, ops, "data", true, []);
    ListedMore(nodes, operations, ops, "design", design, ["data"]);
    ListedMore(nodes, operations, ops, "accounting", budget || campaign, ["data"]);
    ListedMore(nodes, operations, ops, "creative", campaign, ["data"]);
    ListedMore(nodes, operations, ops, "ops", false, refs);
    HasRoleOf(operated, "creative", campaign, ["data"]);
    var when, written := copy && !HasRole(operated, "creative"), CopyNode();
    ListedMore(operated, when, written, "data", true, []);
    ListedMore(operated, when, written, "design", design, ["data"]);
    ListedMore(operated, when, written, "accounting", budget || campaign, ["data"]);
    ListedMore(operated, when, written, "creative", campaign, ["data"]);
    ListedMore(operated, when, written, "ops", operations, refs);
    PushedRest(nodes, task, operations, ops, when, written);
  }

  lemma NotYet(nodes: seq<TaskNode>, task: string, design: bool, accounting: bool, creative: bool, refs: seq<string>)
    requires Stage(nodes, task, design, accounting, creative)
    ensures Listed(nodes, "ops", false, refs)
  {
    RolesDiffer();
  }

  lemma PushedRest(nodes: seq<TaskNode>, task: string, a: bool, m: TaskNode, b: bool, n: TaskNode)
    requires OnlyRoles(nodes, {"data", "design", "accounting", "creative"}) && ToldTask(nodes, task)
    requires m.role == "ops" && m.inputRefs != [] && n.role == "creative" && n.inputRefs != []
    ensures var all := AddWhen(b, AddWhen(a, nodes, m), n);
            OnlyRoles(all, {"data", "design", "accounting", "creative", "ops"}) && ToldTask(all, task)
  {
    hide Occurs;
    var all := AddWhen(b, AddWhen(a, nodes, m), n);
    assert forall x :: x in all ==> x in nodes || x == m || x == n;
  }

  lemma DataPlanByWords(task: string, design: bool, budget: bool, campaign: bool, operations: bool, copy: bool)
    ensures var nodes := DataPlan(task, design, budget, campaign, operations, copy);
            DataTable(nodes, design, budget, campaign, operations, copy) && ToldTask(nodes, task)
  {
    hide DataTable, Stage, DataPlan, ToldTask, HasRole, OperationsInputs;
    var campaigned := DataStages(task, design, budget, campaign);
    TableOfStage(campaigned, task, design, budget, campaign, operations, copy);
  }

  /** The plan is one node of the role, which refers to nothing. */
  ghost predicate Alone(nodes: seq<TaskNode>, role: string) {
    |nodes| == 1 && nodes[0].role == nodes[0].id == role && nodes[0].inputRefs == []
  }

  ghost predicate Mentions(lower: string, words: seq<string>) {
    exists i :: 0 <= i < |words| && Occurs(lower, words[i])
  }

  lemma MentionsExactly(lower: string, words: seq<string>)
    ensures ContainsAny(lower, words) <==> Mentions(lower, words)
  {
    hide Contains, Occurs;
    forall i | 0 <= i < |words|
      ensures Contains(lower, words[i]) <==> Occurs(lower, words[i])
    {
      ContainsExactly(lower, words[i]);
    }
  }

  /**
   * The words decide in this order: service, web and engineering words give one node each; data words give a
   * data node with the specialists that further words ask for; copy words alone give operations and copy;
   * without any of them the routed role answers, or else `chat`.
   */
  lemma BuiltinByWords(lower: string, task: string, routed: Option<string>)
    ensures var nodes := BuiltinNodes(lower, task, routed);
            && ToldTask(nodes, task)
            && if Mentions(lower, SERVICE) then Alone(nodes, "service")
               else if Mentions(lower, WEB) then Alone(nodes, "web")
               else if Mentions(lower, ENGINEERING) then Alone(nodes, "engineering")
               else if Mentions(lower, DATA) then
                 DataTable(nodes, Mentions(lower, DESIGN), Mentions(lower, BUDGET), Mentions(lower, MARKETING) && Mentions(lower, CAMPAIGN),
                           Mentions(lower, OPERATIONS), Mentions(lower, COPY))
               else if Mentions(lower, COPY) then
                 OnlyRoles(nodes, {"ops", "creative"}) && Listed(nodes, "ops", true, []) && Listed(nodes, "creative", true, ["ops"])
               else Alone(nodes, routed.GetOr("chat"))
  {
    hide ContainsAny, Mentions, DataTable, DataPlan;
    forall words
      ensures ContainsAny(lower, words) <==> Mentions(lower, words)
    {
      MentionsExactly(lower, words);
    }
    if Mentions(lower, SERVICE) {
      OccursLast("给出客服、售后、投诉、退款或满意度处理方案：", task);
    } else if Mentions(lower, WEB) {
      OccursLast("给出 SEO、关键词、收录、标题或自然流量增长方案：", task);
    } else if Mentions(lower, ENGINEERING) {
      OccursLast("给出工程分析和实现建议：", task);
    } else if Mentions(lower, DATA) {
      DataPlanByWords(task, Mentions(lower, DESIGN), Mentions(lower, BUDGET), Mentions(lower, MARKETING) && Mentions(lower, CAMPAIGN),
                      Mentions(lower, OPERATIONS), Mentions(lower, COPY));
    } else if Mentions(lower, COPY) {
      CopyPlan(task);
    } else {
      OccursLast("", task);
      assert "" + task == task;
    }
  }

  lemma CopyPlan(task: string)
    ensures var nodes := [PositioningNode(task), PositionedCopyNode()];
            && OnlyRoles(nodes, {"ops", "creative"}) && ToldTask(nodes, task)
            && Listed(nodes, "ops", true, []) && Listed(nodes, "creative", true, ["ops"])
  {
    RolesDiffer();
    OccursLast("梳理内容任务目标、受众和运营约束：", task);
    var nodes := [PositioningNode(task), PositionedCopyNode()];
    assert PositioningNode(task) in nodes && PositionedCopyNode() in nodes;
  }
}
