/** The built-in planner: from the words of a task to a task graph. */
module Planner {
  import opened Common
  import opened Text
  import opened TaskGraphs

  const MARKETING := ["抖音", "直播", "短视频", "五一", "节日", "营销", "活动", "促销", "投流", "千川", "引流"]
  const SERVICE := ["客服", "售后", "投诉", "退款", "满意度", "nps", "服务"]
  const WEB := ["seo", "关键词", "搜索", "自然流量", "收录", "排名", "标题优化", "独立站"]
  const ENGINEERING := ["代码", "rust", "python", "架构", "接口", "性能", "sla", "故障", "系统", "发布", "回滚", "稳定性", "bug"]
  const DATA := ["详情页", "设计", "预算", "风险", "归因", "漏斗", "数据", "转化率", "指标"]
  const DESIGN := ["详情页", "设计", "页面"]
  const BUDGET := ["预算", "成本", "财务", "风险"]
  const CAMPAIGN := ["转化率", "方案", "运营", "营销", "活动"]
  const OPERATIONS := ["运营", "调整", "方案", "策略"]
  const COPY := ["文案", "脚本", "标题", "内容"]

  const MAX_ATTEMPTS: u8 := 2
  const ACCEPTANCE := ["content must be specific and non-empty"]

  /** A planned node: its id is its role, and its worker is the role's worker. */
  function PlannedNode(role: string, title: string, objective: string, refs: seq<string>): TaskNode {
    TaskNode(role, role, "worker." + role, title, objective, refs, ACCEPTANCE, MAX_ATTEMPTS)
  }

  predicate HasRole(nodes: seq<TaskNode>, role: string) {
    exists n :: n in nodes && n.role == role
  }

  function ServiceNode(task: string): TaskNode {
    PlannedNode("service", "服务方案", "给出客服、售后、投诉、退款或满意度处理方案：" + task, [])
  }

  function WebNode(task: string): TaskNode {
    PlannedNode("web", "Web/SEO方案", "给出 SEO、关键词、收录、标题或自然流量增长方案：" + task, [])
  }

  function EngineeringNode(task: string): TaskNode {
    PlannedNode("engineering", "工程判断", "给出工程分析和实现建议：" + task, [])
  }

  function DataNode(task: string): TaskNode {
    PlannedNode("data", "数据诊断", "分析任务中的数据、指标、归因和约束：" + task, [])
  }

  function DesignNode(): TaskNode {
    PlannedNode("design", "体验设计", "基于上游数据诊断，提出详情页或体验优化方案。", ["data"])
  }

  function BudgetNode(): TaskNode {
    PlannedNode("accounting", "预算评估", "基于上游数据诊断，评估预算、成本和经营风险。", ["data"])
  }

  function CampaignBudgetNode(): TaskNode {
    PlannedNode("accounting", "预算评估", "基于上游数据诊断，评估活动成本、引流SKU、投流预算和经营风险。", ["data"])
  }

  function CampaignNode(): TaskNode {
    PlannedNode("creative", "创意产出", "基于上游数据诊断，产出抖音短视频、直播或活动内容创意。", ["data"])
  }

  function OperationsNode(inputs: seq<string>): TaskNode {
    PlannedNode("ops", "运营方案", "基于上游结果，形成可执行运营调整方案。", inputs)
  }

  function CopyNode(): TaskNode {
    PlannedNode("creative", "创意产出", "基于上游数据诊断，产出内容创意或文案。", ["data"])
  }

  function PositioningNode(task: string): TaskNode {
    PlannedNode("ops", "运营定位", "梳理内容任务目标、受众和运营约束：" + task, [])
  }

  function PositionedCopyNode(): TaskNode {
    PlannedNode("creative", "创意产出", "基于运营定位，产出内容创意或文案。", ["ops"])
  }

  function DirectNode(role: string, task: string): TaskNode {
    PlannedNode(role, "直接回答", task, [])
  }

  function AddWhen(condition: bool, nodes: seq<TaskNode>, n: TaskNode): seq<TaskNode> {
    if condition then nodes + [n] else nodes
  }

  function OperationsInputs(nodes: seq<TaskNode>): seq<string> {
    var inputs :=
      (if HasRole(nodes, "design") then ["design"] else [])
      + (if HasRole(nodes, "accounting") then ["accounting"] else [])
      + (if HasRole(nodes, "creative") then ["creative"] else []);
    if inputs == [] then ["data"] else inputs
  }

  /** The data plan as a function of which of its word groups the text mentions. */
  function DataPlan(task: string, design: bool, budget: bool, campaign: bool, operations: bool,
      copy: bool): seq<TaskNode> {
    var designed := AddWhen(design, [DataNode(task)], DesignNode());
    var budgeted := AddWhen(budget, designed, BudgetNode());
    var funded := AddWhen(campaign && !HasRole(budgeted, "accounting"), budgeted, CampaignBudgetNode());
    var campaigned := AddWhen(campaign, funded, CampaignNode());
    var operated := AddWhen(operations, campaigned, OperationsNode(OperationsInputs(campaigned)));
    AddWhen(copy && !HasRole(operated, "creative"), operated, CopyNode())
  }

  function DataNodes(lower: string, task: string): seq<TaskNode> {
    DataPlan(task, ContainsAny(lower, DESIGN), ContainsAny(lower, BUDGET),
             ContainsAny(lower, MARKETING) && ContainsAny(lower, CAMPAIGN), ContainsAny(lower, OPERATIONS), ContainsAny(lower, COPY))
  }

  /** Whether the words of the text select one of the fixed plans. */
  predicate HasFixedPlan(lower: string) {
    || ContainsAny(lower, SERVICE) || ContainsAny(lower, WEB) || ContainsAny(lower, ENGINEERING)
    || ContainsAny(lower, DATA) || ContainsAny(lower, COPY)
  }

  /** The nodes planned for a task; the routed role matters only when no fixed plan applies. */
  function BuiltinNodes(lower: string, task: string, routed: Option<string>): seq<TaskNode> {
    if ContainsAny(lower, SERVICE) then [ServiceNode(task)]
    else if ContainsAny(lower, WEB) then [WebNode(task)]
    else if ContainsAny(lower, ENGINEERING) then [EngineeringNode(task)]
    else if ContainsAny(lower, DATA) then DataNodes(lower, task)
    else if ContainsAny(lower, COPY) then [PositioningNode(task), PositionedCopyNode()]
    else [DirectNode(routed.GetOr("chat"), task)]
  }

  function BuiltinGraph(taskId: string, lower: string, task: string, routed: Option<string>): TaskGraph {
    TaskGraph("graph-" + taskId, task, BuiltinNodes(lower, task, routed))
  }

  // ---------------------------------------------------------------- the planner as written

  method PlanBuiltin(taskId: string, lower: string, task: string, routed: Option<string>) returns (g: TaskGraph)
    ensures g == BuiltinGraph(taskId, lower, task, routed)
    ensures WellFormed(g) && IsDag(g) && InOrder(g.nodes) && g.nodes != []
  {
    BuiltinInOrder(lower, task, routed);
    BuiltinGraphIsDag(taskId, lower, task, routed);
    hide WellFormed, IsDag, InOrder, ContainsAny, PlannedNode, DataPlan;
    var nodes: seq<TaskNode> := [];
    if ContainsAny(lower, SERVICE) {
      nodes := nodes + [ServiceNode(task)];
    } else if ContainsAny(lower, WEB) {
      nodes := nodes + [WebNode(task)];
    } else if ContainsAny(lower, ENGINEERING) {
      nodes := nodes + [EngineeringNode(task)];
    } else if ContainsAny(lower, DATA) {
      nodes := PushDataNodes(lower, task);
    } else if ContainsAny(lower, COPY) {
      nodes := nodes + [PositioningNode(task)];
      nodes := nodes + [PositionedCopyNode()];
    } else {
      nodes := nodes + [DirectNode(routed.GetOr("chat"), task)];
    }
    g := TaskGraph("graph-" + taskId, task, nodes);
  }

  /** The data branch, pushing one node after the other. */
  method PushDataNodes(lower: string, task: string) returns (nodes: seq<TaskNode>)
    ensures nodes == DataNodes(lower, task)
    ensures InOrder(nodes)
  {
    hide ContainsAny, PlannedNode, OperationsInputs;
    var campaign := ContainsAny(lower, MARKETING) && ContainsAny(lower, CAMPAIGN);
    DataPlanInOrder(task, ContainsAny(lower, DESIGN), ContainsAny(lower, BUDGET), campaign,
                    ContainsAny(lower, OPERATIONS), ContainsAny(lower, COPY));
    hide InOrder, HasRole;
    nodes := [DataNode(task)];
    if ContainsAny(lower, DESIGN) {
      nodes := nodes + [DesignNode()];
    }
    if ContainsAny(lower, BUDGET) {
      nodes := nodes + [BudgetNode()];
    }
    if campaign {
      if !HasRole(nodes, "accounting") {
        nodes := nodes + [CampaignBudgetNode()];
      }
      nodes := nodes + [CampaignNode()];
    }
    if ContainsAny(lower, OPERATIONS) {
      var inputs := PushOperationsInputs(nodes);
      nodes := nodes + [OperationsNode(inputs)];
    }
    if ContainsAny(lower, COPY) && !HasRole(nodes, "creative") {
      nodes := nodes + [CopyNode()];
    }
  }

  /** What the operations node refers to: every listed specialist, or else the data node. */
  method PushOperationsInputs(nodes: seq<TaskNode>) returns (inputs: seq<string>)
    ensures inputs == OperationsInputs(nodes)
    ensures HasRole(nodes, "data") ==> inputs != [] && forall r :: r in inputs ==> HasRole(nodes, r)
  {
    hide HasRole;
    inputs := [];
    if HasRole(nodes, "design") {
      inputs := inputs + ["design"];
    }
    if HasRole(nodes, "accounting") {
      inputs := inputs + ["accounting"];
    }
    if HasRole(nodes, "creative") {
      inputs := inputs + ["creative"];
    }
    if inputs == [] {
      inputs := ["data"];
    }
  }

  // ---------------------------------------------------------------- every plan is a DAG

  /** Ids are unique, every reference points back in the list, and every node may run. */
  ghost predicate InOrder(nodes: seq<TaskNode>) {
    && (forall i, j :: 0 <= i < j < |nodes| ==> nodes[i].id != nodes[j].id)
    && (forall i, r :: 0 <= i < |nodes| && r in nodes[i].inputRefs ==> exists j :: 0 <= j < i && nodes[j].id == r)
    && (forall n :: n in nodes ==> n.id == n.role && n.workerId == "worker." + n.role && n.maxAttempts == MAX_ATTEMPTS)
  }

  predicate Planned(n: TaskNode, role: string, refs: seq<string>) {
    n.id == n.role == role && n.workerId == "worker." + role && n.inputRefs == refs && n.maxAttempts == MAX_ATTEMPTS
  }

  /** Pushing a node of a new role that refers to roles already listed keeps the order. */
  lemma Push(nodes: seq<TaskNode>, n: TaskNode, role: string, refs: seq<string>)
    requires InOrder(nodes) && Planned(n, role, refs) && !HasRole(nodes, role)
    requires forall r :: r in refs ==> HasRole(nodes, r)
    ensures InOrder(nodes + [n]) && forall r :: HasRole(nodes + [n], r) <==> HasRole(nodes, r) || r == role
  {
    var more := nodes + [n];
    assert forall m :: m in more <==> m in nodes || m == n;
    forall i, r | 0 <= i < |more| && r in more[i].inputRefs
      ensures exists j :: 0 <= j < i && more[j].id == r
    {
      if i < |nodes| {
        var j :| 0 <= j < i && nodes[j].id == r;
        assert more[j].id == r;
      } else {
        assert HasRole(nodes, r);
        var m :| m in nodes && m.role == r;
        var j :| 0 <= j < |nodes| && nodes[j] == m;
        assert more[j].id == r;
      }
    }
  }

  lemma PushWhen(condition: bool, nodes: seq<TaskNode>, n: TaskNode, role: string, refs: seq<string>)
    requires InOrder(nodes) && Planned(n, role, refs)
    requires condition ==> !HasRole(nodes, role) && forall r :: r in refs ==> HasRole(nodes, r)
    ensures InOrder(AddWhen(condition, nodes, n))
    ensures forall r :: HasRole(AddWhen(condition, nodes, n), r) <==> HasRole(nodes, r) || (condition && r == role)
  {
    hide InOrder, HasRole, Planned;
    if condition {
      Push(nodes, n, role, refs);
    }
  }

  lemma Single(n: TaskNode, role: string)
    requires Planned(n, role, [])
    ensures InOrder([n]) && forall r :: HasRole([n], r) <==> r == role
  {
    Push([], n, role, []);
    assert [] + [n] == [n];
  }

  lemma RolesDiffer()
    ensures "data" != "design" && "data" != "accounting" && "data" != "creative" && "data" != "ops"
    ensures "design" != "accounting" && "design" != "creative" && "design" != "ops"
    ensures "accounting" != "creative" && "accounting" != "ops" && "creative" != "ops"
  {
    assert "accounting"[0] != "creative"[0];
  }

  lemma NodeShapes(task: string)
    ensures Planned(DataNode(task), "data", []) && Planned(DesignNode(), "design", ["data"])
    ensures Planned(BudgetNode(), "accounting", ["data"]) && Planned(CampaignBudgetNode(), "accounting", ["data"])
    ensures Planned(CampaignNode(), "creative", ["data"]) && Planned(CopyNode(), "creative", ["data"])
  {
  }

  /** The stages up to the campaign: data, then design, budget and campaign nodes as asked for. */
  lemma CampaignInOrder(task: string, design: bool, budget: bool, campaign: bool) returns (budgeted: seq<TaskNode>,
      campaigned: seq<TaskNode>)
    ensures budgeted == AddWhen(budget, AddWhen(design, [DataNode(task)], DesignNode()), BudgetNode())
    ensures campaigned == AddWhen(campaign, AddWhen(campaign && !HasRole(budgeted, "accounting"), budgeted, CampaignBudgetNode()), CampaignNode())
    ensures InOrder(campaigned) && HasRole(campaigned, "data") && !HasRole(campaigned, "ops")
  {
    hide InOrder, HasRole, Planned, AddWhen, DataNode, DesignNode, BudgetNode, CampaignBudgetNode, CampaignNode;
    RolesDiffer();
    NodeShapes(task);
    var data := [DataNode(task)];
    Single(DataNode(task), "data");
    var designed := AddWhen(design, data, DesignNode());
    PushWhen(design, data, DesignNode(), "design", ["data"]);
    budgeted := AddWhen(budget, designed, BudgetNode());
    PushWhen(budget, designed, BudgetNode(), "accounting", ["data"]);
    var funded := AddWhen(campaign && !HasRole(budgeted, "accounting"), budgeted, CampaignBudgetNode());
    PushWhen(campaign && !HasRole(budgeted, "accounting"), budgeted, CampaignBudgetNode(), "accounting", ["data"]);
    campaigned := AddWhen(campaign, funded, CampaignNode());
    PushWhen(campaign, funded, CampaignNode(), "creative", ["data"]);
  }

  lemma DataPlanInOrder(task: string, design: bool, budget: bool, campaign: bool, operations: bool, copy: bool)
    ensures InOrder(DataPlan(task, design, budget, campaign, operations, copy))
  {
    hide InOrder, HasRole, Planned, AddWhen, DataNode, DesignNode, BudgetNode, CampaignBudgetNode, CampaignNode,
        CopyNode, OperationsNode, OperationsInputs;
    NodeShapes(task);
    var budgeted, campaigned := CampaignInOrder(task, design, budget, campaign);
    var inputs := OperationsInputs(campaigned);
    InputsListed(campaigned, inputs);
    var operated := AddWhen(operations, campaigned, OperationsNode(inputs));
    PushWhen(operations, campaigned, OperationsNode(inputs), "ops", inputs);
    PushWhen(copy && !HasRole(operated, "creative"), operated, CopyNode(), "creative", ["data"]);
  }

  lemma InputsListed(nodes: seq<TaskNode>, inputs: seq<string>)
    requires HasRole(nodes, "data") && inputs == OperationsInputs(nodes)
    ensures Planned(OperationsNode(inputs), "ops", inputs) && forall r :: r in inputs ==> HasRole(nodes, r)
  {
  }

  /** The built-in plan of any task text lists unique nodes after everything they refer to. */
  lemma BuiltinInOrder(lower: string, task: string, routed: Option<string>)
    ensures InOrder(BuiltinNodes(lower, task, routed)) && BuiltinNodes(lower, task, routed) != []
  {
    hide ContainsAny, InOrder, HasRole, DataPlan;
    if ContainsAny(lower, SERVICE) {
      Single(ServiceNode(task), "service");
    } else if ContainsAny(lower, WEB) {
      Single(WebNode(task), "web");
    } else if ContainsAny(lower, ENGINEERING) {
      Single(EngineeringNode(task), "engineering");
    } else if ContainsAny(lower, DATA) {
      var design, budget := ContainsAny(lower, DESIGN), ContainsAny(lower, BUDGET);
      var campaign := ContainsAny(lower, MARKETING) && ContainsAny(lower, CAMPAIGN);
      DataPlanInOrder(task, design, budget, campaign, ContainsAny(lower, OPERATIONS), ContainsAny(lower, COPY));
      DataPlanNonempty(task, design, budget, campaign, ContainsAny(lower, OPERATIONS), ContainsAny(lower, COPY));
    } else if ContainsAny(lower, COPY) {
      Single(PositioningNode(task), "ops");
      RolesDiffer();
      Push([PositioningNode(task)], PositionedCopyNode(), "creative", ["ops"]);
      assert [PositioningNode(task)] + [PositionedCopyNode()] == [PositioningNode(task), PositionedCopyNode()];
    } else {
      Single(DirectNode(routed.GetOr("chat"), task), routed.GetOr("chat"));
    }
  }

  lemma DataPlanNonempty(task: string, design: bool, budget: bool, campaign: bool, operations: bool, copy: bool)
    ensures DataPlan(task, design, budget, campaign, operations, copy) != []
  {
    hide HasRole, PlannedNode, OperationsInputs;
  }

  // ---------------------------------------------------------------- the planned graph

  /** Every planned graph is well formed and a DAG. */
  lemma BuiltinGraphIsDag(taskId: string, lower: string, task: string, routed: Option<string>)
    ensures var g := BuiltinGraph(taskId, lower, task, routed);
            && WellFormed(g) && IsDag(g) && g.nodes != []
            && forall n :: n in g.nodes ==> n.workerId == "worker." + n.role
  {
    hide BuiltinNodes;
    BuiltinInOrder(lower, task, routed);
    OrderedIsDag(BuiltinGraph(taskId, lower, task, routed));
  }

  lemma OrderedIsDag(g: TaskGraph)
    requires InOrder(g.nodes)
    ensures WellFormed(g) && IsDag(g)
  {
    forall n, r | n in g.nodes && r in n.inputRefs
      ensures HasNode(g, r)
    {
      var i :| 0 <= i < |g.nodes| && g.nodes[i] == n;
      var j :| 0 <= j < i && g.nodes[j].id == r;
      assert g.nodes[j] in g.nodes;
    }
    var rank: map<string, nat> := map id | id in Ids(g.nodes) :: Position(g.nodes, id);
    forall i | 0 <= i < |g.nodes|
      ensures g.nodes[i].id in rank && rank[g.nodes[i].id] == i
    {
      assert Ids(g.nodes)[i] == g.nodes[i].id;
      PositionOf(g.nodes, i);
    }
    assert IsRank(g, rank);
  }

  function Position(nodes: seq<TaskNode>, id: string): nat {
    if nodes == [] || nodes[0].id == id then 0 else 1 + Position(nodes[1..], id)
  }

  lemma {:induction false} PositionOf(nodes: seq<TaskNode>, i: nat)
    requires i < |nodes| && forall j, k :: 0 <= j < k < |nodes| ==> nodes[j].id != nodes[k].id
    ensures Position(nodes, nodes[i].id) == i
  {
    if i > 0 {
      assert nodes[i] == nodes[1..][i - 1];
      PositionOf(nodes[1..], i - 1);
    }
  }
}
