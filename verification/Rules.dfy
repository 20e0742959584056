/** Configured task-graph rules: validation, and the graph an accepted rule yields. */
module Rules {
  import opened Common
  import opened Text
  import opened TaskGraphs
  import opened CycleCheck

  datatype RuleNode = RuleNode(
    id: string, role: string, title: string, objective: string,
    dependsOn: seq<string>, maxAttempts: u8, acceptance: seq<string>)

  datatype Rule = Rule(id: string, description: string, nodes: seq<RuleNode>)

  datatype RuleError =
    | RuleIdRequired
    | NoNodes
    | NodeWithoutId
    | DuplicateNode(id: string)
    | UnknownRole(id: string, role: string)
    | NoTitle(id: string)
    | NoObjective(id: string)
    | UnknownDependency(id: string, dep: string)
    | SelfDependency(id: string)
    | NoRoot
    | DependencyCycle

  // ---------------------------------------------------------------- what a rule must satisfy

  predicate Described(n: RuleNode, roles: set<string>) {
    !IsBlank(n.id) && n.role in roles && !IsBlank(n.title) && !IsBlank(n.objective)
  }

  predicate HasRuleNode(nodes: seq<RuleNode>, id: string) {
    exists n :: n in nodes && n.id == id
  }

  ghost predicate UniqueRuleIds(nodes: seq<RuleNode>) {
    forall i, j :: 0 <= i < j < |nodes| ==> nodes[i].id != nodes[j].id
  }

  predicate KnownDependencies(rule: Rule, n: RuleNode) {
    forall d :: d in n.dependsOn ==> HasRuleNode(rule.nodes, d)
  }

  predicate HasRoot(rule: Rule) {
    exists n :: n in rule.nodes && n.dependsOn == []
  }

  /** The dependency table: for a repeated id the last node counts, as in a collected hash map. */
  function Dependencies(nodes: seq<RuleNode>): Deps {
    if nodes == [] then map[]
    else Dependencies(nodes[..|nodes| - 1])[nodes[|nodes| - 1].id := nodes[|nodes| - 1].dependsOn]
  }

  /** The rule is well described, its references resolve and its dependencies have no cycle. */
  ghost predicate Acceptable(rule: Rule, roles: set<string>) {
    && !IsBlank(rule.id) && rule.nodes != []
    && (forall n :: n in rule.nodes ==> Described(n, roles) && KnownDependencies(rule, n))
    && UniqueRuleIds(rule.nodes)
    && !HasCycle(Dependencies(rule.nodes))
  }

  /** The error names something that is wrong with the rule. */
  ghost predicate Justified(rule: Rule, roles: set<string>, error: RuleError) {
    match error
    case RuleIdRequired => IsBlank(rule.id)
    case NoNodes => rule.nodes == []
    case NodeWithoutId => exists n :: n in rule.nodes && IsBlank(n.id)
    case DuplicateNode(id) => exists i, j :: 0 <= i < j < |rule.nodes| && rule.nodes[i].id == id == rule.nodes[j].id
    case UnknownRole(id, role) => role !in roles && exists n :: n in rule.nodes && n.id == id && n.role == role
    case NoTitle(id) => exists n :: n in rule.nodes && n.id == id && IsBlank(n.title)
    case NoObjective(id) => exists n :: n in rule.nodes && n.id == id && IsBlank(n.objective)
    case UnknownDependency(id, dep) =>
      !HasRuleNode(rule.nodes, dep) && exists n :: n in rule.nodes && n.id == id && dep in n.dependsOn
    case SelfDependency(id) => exists n :: n in rule.nodes && n.id == id && id in n.dependsOn
    case NoRoot => !HasRoot(rule)
    case DependencyCycle => HasCycle(Dependencies(rule.nodes))
  }

  // ---------------------------------------------------------------- validation

  /** What the first loop finds wrong with one node, a repeated id aside. */
  predicate Flawed(n: RuleNode, roles: set<string>, e: RuleError) {
    match e
    case NodeWithoutId => IsBlank(n.id)
    case UnknownRole(id, role) => id == n.id && role == n.role && role !in roles
    case NoTitle(id) => id == n.id && IsBlank(n.title)
    case NoObjective(id) => id == n.id && IsBlank(n.objective)
    case _ => false
  }

  lemma FlawJustifies(rule: Rule, roles: set<string>, n: RuleNode, e: RuleError)
    requires n in rule.nodes && Flawed(n, roles, e)
    ensures Justified(rule, roles, e) && !Described(n, roles)
  {
    hide IsBlank;
  }

  lemma RepeatJustifies(rule: Rule, roles: set<string>, j: nat, i: nat)
    requires j < i < |rule.nodes| && rule.nodes[j].id == rule.nodes[i].id
    ensures Justified(rule, roles, DuplicateNode(rule.nodes[i].id)) && !UniqueRuleIds(rule.nodes)
  {
  }

  /** The first loop: ids, roles, titles and objectives. */
  method ValidateNodes(rule: Rule, roles: set<string>) returns (r: Result<set<string>, RuleError>)
    ensures r.Ok? <==> UniqueRuleIds(rule.nodes) && forall n :: n in rule.nodes ==> Described(n, roles)
    ensures r.Ok? ==> r.value == set n | n in rule.nodes :: n.id
    ensures r.Err? ==> Justified(rule, roles, r.error)
  {
    hide IsBlank, Justified;
    var nodeIds: set<string> := {};
    for i := 0 to |rule.nodes|
      invariant nodeIds == set j | 0 <= j < i :: rule.nodes[j].id
      invariant forall j, k :: 0 <= j < k < i ==> rule.nodes[j].id != rule.nodes[k].id
      invariant forall j :: 0 <= j < i ==> Described(rule.nodes[j], roles)
    {
      var n := rule.nodes[i];
      assert n in rule.nodes;
      if IsBlank(n.id) {
        FlawJustifies(rule, roles, n, NodeWithoutId);
        return Err(NodeWithoutId);
      }
      if n.id in nodeIds {
        ghost var j :| 0 <= j < i && rule.nodes[j].id == n.id;
        RepeatJustifies(rule, roles, j, i);
        return Err(DuplicateNode(n.id));
      }
      nodeIds := nodeIds + {n.id};
      if n.role !in roles {
        FlawJustifies(rule, roles, n, UnknownRole(n.id, n.role));
        return Err(UnknownRole(n.id, n.role));
      }
      if IsBlank(n.title) {
        FlawJustifies(rule, roles, n, NoTitle(n.id));
        return Err(NoTitle(n.id));
      }
      if IsBlank(n.objective) {
        FlawJustifies(rule, roles, n, NoObjective(n.id));
        return Err(NoObjective(n.id));
      }
    }
    AllIndices(rule.nodes, nodeIds);
    return Ok(nodeIds);
  }

  lemma AllIndices(nodes: seq<RuleNode>, ids: set<string>)
    requires ids == set j | 0 <= j < |nodes| :: nodes[j].id
    ensures ids == set n | n in nodes :: n.id
  {
    forall n | n in nodes
      ensures n.id in ids
    {
      var j :| 0 <= j < |nodes| && nodes[j] == n;
    }
  }

  /** Every dependency of the node is another declared node. */
  predicate DependsOnOthers(nodes: seq<RuleNode>, n: RuleNode) {
    forall d :: d in n.dependsOn ==> HasRuleNode(nodes, d) && d != n.id
  }

  /** The second loop, over all nodes. */
  method ValidateDependencies(rule: Rule, nodeIds: set<string>) returns (r: Option<RuleError>)
    requires nodeIds == set n | n in rule.nodes :: n.id
    ensures r.None? <==> forall n :: n in rule.nodes ==> DependsOnOthers(rule.nodes, n)
    ensures r.Some? ==> (r.value.UnknownDependency? || r.value.SelfDependency?) && Justified(rule, {}, r.value)
  {
    hide DependsOnOthers, Justified;
    for i := 0 to |rule.nodes|
      invariant forall j :: 0 <= j < i ==> DependsOnOthers(rule.nodes, rule.nodes[j])
    {
      var n := rule.nodes[i];
      assert n in rule.nodes;
      r := ValidateNodeDependencies(rule, n, nodeIds);
      if r.Some? {
        return;
      }
    }
    return None;
  }

  /** Its inner loop, over one node's dependencies. */
  method ValidateNodeDependencies(rule: Rule, n: RuleNode, nodeIds: set<string>) returns (r: Option<RuleError>)
    requires n in rule.nodes && nodeIds == set n | n in rule.nodes :: n.id
    ensures r.None? <==> DependsOnOthers(rule.nodes, n)
    ensures r.Some? ==> (r.value.UnknownDependency? || r.value.SelfDependency?) && Justified(rule, {}, r.value)
  {
    for k := 0 to |n.dependsOn|
      invariant forall j :: 0 <= j < k ==> HasRuleNode(rule.nodes, n.dependsOn[j]) && n.dependsOn[j] != n.id
    {
      var d := n.dependsOn[k];
      assert d in n.dependsOn && (d in nodeIds <==> HasRuleNode(rule.nodes, d));
      if d !in nodeIds {
        return Some(UnknownDependency(n.id, d));
      }
      if d == n.id {
        return Some(SelfDependency(n.id));
      }
    }
    return None;
  }

  method ValidateRule(rule: Rule, roles: set<string>) returns (r: Result<(), RuleError>)
    ensures r.Ok? <==> Acceptable(rule, roles)
    ensures r.Err? ==> Justified(rule, roles, r.error)
  {
    hide IsBlank, HasCycle, Dependencies, Described;
    if IsBlank(rule.id) {
      return Err(RuleIdRequired);
    }
    if rule.nodes == [] {
      return Err(NoNodes);
    }
    var nodes := ValidateNodes(rule, roles);
    if nodes.Err? {
      return Err(nodes.error);
    }
    DependencyTable(rule.nodes);
    var dependency := ValidateDependencies(rule, nodes.value);
    if dependency.Some? {
      RejectedDependency(rule, roles, dependency.value);
      return Err(dependency.value);
    }
    if !(exists n :: n in rule.nodes && n.dependsOn == []) {
      RootlessRule(rule);
      return Err(NoRoot);
    }
    var search := new DependencySearch(Dependencies(rule.nodes));
    var ids := seq(|rule.nodes|, i requires 0 <= i < |rule.nodes| => rule.nodes[i].id);
    forall id | id in Dependencies(rule.nodes)
      ensures id in ids
    {
      RuleNodeListed(rule, ids, id);
    }
    var acyclic, done, cycle := search.Search(ids);
    if !acyclic {
      return Err(DependencyCycle);
    }
    return Ok(());
  }

  datatype RuleSetError = InRule(error: RuleError) | DuplicateRule(id: string)

  ghost predicate UniqueRules(rules: seq<Rule>) {
    forall i, j :: 0 <= i < j < |rules| ==> rules[i].id != rules[j].id
  }

  /** A rule set is accepted exactly when every rule is and no id repeats. */
  method ValidateRules(rules: seq<Rule>, roles: set<string>) returns (r: Result<(), RuleSetError>)
    ensures r.Ok? <==> UniqueRules(rules) && forall rule :: rule in rules ==> Acceptable(rule, roles)
  {
    hide Acceptable, Justified;
    var ruleIds: set<string> := {};
    for i := 0 to |rules|
      invariant ruleIds == set j | 0 <= j < i :: rules[j].id
      invariant forall j, k :: 0 <= j < k < i ==> rules[j].id != rules[k].id
      invariant forall j :: 0 <= j < i ==> Acceptable(rules[j], roles)
    {
      var verdict := ValidateRule(rules[i], roles);
      assert rules[i] in rules;
      if verdict.Err? {
        return Err(InRule(verdict.error));
      }
      if rules[i].id in ruleIds {
        return Err(DuplicateRule(rules[i].id));
      }
      ruleIds := ruleIds + {rules[i].id};
    }
    return Ok(());
  }

  // ---------------------------------------------------------------- why the verdict is right

  lemma RuleNodeListed(rule: Rule, ids: seq<string>, id: string)
    requires HasRuleNode(rule.nodes, id) && |ids| == |rule.nodes|
    requires forall i :: 0 <= i < |ids| ==> ids[i] == rule.nodes[i].id
    ensures id in ids
  {
    var n :| n in rule.nodes && n.id == id;
    var i :| 0 <= i < |rule.nodes| && rule.nodes[i] == n;
    assert ids[i] == id;
  }

  lemma {:induction false} TableKeys(nodes: seq<RuleNode>, id: string)
    requires id in Dependencies(nodes)
    ensures HasRuleNode(nodes, id)
  {
    var front, last := nodes[..|nodes| - 1], nodes[|nodes| - 1];
    if id == last.id {
      assert last in nodes;
    } else {
      TableKeys(front, id);
      var n :| n in front && n.id == id;
      assert n in nodes;
    }
  }

  lemma {:induction false} TableEntry(nodes: seq<RuleNode>, i: nat)
    requires UniqueRuleIds(nodes) && i < |nodes|
    ensures nodes[i].id in Dependencies(nodes) && Dependencies(nodes)[nodes[i].id] == nodes[i].dependsOn
  {
    var front := nodes[..|nodes| - 1];
    if i < |front| {
      assert forall j, k :: 0 <= j < k < |front| ==> front[j] == nodes[j] && front[k] == nodes[k];
      TableEntry(front, i);
      assert front[i] == nodes[i];
    }
  }

  lemma DependencyTable(nodes: seq<RuleNode>)
    ensures forall id :: id in Dependencies(nodes) ==> HasRuleNode(nodes, id)
    ensures UniqueRuleIds(nodes) ==> forall n :: n in nodes ==> n.id in Dependencies(nodes) && Dependencies(nodes)[n.id] == n.dependsOn
  {
    hide Dependencies, HasRuleNode;
    forall id | id in Dependencies(nodes)
      ensures HasRuleNode(nodes, id)
    {
      TableKeys(nodes, id);
    }
    forall n | n in nodes && UniqueRuleIds(nodes)
      ensures n.id in Dependencies(nodes) && Dependencies(nodes)[n.id] == n.dependsOn
    {
      var i :| 0 <= i < |nodes| && nodes[i] == n;
      TableEntry(nodes, i);
    }
  }

  lemma RejectedDependency(rule: Rule, roles: set<string>, error: RuleError)
    requires UniqueRuleIds(rule.nodes)
    requires (error.UnknownDependency? || error.SelfDependency?) && Justified(rule, {}, error)
    ensures Justified(rule, roles, error) && !Acceptable(rule, roles)
  {
    DependencyTable(rule.nodes);
    if error.SelfDependency? {
      assert IsCycle(Dependencies(rule.nodes), [error.id, error.id]);
    }
  }

  /** A rule without a root has a cycle, so the root check never decides a verdict. */
  lemma RootlessRule(rule: Rule)
    requires rule.nodes != [] && UniqueRuleIds(rule.nodes) && !HasRoot(rule)
    requires forall n :: n in rule.nodes ==> KnownDependencies(rule, n)
    ensures HasCycle(Dependencies(rule.nodes))
  {
    DependencyTable(rule.nodes);
    var all := set n | n in rule.nodes :: n.id;
    forall id | id in all
      ensures DependsWithin(Dependencies(rule.nodes), all, id)
    {
      var n :| n in rule.nodes && n.id == id;
      RootlessNode(rule, all, n);
    }
    assert rule.nodes[0].id in all;
    hide DependsWithin;
    RootlessHasCycle(Dependencies(rule.nodes), all);
  }

  lemma RootlessNode(rule: Rule, all: set<string>, n: RuleNode)
    requires n in rule.nodes && KnownDependencies(rule, n) && n.dependsOn != []
    requires all == set m | m in rule.nodes :: m.id
    requires n.id in Dependencies(rule.nodes) && Dependencies(rule.nodes)[n.id] == n.dependsOn
    ensures DependsWithin(Dependencies(rule.nodes), all, n.id)
  {
    var d := n.dependsOn[0];
    assert d in n.dependsOn;
    var m :| m in rule.nodes && m.id == d;
    assert d in all && d in DepsOf(Dependencies(rule.nodes), n.id);
  }

  // ---------------------------------------------------------------- the configured graph

  function Render(template: string, task: string, rule: Rule): string {
    Replace(Replace(Replace(template, "{{task}}", task), "{{rule_id}}", rule.id), "{{rule_description}}", rule.description)
  }

  const DEFAULT_ACCEPTANCE := ["content must be specific and non-empty"]

  function ConfiguredNode(task: string, rule: Rule, n: RuleNode): TaskNode {
    TaskNode(n.id, n.role, "worker." + n.role, n.title, Render(n.objective, task, rule), n.dependsOn,
             if n.acceptance == [] then DEFAULT_ACCEPTANCE else n.acceptance,
             if n.maxAttempts < 1 then 1 else n.maxAttempts)
  }

  function BuildConfigured(taskId: string, task: string, rule: Rule): TaskGraph {
    TaskGraph("graph-" + taskId, task,
              seq(|rule.nodes|, i requires 0 <= i < |rule.nodes| => ConfiguredNode(task, rule, rule.nodes[i])))
  }

  /** The node does what the rule's node asks for; the rendered objective is the subject of `Templates.RenderFills`. */
  predicate AsConfigured(task: string, rule: Rule, m: RuleNode, n: TaskNode) {
    && n.id == m.id && n.role == m.role && n.title == m.title && n.workerId == "worker." + m.role
    && n.inputRefs == m.dependsOn
    && n.objective == Render(m.objective, task, rule)
    && 1 <= n.maxAttempts && (1 <= m.maxAttempts ==> n.maxAttempts == m.maxAttempts)
    && (m.acceptance != [] ==> n.acceptance == m.acceptance)
    && (m.acceptance == [] ==> n.acceptance == ["content must be specific and non-empty"])
  }

  /** An accepted rule yields, node by node, what it asks for: a well-formed DAG over the workers of the roles it was checked against. */
  lemma AcceptedRuleGraph(taskId: string, task: string, rule: Rule, roles: set<string>)
    requires Acceptable(rule, roles)
    ensures var g := BuildConfigured(taskId, task, rule);
            && WellFormed(g) && IsDag(g) && |g.nodes| == |rule.nodes| > 0
            && (forall n :: n in g.nodes ==> n.role in roles && n.workerId == "worker." + n.role)
            && g.graphId == "graph-" + taskId && g.rootTask == task
            && forall i :: 0 <= i < |rule.nodes| ==> AsConfigured(task, rule, rule.nodes[i], g.nodes[i])
  {
    hide Render, IsBlank, HasCycle, RefsResolve, IsDag, KnownDependencies;
    var g := BuildConfigured(taskId, task, rule);
    assert forall i :: 0 <= i < |g.nodes| ==> g.nodes[i] == ConfiguredNode(task, rule, rule.nodes[i]) && rule.nodes[i] in rule.nodes;
    ConfiguredRefs(taskId, task, rule);
    RankFromOrder(taskId, task, rule);
  }

  lemma ConfiguredRefs(taskId: string, task: string, rule: Rule)
    requires forall n :: n in rule.nodes ==> KnownDependencies(rule, n)
    ensures RefsResolve(BuildConfigured(taskId, task, rule))
  {
    hide Render;
    var g := BuildConfigured(taskId, task, rule);
    forall n, r | n in g.nodes && r in n.inputRefs
      ensures HasNode(g, r)
    {
      var i :| 0 <= i < |g.nodes| && g.nodes[i] == n;
      assert rule.nodes[i] in rule.nodes;
      assert HasRuleNode(rule.nodes, r);
      var m :| m in rule.nodes && m.id == r;
      var j :| 0 <= j < |rule.nodes| && rule.nodes[j] == m;
      assert g.nodes[j].id == r;
    }
  }

  lemma RankFromOrder(taskId: string, task: string, rule: Rule)
    requires UniqueRuleIds(rule.nodes) && !HasCycle(Dependencies(rule.nodes))
    requires forall n :: n in rule.nodes ==> KnownDependencies(rule, n)
    ensures IsDag(BuildConfigured(taskId, task, rule))
  {
    hide Render, HasCycle;
    var g, deps := BuildConfigured(taskId, task, rule), Dependencies(rule.nodes);
    DependencyTable(rule.nodes);
    var ids := set n | n in rule.nodes :: n.id;
    forall id, d | id in ids && d in DepsOf(deps, id)
      ensures d in ids
    {
      var n :| n in rule.nodes && n.id == id;
    }
    var order := AcyclicHasOrder(deps, ids, []);
    var rank: map<string, nat> := map id | id in order :: IndexOf(order, id);
    forall n | n in g.nodes
      ensures n.id in rank
      ensures forall r :: r in n.inputRefs ==> r in rank && rank[r] < rank[n.id]
    {
      var i :| 0 <= i < |g.nodes| && g.nodes[i] == n;
      assert rule.nodes[i] in rule.nodes && n.inputRefs == DepsOf(deps, n.id);
      forall r | r in n.inputRefs
        ensures r in rank && rank[r] < rank[n.id]
      {
        EarlierIndex(deps, order, n.id, r);
      }
    }
    assert IsRank(g, rank);
  }

  lemma {:induction false} FirstIsLeast(order: seq<string>, id: string, j: nat)
    requires j < |order| && order[j] == id
    ensures IndexOf(order, id) <= j
  {
    if order[0] != id {
      FirstIsLeast(order[1..], id, j - 1);
    }
  }

  lemma EarlierIndex(deps: Deps, order: seq<string>, id: string, d: string)
    requires Topological(deps, order) && id in order && d in DepsOf(deps, id)
    ensures d in order && IndexOf(order, d) < IndexOf(order, id)
  {
    var i := IndexOf(order, id);
    assert d in order[..i];
    var j :| 0 <= j < i && order[j] == d;
    FirstIsLeast(order, d, j);
  }
}
