/** Every worker that the commander will need is started, and so the session's run comes to its end. */
module Coverage {
  import opened Common
  import opened Text
  import opened TaskGraphs
  import opened Roles
  import opened Router
  import opened Rules
  import opened Planner
  import opened TaskCommander
  import opened TaskPlanning
  import opened Preselection
  import opened Agreement
  import P = Protocol
  import EndToEnd
  import Runs

  predicate InCatalog(catalog: seq<Role>, g: TaskGraph) {
    forall n :: n in g.nodes ==> HasRuntime(catalog, n.role)
  }

  predicate NamedWorkers(g: TaskGraph) {
    forall n :: n in g.nodes ==> n.workerId == "worker." + n.role
  }

  lemma SameSuffix(a: string, b: string)
    ensures "worker." + a == "worker." + b <==> a == b
  {
    assert ("worker." + a)[7..] == a && ("worker." + b)[7..] == b;
  }

  lemma WorkerRegistered(roles: seq<Role>, name: string)
    ensures "worker." + name in WorkersOf(roles) <==> HasRuntime(roles, name)
  {
    forall i | 0 <= i < |roles|
      ensures "worker." + name == "worker." + roles[i].runtimeRole <==> name == roles[i].runtimeRole
    {
      SameSuffix(name, roles[i].runtimeRole);
    }
  }

  lemma {:induction false} RoleListed(nodes: seq<TaskNode>, n: TaskNode)
    requires n in nodes
    ensures n.role in RolesOf(nodes)
  {
    if n != nodes[0] {
      RoleListed(nodes[1..], n);
    }
  }

  lemma PlanNamesWorkers(
    rules: seq<Rule>, applies: Rule -> bool, lower: string -> string, taskId: string, task: string, routed: Option<string>)
    ensures NamedWorkers(PlanTaskGraph(rules, applies, lower, taskId, task, routed))
  {
    hide BuiltinNodes, WellFormed, IsDag;
    BuiltinGraphIsDag(taskId, lower(task), task, routed);
  }

  /** A wanted name is served by the selection exactly when the catalog has a role for it. */
  lemma WantedServed(catalog: seq<Role>, names: seq<string>, name: string)
    requires catalog != [] && name in names
    ensures var picked := Pick(catalog, names);
            HasRuntime(if picked == [] then [catalog[0]] else picked, name) <==> HasRuntime(catalog, name)
  {
    PickedHas(catalog, names, name);
    assert HasRuntime([catalog[0]], name) ==> HasRuntime(catalog, name);
  }

  lemma PlannedServed(
    catalog: seq<Role>, rules: seq<Rule>, applies: Rule -> bool, lower: string -> string, task: string, n: TaskNode)
    requires catalog != []
    requires n in PlanTaskGraph(rules, applies, lower, "preselect", task,
                                Some(Route(catalog, TaskInput(task), lower).primaryRuntimeRole)).nodes
    ensures HasRuntime(Selected(catalog, rules, applies, lower, true, task), n.role) <==> HasRuntime(catalog, n.role)
  {
    hide Route, Pick, PlanTaskGraph, HasRuntime;
    var route := Route(catalog, TaskInput(task), lower);
    var planned := PlannedRoles(rules, applies, lower, true, task, route);
    RoleListed(PlanTaskGraph(rules, applies, lower, "preselect", task, Some(route.primaryRuntimeRole)).nodes, n);
    WantedServed(catalog, Wanted(planned, route), n.role);
  }

  /**
   * Preselection coverage: over the selected workers the commander accepts its own plan exactly when
   * every planned role is in the catalog that the session selected from.
   */
  lemma PreselectionCovers(
    catalog: seq<Role>, rules: seq<Rule>, applies: Rule -> bool, lower: string -> string, taskId: string, task: string)
    requires catalog != [] && UniqueRoles(catalog)
    ensures
      var selected := Selected(catalog, rules, applies, lower, true, task);
      && selected != []
      && var g := CommanderGraph(selected, rules, applies, lower, taskId, task);
         AllRegistered(g, WorkersOf(selected)) <==> InCatalog(catalog, g)
  {
    hide Route, PlanTaskGraph, Selected, HasRuntime, UniqueRoles, WorkersOf;
    SameNodes(catalog, rules, applies, lower, taskId, task);
    var selected := Selected(catalog, rules, applies, lower, true, task);
    var g := CommanderGraph(selected, rules, applies, lower, taskId, task);
    PlanNamesWorkers(rules, applies, lower, taskId, task, Some(Route(selected, TaskInput(task), lower).primaryRuntimeRole));
    forall n | n in g.nodes
      ensures n.workerId in WorkersOf(selected) <==> HasRuntime(catalog, n.role)
    {
      PlannedServed(catalog, rules, applies, lower, task, n);
      WorkerRegistered(selected, n.role);
    }
  }

  // ---------------------------------------------------------------- whole sessions

  lemma {:induction false} MatchIsRule(rules: seq<Rule>, applies: Rule -> bool)
    ensures FirstMatch(rules, applies).Some? ==> FirstMatch(rules, applies).value in rules
  {
    if rules != [] {
      MatchIsRule(rules[1..], applies);
    }
  }

  /** The runtime roles against which configured rules are validated. */
  function RuntimeRoles(catalog: seq<Role>): set<string> {
    set i | 0 <= i < |catalog| :: catalog[i].runtimeRole
  }

  lemma PlansAreDags(
    rules: seq<Rule>, applies: Rule -> bool, lower: string -> string, taskId: string, task: string, routed: Option<string>,
    roles: set<string>)
    requires forall rule :: rule in rules ==> Acceptable(rule, roles)
    ensures var g := PlanTaskGraph(rules, applies, lower, taskId, task, routed);
            WellFormed(g) && IsDag(g) && g.nodes != []
  {
    hide BuiltinNodes, WellFormed, IsDag, Acceptable, BuildConfigured;
    MatchIsRule(rules, applies);
    match FirstMatch(rules, applies)
    case Some(rule) => AcceptedRuleGraph(taskId, task, rule, roles);
    case None => BuiltinGraphIsDag(taskId, lower(task), task, routed);
  }

  lemma RouteInCatalog(catalog: seq<Role>, task: string, lower: string -> string)
    requires catalog != [] && UniqueRoles(catalog)
    ensures HasRuntime(catalog, Route(catalog, TaskInput(task), lower).primaryRuntimeRole)
  {
    hide Route, Head;
    HeadNames(catalog, TaskInput(task), lower);
    HeadUnique(catalog, TaskInput(task), lower);
    assert Head(catalog, TaskInput(task), lower)[0] in catalog;
  }

  /** Only a fixed built-in plan can ask for a role that the catalog does not have. */
  lemma PlannedInCatalog(
    catalog: seq<Role>, rules: seq<Rule>, applies: Rule -> bool, lower: string -> string, taskId: string, task: string)
    requires catalog != [] && UniqueRoles(catalog)
    requires forall rule :: rule in rules ==> Acceptable(rule, RuntimeRoles(catalog))
    requires FirstMatch(rules, applies).Some? || !HasFixedPlan(lower(task))
    ensures
      var selected := Selected(catalog, rules, applies, lower, true, task);
      selected != [] && InCatalog(catalog, CommanderGraph(selected, rules, applies, lower, taskId, task))
  {
    hide Route, Selected, HasFixedPlan, UniqueRoles, Acceptable, BuildConfigured, WellFormed, IsDag;
    SelectedNonempty(catalog, rules, applies, lower, true, task);
    if FirstMatch(rules, applies).Some? {
      MatchIsRule(rules, applies);
      AcceptedRuleGraph(taskId, task, FirstMatch(rules, applies).value, RuntimeRoles(catalog));
    } else {
      hide PlanTaskGraph;
      SamePrimary(catalog, rules, applies, lower, task);
      RouteInCatalog(catalog, task, lower);
      DirectPlan(rules, applies, lower, taskId, task, Route(catalog, TaskInput(task), lower).primaryRuntimeRole);
    }
  }

  // ---------------------------------------------------------------- when the commander starts the graph

  /** What the commander of a session over the selected roles starts for the text. */
  function SessionGraph(
    selected: seq<Role>, rules: seq<Rule>, applies: Rule -> bool, lower: string -> string, taskId: string, task: string,
    minScore: real): Option<TaskGraph>
    requires selected != []
  {
    StartedGraph(Some(CommanderTask(taskId, task)), Some(Route(selected, TaskInput(task), lower)), minScore,
                 WorkersOf(selected), rules, applies, lower)
  }

  /** The guard that the selection has to pass: its best score meets the minimum. */
  predicate ScoresEnough(roles: seq<Role>, task: string, lower: string -> string, minScore: real)
    requires roles != []
  {
    (PrimaryScore(Route(roles, TaskInput(task), lower)) as real) / 2.0 >= minScore
  }

  /** The commander starts its plan exactly when the selection scores enough and the catalog has every planned role. */
  lemma SessionStarts(
    catalog: seq<Role>, rules: seq<Rule>, applies: Rule -> bool, lower: string -> string, taskId: string, task: string,
    minScore: real)
    requires catalog != [] && UniqueRoles(catalog)
    ensures
      var selected := Selected(catalog, rules, applies, lower, true, task);
      && selected != []
      && var g := CommanderGraph(selected, rules, applies, lower, taskId, task);
         SessionGraph(selected, rules, applies, lower, taskId, task, minScore)
         == if ScoresEnough(selected, task, lower, minScore) && InCatalog(catalog, g) then Some(g) else None
  {
    hide Route, PlanTaskGraph, Selected, WorkersOf, AllRegistered, InCatalog, PrimaryScore;
    PreselectionCovers(catalog, rules, applies, lower, taskId, task);
  }

  lemma {:induction false} PickedFromCatalog(catalog: seq<Role>, names: seq<string>)
    ensures forall r :: r in Pick(catalog, names) ==> r in catalog
    decreases |names|
  {
    if names != [] {
      PickedFromCatalog(catalog, names[..|names| - 1]);
    }
  }

  lemma {:induction false} PickedUnique(catalog: seq<Role>, names: seq<string>)
    requires UniqueRoles(catalog)
    ensures UniqueRoles(Pick(catalog, names))
    decreases |names|
  {
    hide FindRuntime;
    if names != [] {
      var picked, name := Pick(catalog, names[..|names| - 1]), names[|names| - 1];
      PickedUnique(catalog, names[..|names| - 1]);
      PickedFromCatalog(catalog, names[..|names| - 1]);
      if !HasRuntime(picked, name) && FindRuntime(catalog, name).Some? {
        AppendUnique(catalog, picked, FindRuntime(catalog, name).value);
      }
    }
  }

  lemma AppendUnique(catalog: seq<Role>, picked: seq<Role>, r: Role)
    requires UniqueRoles(catalog) && UniqueRoles(picked) && r in catalog && !HasRuntime(picked, r.runtimeRole)
    requires forall x :: x in picked ==> x in catalog
    ensures UniqueRoles(picked + [r])
  {
    forall i | 0 <= i < |picked|
      ensures picked[i].id != r.id && picked[i].runtimeRole != r.runtimeRole
    {
      assert picked[i] in catalog && picked[i].runtimeRole != r.runtimeRole;
      if picked[i].id == r.id {
        SameIdSameRole(catalog, picked[i], r);
      }
    }
  }

  lemma SameIdSameRole(catalog: seq<Role>, a: Role, b: Role)
    requires UniqueRoles(catalog) && a in catalog && b in catalog && a.id == b.id
    ensures a == b
  {
  }

  lemma SelectedParts(
    catalog: seq<Role>, rules: seq<Rule>, applies: Rule -> bool, lower: string -> string, fastRoute: bool, task: string)
    requires catalog != [] && UniqueRoles(catalog)
    ensures var selected := Selected(catalog, rules, applies, lower, fastRoute, task);
            selected != [] && UniqueRoles(selected) && forall r :: r in selected ==> r in catalog
  {
    hide Route, Pick, PlanTaskGraph;
    var route := Route(catalog, TaskInput(task), lower);
    var names := Wanted(PlannedRoles(rules, applies, lower, fastRoute, task, route), route);
    PickedFromCatalog(catalog, names);
    PickedUnique(catalog, names);
  }

  /** The best score of the selection is never above that of the catalog, and equals it for an unplanned text. */
  lemma SelectionScore(
    catalog: seq<Role>, rules: seq<Rule>, applies: Rule -> bool, lower: string -> string, task: string)
    requires catalog != [] && UniqueRoles(catalog)
    ensures
      var selected := Selected(catalog, rules, applies, lower, true, task);
      && selected != []
      && var reduced, full := PrimaryScore(Route(selected, TaskInput(task), lower)), PrimaryScore(Route(catalog, TaskInput(task), lower));
         && reduced <= full
         && (reduced == full <==> exists r :: r in selected && ScoreRole(r, TaskInput(task), lower).score == full)
         && (FirstMatch(rules, applies).None? && !HasFixedPlan(lower(task)) ==> reduced == full)
  {
    var input := TaskInput(task);
    var selected := Selected(catalog, rules, applies, lower, true, task);
    SelectedParts(catalog, rules, applies, lower, true, task);
    UniqueParts(catalog);
    UniqueParts(selected);
    hide Selected, Route, PrimaryScore, ScoreRole, HasFixedPlan, UniqueRoles, UniqueRoleIds;
    PrimaryScoreIsBest(catalog, input, lower);
    PrimaryScoreIsBest(selected, input, lower);
    if FirstMatch(rules, applies).None? && !HasFixedPlan(lower(task)) {
      var r := BestSelected(catalog, rules, applies, lower, task);
    }
  }

  /** For an unplanned text the selection holds a role of the catalog's best score. */
  lemma BestSelected(
    catalog: seq<Role>, rules: seq<Rule>, applies: Rule -> bool, lower: string -> string, task: string) returns (r: Role)
    requires catalog != [] && UniqueRoles(catalog)
    requires FirstMatch(rules, applies).None? && !HasFixedPlan(lower(task))
    ensures r in Selected(catalog, rules, applies, lower, true, task)
    ensures ScoreRole(r, TaskInput(task), lower).score == PrimaryScore(Route(catalog, TaskInput(task), lower))
  {
    var input := TaskInput(task);
    var route := Route(catalog, input, lower);
    UniqueParts(catalog);
    r := PrimaryHasScore(catalog, input, lower);
    DirectPlan(rules, applies, lower, "preselect", task, route.primaryRuntimeRole);
    hide Route, PrimaryScore, ScoreRole, PlanTaskGraph, HasFixedPlan;
    var names := Wanted(PlannedRoles(rules, applies, lower, true, task, route), route);
    assert names == if "chat" in [r.runtimeRole] then [r.runtimeRole] else [r.runtimeRole] + ["chat"];
    PickWithChat(catalog, [r], [r.runtimeRole]);
  }

  lemma PrimaryHasScore(catalog: seq<Role>, input: RouteInput, lower: string -> string) returns (r: Role)
    requires catalog != [] && UniqueRoleIds(catalog)
    ensures r in catalog && r.runtimeRole == Route(catalog, input, lower).primaryRuntimeRole
    ensures ScoreRole(r, input, lower).score == PrimaryScore(Route(catalog, input, lower))
  {
    var k := PrimaryIsBest(catalog, input, lower);
    r := if ScoreRole(catalog[k], input, lower).score > 0 then catalog[k] else Fallback(catalog);
    RouteByRank(catalog, input, lower);
    SortRolesUnique(catalog, input, lower);
    InSortRoles(catalog, input, lower, r);
    ScoreFound(SortRoles(catalog, input, lower), r, input, lower);
  }

  /**
   * A session with the fast route on and rules accepted against its catalog: if its commander starts a
   * graph over the preselected workers, every run of it comes to its end. It starts one exactly when the
   * selection scores enough and, for a fixed plan, the catalog has all planned roles.
   */
  lemma PreselectedSessionsEnd(
    setup: P.Setup, catalog: seq<Role>, rules: seq<Rule>, applies: Rule -> bool, lower: string -> string,
    taskId: string, task: string, minScore: real, run: seq<P.Action>)
    requires catalog != [] && UniqueRoles(catalog)
    requires forall rule :: rule in rules ==> Acceptable(rule, RuntimeRoles(catalog))
    requires
      var selected := Selected(catalog, rules, applies, lower, true, task);
      && selected != [] && setup.workers == WorkersOf(selected)
      && setup.graph == CommanderGraph(selected, rules, applies, lower, taskId, task)
    requires Runs.Legal(setup, P.Boot(setup), run)
    ensures
      var selected := Selected(catalog, rules, applies, lower, true, task);
      var started := SessionGraph(selected, rules, applies, lower, taskId, task, minScore);
      && (started == Some(setup.graph) <==>
            && ScoresEnough(selected, task, lower, minScore)
            && (FirstMatch(rules, applies).None? && HasFixedPlan(lower(task)) ==> InCatalog(catalog, setup.graph)))
      && (started.Some? ==> EndToEnd.RunsToTheEnd(setup, run))
  {
    hide Route, Selected, HasFixedPlan, UniqueRoles, Acceptable, PlanTaskGraph, WellFormed, IsDag, InCatalog, RuntimeRoles,
         AllRegistered, WorkersOf, PrimaryScore, P.Boot, Runs.Legal, EndToEnd.RunsToTheEnd;
    var selected := Selected(catalog, rules, applies, lower, true, task);
    SessionStarts(catalog, rules, applies, lower, taskId, task, minScore);
    if FirstMatch(rules, applies).Some? || !HasFixedPlan(lower(task)) {
      PlannedInCatalog(catalog, rules, applies, lower, taskId, task);
    }
    if SessionGraph(selected, rules, applies, lower, taskId, task, minScore).Some? {
      PlansAreDags(rules, applies, lower, taskId, task, Some(Route(selected, TaskInput(task), lower).primaryRuntimeRole), RuntimeRoles(catalog));
      EndToEnd.StartedGraphsEnd(setup, run);
    }
  }

  // ---------------------------------------------------------------- a plan that cannot start

  /** No needle occurs in a text that lacks its first character. */
  lemma {:induction false} LacksFirst(s: string, p: string)
    requires p != [] && p[0] !in s
    ensures !Contains(s, p)
  {
    if s != [] {
      assert s[0] in s && forall c :: c in s[1..] ==> c in s;
      LacksFirst(s[1..], p);
    }
  }

  lemma LacksAll(s: string, needles: seq<string>)
    requires forall i :: 0 <= i < |needles| ==> needles[i] != [] && needles[i][0] !in s
    ensures !ContainsAny(s, needles)
  {
    forall i | 0 <= i < |needles|
      ensures !Contains(s, needles[i])
    {
      LacksFirst(s, needles[i]);
    }
  }

  const CHAT_ROLE := Role("role.chat", "Chat", "chat", 1, [], ["hello"], [Answer])
  const WEB_ROLE := Role("role.web", "Web", "web", 2, [], ["page"], [Optimize])
  const DATA_ROLE := Role("role.data", "Data", "data", 3, [], ["seo"], [Analyze])

  const ONLY_CHAT := [CHAT_ROLE]

  /** A text about search optimisation, over a catalog with the chat role only, gets a plan that cannot start. */
  lemma MissingRoleRefused(minScore: real)
    ensures UniqueRoles(ONLY_CHAT)
    ensures var keep := (s: string) => s;
            var selected := Selected(ONLY_CHAT, [], (rule: Rule) => true, keep, true, "seo");
            && selected != []
            && SessionGraph(selected, [], (rule: Rule) => true, keep, "1", "seo", minScore) == None
  {
    hide Route, Selected, ContainsAny, PrimaryScore;
    var keep, applies := (s: string) => s, (rule: Rule) => true;
    LacksAll("seo", SERVICE);
    assert ContainsAny("seo", WEB) by { SeoIsWeb(); }
    SessionStarts(ONLY_CHAT, [], applies, keep, "1", "seo", minScore);
    var selected := Selected(ONLY_CHAT, [], applies, keep, true, "seo");
    var g := CommanderGraph(selected, [], applies, keep, "1", "seo");
    assert g.nodes == [WebNode("seo")];
    assert WebNode("seo") in g.nodes && WebNode("seo").role == "web" && "web" != "chat";
  }

  lemma SeoIsWeb()
    ensures ContainsAny("seo", WEB)
  {
    assert WEB[0] == "seo" && Contains("seo", "seo");
  }

  /**
   * The score guard reads the reduced catalog: here the fixed plan for search optimisation leaves out the
   * only role that scores, and a session whose full catalog scores two points is refused at any minimum.
   */
  lemma LowSelectionRefused(minScore: real)
    requires minScore > 0.0
    ensures
      var keep, catalog := (s: string) => s, [CHAT_ROLE, WEB_ROLE, DATA_ROLE];
      var selected := Selected(catalog, [], (rule: Rule) => true, keep, true, "seo");
      && UniqueRoles(catalog) && selected != []
      && PrimaryScore(Route(catalog, TaskInput("seo"), keep)) >= 4
      && InCatalog(catalog, CommanderGraph(selected, [], (rule: Rule) => true, keep, "1", "seo"))
      && SessionGraph(selected, [], (rule: Rule) => true, keep, "1", "seo", minScore) == None
  {
    hide Route, Selected, PlanTaskGraph, PrimaryScore, ScoreRole, WorkersOf, UniqueRoles, InCatalog, SessionGraph;
    var keep, applies, catalog := (s: string) => s, (rule: Rule) => true, [CHAT_ROLE, WEB_ROLE, DATA_ROLE];
    DistinctNames();
    var selected := SeoSelection(keep, applies, catalog);
    SeoRouteScores(keep, catalog, selected);
    SessionStarts(catalog, [], applies, keep, "1", "seo", minScore);
    SeoPlan(keep, applies, "1", Some(Route(selected, TaskInput("seo"), keep).primaryRuntimeRole));
    WebInCatalog(CommanderGraph(selected, [], applies, keep, "1", "seo"), catalog);
  }

  lemma WebInCatalog(g: TaskGraph, catalog: seq<Role>)
    requires g.nodes == [WebNode("seo")] && |catalog| == 3 && catalog[1] == WEB_ROLE
    ensures InCatalog(catalog, g)
  {
    assert catalog[1].runtimeRole == WebNode("seo").role;
  }

  lemma SeoRouteScores(keep: string -> string, catalog: seq<Role>, selected: seq<Role>)
    requires forall s :: keep(s) == s
    requires catalog == [CHAT_ROLE, WEB_ROLE, DATA_ROLE] && selected == [WEB_ROLE, CHAT_ROLE]
    ensures PrimaryScore(Route(catalog, TaskInput("seo"), keep)) >= 4
    ensures PrimaryScore(Route(selected, TaskInput("seo"), keep)) == 0
  {
    DistinctNames();
    UniqueParts(catalog);
    UniqueParts(selected);
    SeoScores(keep);
    hide Route, PrimaryScore, ScoreRole, UniqueRoles, UniqueRoleIds;
    PrimaryScoreIsBest(catalog, TaskInput("seo"), keep);
    assert DATA_ROLE in catalog;
    PrimaryScoreIsBest(selected, TaskInput("seo"), keep);
  }

  lemma DistinctNames()
    ensures UniqueRoles([CHAT_ROLE, WEB_ROLE, DATA_ROLE])
    ensures "web" != "chat" && "web" != "data" && "chat" != "data"
  {
    assert "role.chat"[5] == 'c' && "role.web"[5] == 'w' && "role.data"[5] == 'd';
  }

  lemma SeoPlan(keep: string -> string, applies: Rule -> bool, taskId: string, routed: Option<string>)
    requires keep("seo") == "seo"
    ensures PlanTaskGraph([], applies, keep, taskId, "seo", routed).nodes == [WebNode("seo")]
    ensures RolesOf([WebNode("seo")]) == ["web"]
  {
    hide ContainsAny;
    LacksAll("seo", SERVICE);
    SeoIsWeb();
  }

  lemma SeoSelection(keep: string -> string, applies: Rule -> bool, catalog: seq<Role>) returns (selected: seq<Role>)
    requires keep("seo") == "seo" && catalog == [CHAT_ROLE, WEB_ROLE, DATA_ROLE]
    ensures selected == Selected(catalog, [], applies, keep, true, "seo") == [WEB_ROLE, CHAT_ROLE]
  {
    hide Route, PlanTaskGraph;
    DistinctNames();
    var route := Route(catalog, TaskInput("seo"), keep);
    SeoPlan(keep, applies, "preselect", Some(route.primaryRuntimeRole));
    selected := [WEB_ROLE, CHAT_ROLE];
    assert Wanted(["web"], route) == ["web", "chat"];
    PickRoles(catalog, ["web", "chat"], selected);
  }

  lemma SeoScores(keep: string -> string)
    requires forall s :: keep(s) == s
    ensures ScoreRole(DATA_ROLE, TaskInput("seo"), keep).score >= 4
    ensures ScoreRole(CHAT_ROLE, TaskInput("seo"), keep).score == 0
    ensures ScoreRole(WEB_ROLE, TaskInput("seo"), keep).score == 0
  {
    LacksFirst("seo", "hello");
    LacksFirst("seo", "page");
    assert Contains("seo", "seo");
    assert KeywordHits(["hello"], "seo", keep) == KeywordHits([], "seo", keep);
    assert KeywordHits(["page"], "seo", keep) == KeywordHits([], "seo", keep);
    assert KeywordHits(["seo"], "seo", keep) == 1 + KeywordHits([], "seo", keep);
  }
}
