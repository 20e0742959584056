/** Which workers a session starts, and why the commander's own planning over them agrees. */
module Preselection {
  import opened Common
  import opened TaskGraphs
  import opened Roles
  import opened Router
  import opened Rules
  import opened TaskPlanning

  const MAX_ROLES: nat := 3

  /** How both the session and the commander route a task. */
  function TaskInput(task: string): RouteInput {
    RouteInput(task, Some("domain.general"), None, MAX_ROLES)
  }

  function RolesOf(nodes: seq<TaskNode>): seq<string> {
    if nodes == [] then [] else [nodes[0].role] + RolesOf(nodes[1..])
  }

  predicate HasRuntime(roles: seq<Role>, name: string) {
    exists i :: 0 <= i < |roles| && roles[i].runtimeRole == name
  }

  /** The runtime roles that the session asks for, with `chat` always among them. */
  function Wanted(planned: seq<string>, route: RoleRoute): seq<string> {
    var names := if planned == [] then [route.primaryRuntimeRole] + route.supportRuntimeRoles else planned;
    if "chat" in names then names else names + ["chat"]
  }

  /** The first catalog role of each wanted name, each name once. */
  function Pick(catalog: seq<Role>, names: seq<string>): seq<Role>
    decreases |names|
  {
    if names == [] then []
    else
      var picked, name := Pick(catalog, names[..|names| - 1]), names[|names| - 1];
      if HasRuntime(picked, name) then picked
      else match FindRuntime(catalog, name) case Some(r) => picked + [r] case None => picked
  }

  function PlannedRoles(rules: seq<Rule>, applies: Rule -> bool, lower: string -> string, fastRoute: bool,
      task: string, route: RoleRoute): seq<string> {
    if fastRoute then RolesOf(PlanTaskGraph(rules, applies, lower, "preselect", task, Some(route.primaryRuntimeRole)).nodes) else []
  }

  function Selected(
    catalog: seq<Role>, rules: seq<Rule>, applies: Rule -> bool, lower: string -> string, fastRoute: bool, task: string): seq<Role>
    requires catalog != []
  {
    var route := Route(catalog, TaskInput(task), lower);
    var picked := Pick(catalog, Wanted(PlannedRoles(rules, applies, lower, fastRoute, task, route), route));
    if picked == [] then [catalog[0]] else picked
  }

  method SelectRolesForTask(
    catalog: seq<Role>, rules: seq<Rule>, applies: Rule -> bool, lower: string -> string, fastRoute: bool, task: string)
    returns (selected: seq<Role>)
    requires catalog != []
    ensures selected == Selected(catalog, rules, applies, lower, fastRoute, task)
  {
    hide Route, PlanTaskGraph, Pick;
    var runtimeRoles: seq<string> := [];
    var route := Route(catalog, TaskInput(task), lower);
    if fastRoute {
      var graph := PlanTaskGraph(rules, applies, lower, "preselect", task, Some(route.primaryRuntimeRole));
      runtimeRoles := RolesOf(graph.nodes);
    }
    if runtimeRoles == [] {
      runtimeRoles := [route.primaryRuntimeRole];
      runtimeRoles := runtimeRoles + route.supportRuntimeRoles;
    }
    if "chat" !in runtimeRoles {
      runtimeRoles := runtimeRoles + ["chat"];
    }
    selected := PickLoop(catalog, runtimeRoles);
    if selected == [] {
      selected := [catalog[0]];
    }
  }

  method PickLoop(catalog: seq<Role>, names: seq<string>) returns (selected: seq<Role>)
    ensures selected == Pick(catalog, names)
  {
    hide FindRuntime, HasRuntime;
    selected := [];
    for i := 0 to |names|
      invariant selected == Pick(catalog, names[..i])
    {
      assert names[..i + 1][..i] == names[..i];
      if HasRuntime(selected, names[i]) {
        continue;
      }
      var role := FindRuntime(catalog, names[i]);
      if role.Some? {
        selected := selected + [role.value];
      }
    }
    assert names[..|names|] == names;
  }

  /** The commander over the selected roles plans this graph, with these workers registered. */
  function CommanderGraph(
    selected: seq<Role>, rules: seq<Rule>, applies: Rule -> bool, lower: string -> string, taskId: string, task: string): TaskGraph
    requires selected != []
  {
    PlanTaskGraph(rules, applies, lower, taskId, task, Some(Route(selected, TaskInput(task), lower).primaryRuntimeRole))
  }

  function WorkersOf(roles: seq<Role>): set<string> {
    set i | 0 <= i < |roles| :: "worker." + roles[i].runtimeRole
  }

  // ---------------------------------------------------------------- picking

  lemma {:induction false} PickedHas(catalog: seq<Role>, names: seq<string>, name: string)
    ensures HasRuntime(Pick(catalog, names), name) <==> name in names && HasRuntime(catalog, name)
    decreases |names|
  {
    if names != [] {
      var n := |names| - 1;
      var picked, last := Pick(catalog, names[..n]), names[n];
      PickedHas(catalog, names[..n], name);
      assert names == names[..n] + [last];
      if !HasRuntime(picked, last) && FindRuntime(catalog, last).Some? {
        HasRuntimeAppend(picked, FindRuntime(catalog, last).value, name);
      }
      FoundIffHas(catalog, last);
    }
  }

  lemma HasRuntimeAppend(roles: seq<Role>, r: Role, name: string)
    ensures HasRuntime(roles + [r], name) <==> HasRuntime(roles, name) || r.runtimeRole == name
  {
    var more := roles + [r];
    if HasRuntime(roles, name) {
      var i :| 0 <= i < |roles| && roles[i].runtimeRole == name;
      assert more[i].runtimeRole == name;
    }
    assert more[|roles|] == r;
  }

  lemma FoundIffHas(catalog: seq<Role>, name: string)
    ensures FindRuntime(catalog, name).Some? <==> HasRuntime(catalog, name)
  {
  }

  lemma {:induction false} FindUnique(catalog: seq<Role>, r: Role)
    requires UniqueRoles(catalog) && r in catalog
    ensures FindRuntime(catalog, r.runtimeRole) == Some(r)
  {
    var f := FindRuntime(catalog, r.runtimeRole);
    var i, j :| 0 <= i < |catalog| && catalog[i] == r && 0 <= j < |catalog| && f.Some? && catalog[j] == f.value;
  }

  predicate NamesOf(names: seq<string>, roles: seq<Role>) {
    |names| == |roles| && forall i :: 0 <= i < |roles| ==> names[i] == roles[i].runtimeRole
  }

  /** Asking for distinct catalog roles by name picks them in order. */
  lemma {:induction false} PickRoles(catalog: seq<Role>, names: seq<string>, roles: seq<Role>)
    requires UniqueRoles(catalog) && UniqueRoles(roles) && NamesOf(names, roles)
    requires forall r :: r in roles ==> r in catalog
    ensures Pick(catalog, names) == roles
    decreases |names|
  {
    hide FindRuntime;
    if names != [] {
      var n := |names| - 1;
      PickRoles(catalog, names[..n], roles[..n]);
      FindUnique(catalog, roles[n]);
      assert roles == roles[..n] + [roles[n]];
    }
  }

  // ---------------------------------------------------------------- routing over ranked roles

  lemma {:induction false} SupportingConcat(a: seq<RoleScore>, b: seq<RoleScore>, id: string)
    ensures Supporting(a + b, id) == Supporting(a, id) + Supporting(b, id)
  {
    if a == [] {
      assert a + b == b;
    } else {
      assert (a + b)[1..] == a[1..] + b;
      SupportingConcat(a[1..], b, id);
    }
  }

  lemma {:induction false} AllSupporting(a: seq<RoleScore>, id: string)
    requires forall i :: 0 <= i < |a| ==> a[i].roleId != id && a[i].score > 0
    ensures Supporting(a, id) == a
  {
    if a != [] {
      AllSupporting(a[1..], id);
    }
  }

  lemma {:induction false} NoneSupporting(a: seq<RoleScore>, id: string)
    requires forall i :: 0 <= i < |a| ==> a[i].roleId == id || a[i].score == 0
    ensures Supporting(a, id) == []
  {
    if a != [] {
      NoneSupporting(a[1..], id);
    }
  }

  /** How many roles at the front of a ranked list score at all. */
  function Scoring(ranked: seq<Role>, input: RouteInput, lower: string -> string): (n: nat)
    ensures n <= |ranked|
    ensures forall i :: 0 <= i < n ==> ScoreRole(ranked[i], input, lower).score > 0
    ensures n < |ranked| ==> ScoreRole(ranked[n], input, lower).score == 0
  {
    if ranked == [] || ScoreRole(ranked[0], input, lower).score == 0 then 0 else 1 + Scoring(ranked[1..], input, lower)
  }

  lemma ScoringBeyond(ranked: seq<Role>, input: RouteInput, lower: string -> string, i: nat)
    requires InRank(ranked, input, lower) && Scoring(ranked, input, lower) <= i < |ranked|
    ensures ScoreRole(ranked[i], input, lower).score == 0
  {
    hide ScoreRole;
    var n := Scoring(ranked, input, lower);
    if n < i {
      assert !Better(ranked[i], ranked[n], input, lower);
    }
  }

  lemma ScoreIds(r: Role, input: RouteInput, lower: string -> string)
    ensures ScoreRole(r, input, lower).roleId == r.id && ScoreRole(r, input, lower).runtimeRole == r.runtimeRole
  {
  }

  /** The first role and, after it, those that score: what a route can be made of. */
  function Shortlist(ranked: seq<Role>, input: RouteInput, lower: string -> string): (s: seq<Role>)
    requires ranked != []
    ensures 1 <= |s| <= MAX_ROLES && s <= ranked
  {
    var n := Scoring(ranked, input, lower);
    if n <= 1 then ranked[..1] else if n <= MAX_ROLES then ranked[..n] else ranked[..MAX_ROLES]
  }

  lemma SupportingBetween(scores: seq<RoleScore>, n: nat, id: string)
    requires 1 <= n <= |scores| && scores[0].roleId == id
    requires forall i :: 1 <= i < n ==> scores[i].roleId != id && scores[i].score > 0
    requires forall i :: n <= i < |scores| ==> scores[i].score == 0
    ensures Supporting(scores, id) == scores[1..n]
  {
    var first, middle, last := scores[..1], scores[1..n], scores[n..];
    assert scores == first + (middle + last);
    SupportingConcat(first, middle + last, id);
    SupportingConcat(middle, last, id);
    NoneSupporting(first, id);
    AllSupporting(middle, id);
    NoneSupporting(last, id);
  }

  lemma SupportsOfRanked(ranked: seq<Role>, input: RouteInput, lower: string -> string)
    requires ranked != [] && InRank(ranked, input, lower) && UniqueRoleIds(ranked)
    requires Scoring(ranked, input, lower) > 0
    ensures Supporting(ScoreAll(ranked, input, lower), ranked[0].id)
         == ScoreAll(ranked, input, lower)[1..Scoring(ranked, input, lower)]
  {
    hide ScoreRole, InRank, ScoreAll, Supporting;
    var scores, n := ScoreAll(ranked, input, lower), Scoring(ranked, input, lower);
    ScoreAllAt(ranked, input, lower);
    forall i | 0 <= i < |ranked|
      ensures scores[i].roleId == ranked[i].id && (i >= n ==> scores[i].score == 0)
    {
      ScoreIds(ranked[i], input, lower);
      if i >= n {
        ScoringBeyond(ranked, input, lower, i);
      }
    }
    SupportingBetween(scores, n, ranked[0].id);
  }

  ghost predicate Leads(route: RoleRoute, short: seq<Role>, input: RouteInput, lower: string -> string)
    requires short != []
  {
    && route.primaryRole == short[0].id && route.primaryRuntimeRole == short[0].runtimeRole
    && route.supportRoles == RoleIds(ScoreAll(short[1..], input, lower))
    && route.supportRuntimeRoles == RuntimeRolesOf(ScoreAll(short[1..], input, lower))
  }

  /** The route over a catalog whose first ranked role scores is its shortlist. */
  lemma RouteOfScoring(catalog: seq<Role>, input: RouteInput, lower: string -> string)
    requires catalog != [] && UniqueRoleIds(catalog) && input.maxRoles == MAX_ROLES
    requires var ranked := SortRoles(catalog, input, lower); ranked != [] && Scoring(ranked, input, lower) > 0
    ensures Leads(Route(catalog, input, lower), Shortlist(SortRoles(catalog, input, lower), input, lower), input, lower)
  {
    var ranked := SortRoles(catalog, input, lower);
    RouteByRank(catalog, input, lower);
    SortRolesRanks(catalog, input, lower);
    SortRolesUnique(catalog, input, lower);
    hide SortRoles, InRank, ScoreRole, UniqueRoleIds, ScoreAll, Supporting;
    SupportsOfRanked(ranked, input, lower);
    ScoreAllAt(ranked, input, lower);
    ScoreIds(ranked[0], input, lower);
    ShortlistScores(ranked, input, lower);
  }

  lemma ShortlistScores(ranked: seq<Role>, input: RouteInput, lower: string -> string)
    requires ranked != [] && Scoring(ranked, input, lower) > 0
    ensures Cut(ScoreAll(ranked, input, lower)[1..Scoring(ranked, input, lower)], MAX_ROLES - 1)
         == ScoreAll(Shortlist(ranked, input, lower)[1..], input, lower)
  {
    hide ScoreRole, ScoreAll;
    var short := Shortlist(ranked, input, lower);
    ScoreAllAt(ranked, input, lower);
    ScoreAllAt(short[1..], input, lower);
  }

  ghost predicate Supports(catalog: seq<Role>, input: RouteInput, lower: string -> string, primary: Role, s: Role) {
    s in catalog && s.id != primary.id && ScoreRole(s, input, lower).score > 0
  }

  /**
   * Behind a scoring primary the supports are the best other roles that score, the best first: at most two,
   * and one that scores is left out only when there are two that it does not outrank.
   */
  lemma SupportsExactly(catalog: seq<Role>, input: RouteInput, lower: string -> string) returns (primary: Role, supports: seq<Role>)
    requires catalog != [] && UniqueRoleIds(catalog) && input.maxRoles == MAX_ROLES
    requires var ranked := SortRoles(catalog, input, lower); ranked != [] && Scoring(ranked, input, lower) > 0
    ensures Leads(Route(catalog, input, lower), [primary] + supports, input, lower)
    ensures primary in catalog && forall r :: r in catalog ==> !Better(r, primary, input, lower)
    ensures |supports| <= 2 && InRank(supports, input, lower)
    ensures forall s :: s in supports ==> Supports(catalog, input, lower, primary, s)
    ensures forall r :: Supports(catalog, input, lower, primary, r) && r !in supports ==>
              |supports| == 2 && forall s :: s in supports ==> !Better(r, s, input, lower)
  {
    hide SortRoles, ScoreRole, Leads, Better, UniqueRoleIds, Route;
    var ranked := SortRoles(catalog, input, lower);
    RouteOfScoring(catalog, input, lower);
    SortRolesRanks(catalog, input, lower);
    SortRolesUnique(catalog, input, lower);
    var short := Shortlist(ranked, input, lower);
    primary, supports := short[0], short[1..];
    assert [primary] + supports == short;
    forall r
      ensures r in ranked <==> r in catalog
    {
      InSortRoles(catalog, input, lower, r);
    }
    BetterOrders(primary, primary, primary, input, lower);
    RankedHead(ranked, input, lower);
    RankedSupports(ranked, input, lower);
  }

  lemma RankedHead(ranked: seq<Role>, input: RouteInput, lower: string -> string)
    requires ranked != [] && InRank(ranked, input, lower)
    ensures forall r :: r in ranked ==> !Better(r, ranked[0], input, lower)
  {
    hide Better;
    BetterOrders(ranked[0], ranked[0], ranked[0], input, lower);
  }

  lemma RankedSupports(ranked: seq<Role>, input: RouteInput, lower: string -> string)
    requires ranked != [] && InRank(ranked, input, lower) && UniqueRoleIds(ranked) && Scoring(ranked, input, lower) > 0
    ensures var short := Shortlist(ranked, input, lower);
            && InRank(short[1..], input, lower)
            && (forall s :: s in short[1..] ==> Supports(ranked, input, lower, ranked[0], s))
            && (forall r :: Supports(ranked, input, lower, ranked[0], r) && r !in short[1..] ==>
                  |short| == MAX_ROLES && forall s :: s in short[1..] ==> !Better(r, s, input, lower))
  {
    hide Better, ScoreRole;
    var short, n := Shortlist(ranked, input, lower), Scoring(ranked, input, lower);
    forall r | Supports(ranked, input, lower, ranked[0], r) && r !in short[1..]
      ensures |short| == MAX_ROLES && forall s :: s in short[1..] ==> !Better(r, s, input, lower)
    {
      var i :| 0 <= i < |ranked| && ranked[i] == r;
      if i >= n {
        ScoringBeyond(ranked, input, lower, i);
      }
      assert forall j :: 0 <= j < |short| - 1 ==> short[1..][j] == ranked[j + 1];
    }
  }
}
