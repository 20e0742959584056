/** The session's preselection and the commander's planning over the selected workers agree. */
module Agreement {
  import opened Common
  import opened Roles
  import opened Router
  import opened Rules
  import opened Planner
  import opened TaskPlanning
  import opened Preselection

  // ---------------------------------------------------------------- what a fallback route is

  /** When no role scores, the route is the fallback alone. */
  lemma RouteOfSilent(catalog: seq<Role>, input: RouteInput, lower: string -> string)
    requires catalog != [] && UniqueRoleIds(catalog)
    requires Scoring(SortRoles(catalog, input, lower), input, lower) == 0
    ensures var route := Route(catalog, input, lower);
            && route.primaryRole == Fallback(catalog).id && route.primaryRuntimeRole == Fallback(catalog).runtimeRole
            && route.supportRoles == [] && route.supportRuntimeRoles == []
  {
    var ranked := SortRoles(catalog, input, lower);
    RouteByRank(catalog, input, lower);
    SortRolesRanks(catalog, input, lower);
    hide SortRoles, ScoreRole, InRank, Fallback, ScoreAll;
    var scores := ScoreAll(ranked, input, lower);
    ScoreAllAt(ranked, input, lower);
    forall i | 0 <= i < |scores|
      ensures scores[i].score == 0
    {
      ScoringBeyond(ranked, input, lower, i);
    }
    NoneSupporting(scores, Fallback(catalog).id);
  }

  // ---------------------------------------------------------------- a ranked start of the catalog, and chat

  function WithChat(catalog: seq<Role>, base: seq<Role>): seq<Role> {
    if HasRuntime(base, "chat") then base
    else match FindRuntime(catalog, "chat") case Some(c) => base + [c] case None => base
  }

  lemma UniqueParts(catalog: seq<Role>)
    requires UniqueRoles(catalog)
    ensures UniqueRoleIds(catalog)
  {
  }

  lemma PickWithChat(catalog: seq<Role>, base: seq<Role>, names: seq<string>)
    requires UniqueRoles(catalog) && UniqueRoles(base) && NamesOf(names, base) && forall r :: r in base ==> r in catalog
    ensures Pick(catalog, if "chat" in names then names else names + ["chat"]) == WithChat(catalog, base)
  {
    hide UniqueRoles, FindRuntime;
    PickRoles(catalog, names, base);
    assert "chat" in names <==> HasRuntime(base, "chat");
    if "chat" !in names {
      assert (names + ["chat"])[..|names|] == names;
    }
  }

  /** The first ranked roles of the catalog, in order. */
  ghost predicate Starts(base: seq<Role>, ranked: seq<Role>) {
    base != [] && base <= ranked
  }

  lemma StartsUnique(catalog: seq<Role>, base: seq<Role>, input: RouteInput, lower: string -> string)
    requires UniqueRoles(catalog) && Starts(base, SortRoles(catalog, input, lower))
    ensures UniqueRoles(base) && forall r :: r in base ==> r in catalog
  {
    var ranked := SortRoles(catalog, input, lower);
    UniqueParts(catalog);
    SortRolesUnique(catalog, input, lower);
    forall r | r in base
      ensures r in catalog
    {
      var i :| 0 <= i < |base| && base[i] == r;
      assert ranked[i] == r;
      InSortRoles(catalog, input, lower, r);
    }
    hide SortRoles;
    forall i, j | 0 <= i < j < |base|
      ensures base[i].id != base[j].id && base[i].runtimeRole != base[j].runtimeRole
    {
      assert ranked[i] == base[i] && ranked[j] == base[j];
      assert base[i] in catalog && base[j] in catalog;
      DifferentRoles(catalog, base[i], base[j]);
    }
  }

  lemma DifferentRoles(catalog: seq<Role>, a: Role, b: Role)
    requires UniqueRoles(catalog) && a in catalog && b in catalog && a.id != b.id
    ensures a.runtimeRole != b.runtimeRole
  {
    var i :| 0 <= i < |catalog| && catalog[i] == a;
    var j :| 0 <= j < |catalog| && catalog[j] == b;
  }

  /** Adding chat behind a ranked start keeps the ranking and the identities. */
  lemma WithChatRanked(catalog: seq<Role>, base: seq<Role>, input: RouteInput, lower: string -> string)
    requires UniqueRoles(catalog) && Starts(base, SortRoles(catalog, input, lower))
    ensures base <= WithChat(catalog, base)
    ensures InRank(WithChat(catalog, base), input, lower) && UniqueRoleIds(WithChat(catalog, base))
    ensures |WithChat(catalog, base)| <= |base| + 1
    ensures |WithChat(catalog, base)| > |base| ==>
              exists k :: |base| <= k < |SortRoles(catalog, input, lower)| && SortRoles(catalog, input, lower)[k] == WithChat(catalog, base)[|base|]
  {
    var ranked := SortRoles(catalog, input, lower);
    SortRolesRanks(catalog, input, lower);
    StartsUnique(catalog, base, input, lower);
    UniqueParts(catalog);
    SortRolesUnique(catalog, input, lower);
    var selected := WithChat(catalog, base);
    if selected == base {
      PrefixRanked(ranked, base, input, lower);
    } else {
      var c := selected[|base|];
      assert selected == base + [c] && c in catalog && c.runtimeRole == "chat";
      InSortRoles(catalog, input, lower, c);
      hide SortRoles, Better, FindRuntime, UniqueRoles;
      var k :| 0 <= k < |ranked| && ranked[k] == c;
      AppendRanked(ranked, base, k, input, lower);
    }
  }

  lemma PrefixRanked(ranked: seq<Role>, base: seq<Role>, input: RouteInput, lower: string -> string)
    requires InRank(ranked, input, lower) && UniqueRoleIds(ranked) && base <= ranked
    ensures InRank(base, input, lower) && UniqueRoleIds(base)
  {
    hide Better;
    assert forall i :: 0 <= i < |base| ==> base[i] == ranked[i];
  }

  lemma AppendRanked(ranked: seq<Role>, base: seq<Role>, k: nat, input: RouteInput, lower: string -> string)
    requires InRank(ranked, input, lower) && UniqueRoleIds(ranked) && base <= ranked && |base| <= k < |ranked|
    ensures InRank(base + [ranked[k]], input, lower) && UniqueRoleIds(base + [ranked[k]])
  {
    hide Better;
    var more := base + [ranked[k]];
    assert forall i :: 0 <= i < |base| ==> more[i] == ranked[i];
    assert more[|base|] == ranked[k];
  }

  // ---------------------------------------------------------------- the reduced route

  /** Over a scoring start and chat, the primary is the same. */
  lemma StartKeepsPrimary(catalog: seq<Role>, base: seq<Role>, input: RouteInput, lower: string -> string)
    requires catalog != [] && UniqueRoles(catalog) && input.maxRoles == MAX_ROLES
    requires var ranked := SortRoles(catalog, input, lower); Starts(base, ranked) && Scoring(ranked, input, lower) > 0
    ensures var selected := WithChat(catalog, base);
            && selected != []
            && SortRoles(selected, input, lower) == selected && Scoring(selected, input, lower) > 0
            && Leads(Route(selected, input, lower), Shortlist(selected, input, lower), input, lower)
            && Route(selected, input, lower).primaryRuntimeRole == Route(catalog, input, lower).primaryRuntimeRole
            && Route(selected, input, lower).primaryRole == Route(catalog, input, lower).primaryRole
  {
    hide Starts, Route, InRank, UniqueRoles, ScoreRole;
    var ranked, selected := SortRoles(catalog, input, lower), WithChat(catalog, base);
    UniqueParts(catalog);
    WithChatRanked(catalog, base, input, lower);
    SortRanked(selected, input, lower);
    assert selected != [] && selected[0] == ranked[0] by { StartsHead(base, ranked, selected); }
    assert Scoring(selected, input, lower) > 0;
    hide SortRoles, WithChat;
    RouteOfScoring(selected, input, lower);
    RouteOfScoring(catalog, input, lower);
  }

  lemma StartsHead(base: seq<Role>, ranked: seq<Role>, selected: seq<Role>)
    requires Starts(base, ranked) && base <= selected
    ensures selected != [] && ranked != [] && selected[0] == ranked[0]
  {
  }

  /** Over the whole shortlist and chat, the shortlist is the same. */
  lemma ShortlistSurvives(catalog: seq<Role>, input: RouteInput, lower: string -> string)
    requires catalog != [] && UniqueRoles(catalog)
    requires var ranked := SortRoles(catalog, input, lower); ranked != [] && Scoring(ranked, input, lower) > 0
    ensures
      var short := Shortlist(SortRoles(catalog, input, lower), input, lower);
      WithChat(catalog, short) != [] && Shortlist(WithChat(catalog, short), input, lower) == short
  {
    hide InRank, ScoreRole, SortRoles, WithChat, UniqueRoles, UniqueRoleIds;
    var ranked := SortRoles(catalog, input, lower);
    var short := Shortlist(ranked, input, lower);
    assert Starts(short, ranked);
    WithChatRanked(catalog, short, input, lower);
    SortRolesRanks(catalog, input, lower);
    var selected := WithChat(catalog, short);
    if |selected| > |short| {
      var k :| |short| <= k < |ranked| && ranked[k] == selected[|short|];
      if |short| < MAX_ROLES {
        BeyondShortlist(ranked, input, lower, k);
      }
    }
    SameShortlist(ranked, selected, input, lower);
  }

  lemma BeyondShortlist(ranked: seq<Role>, input: RouteInput, lower: string -> string, k: nat)
    requires ranked != [] && InRank(ranked, input, lower) && Scoring(ranked, input, lower) > 0
    requires |Shortlist(ranked, input, lower)| <= k < |ranked| && |Shortlist(ranked, input, lower)| < MAX_ROLES
    ensures ScoreRole(ranked[k], input, lower).score == 0
  {
    hide ScoreRole, InRank;
    ScoringBeyond(ranked, input, lower, k);
  }

  lemma SameShortlist(ranked: seq<Role>, selected: seq<Role>, input: RouteInput, lower: string -> string)
    requires ranked != [] && Scoring(ranked, input, lower) > 0
    requires var short := Shortlist(ranked, input, lower);
             && short <= selected && |selected| <= |short| + 1
             && (|selected| > |short| && |short| < MAX_ROLES ==> ScoreRole(selected[|short|], input, lower).score == 0)
    ensures selected != [] && Shortlist(selected, input, lower) == Shortlist(ranked, input, lower)
  {
    hide ScoreRole;
    var short := Shortlist(ranked, input, lower);
    forall i | 0 <= i < |short|
      ensures ScoreRole(selected[i], input, lower).score > 0
    {
      assert selected[i] == ranked[i];
    }
    ScoringAtLeast(selected, |short|, input, lower);
  }

  lemma ScoringAtLeast(roles: seq<Role>, n: nat, input: RouteInput, lower: string -> string)
    requires n <= |roles| && forall i :: 0 <= i < n ==> ScoreRole(roles[i], input, lower).score > 0
    ensures Scoring(roles, input, lower) >= n
    ensures n < |roles| && ScoreRole(roles[n], input, lower).score == 0 ==> Scoring(roles, input, lower) == n
  {
  }

  /** Over the fallback alone, the route is the fallback again. */
  lemma FallbackSurvives(catalog: seq<Role>, input: RouteInput, lower: string -> string)
    requires catalog != [] && UniqueRoles(catalog)
    requires Scoring(SortRoles(catalog, input, lower), input, lower) == 0
    ensures WithChat(catalog, [Fallback(catalog)]) == [Fallback(catalog)]
    ensures Route([Fallback(catalog)], input, lower).(scores := []) == Route(catalog, input, lower).(scores := [])
  {
    FallbackAlone(catalog);
    FallbackSilent(catalog, input, lower);
    UniqueParts(catalog);
    hide Route, Fallback, UniqueRoles, SortRoles, WithChat;
    RouteOfSilent(catalog, input, lower);
    RouteOfSilent([Fallback(catalog)], input, lower);
  }

  lemma FallbackAlone(catalog: seq<Role>)
    requires catalog != []
    ensures WithChat(catalog, [Fallback(catalog)]) == [Fallback(catalog)] && Fallback([Fallback(catalog)]) == Fallback(catalog)
  {
    var f := Fallback(catalog);
    assert [f][0].runtimeRole == f.runtimeRole;
    if FindRuntime(catalog, "chat").None? {
      assert FindRuntime([f], "chat").None?;
    }
  }

  lemma FallbackSilent(catalog: seq<Role>, input: RouteInput, lower: string -> string)
    requires catalog != [] && Scoring(SortRoles(catalog, input, lower), input, lower) == 0
    ensures UniqueRoleIds([Fallback(catalog)])
    ensures Scoring(SortRoles([Fallback(catalog)], input, lower), input, lower) == 0
  {
    hide Better, ScoreRole, Fallback;
    var f, ranked := Fallback(catalog), SortRoles(catalog, input, lower);
    InSortRoles(catalog, input, lower, f);
    SortRolesRanks(catalog, input, lower);
    var i :| 0 <= i < |ranked| && ranked[i] == f;
    ScoringBeyond(ranked, input, lower, i);
    SortRanked([f], input, lower);
    ScoringAtLeast([f], 0, input, lower);
  }

  // ---------------------------------------------------------------- main results

  /** The roles at the head of a route: the shortlist, or the fallback. */
  function Head(catalog: seq<Role>, input: RouteInput, lower: string -> string): seq<Role>
    requires catalog != []
  {
    var ranked := SortRoles(catalog, input, lower);
    if ranked != [] && Scoring(ranked, input, lower) > 0 then Shortlist(ranked, input, lower) else [Fallback(catalog)]
  }

  lemma RankedNonempty(catalog: seq<Role>, input: RouteInput, lower: string -> string)
    requires catalog != []
    ensures SortRoles(catalog, input, lower) != []
  {
    InSortRoles(catalog, input, lower, catalog[0]);
  }

  lemma {:induction false} RuntimeNames(roles: seq<Role>, input: RouteInput, lower: string -> string)
    ensures NamesOf(RuntimeRolesOf(ScoreAll(roles, input, lower)), roles)
  {
    hide ScoreRole;
    if roles != [] {
      RuntimeNames(roles[1..], input, lower);
      ScoreIds(roles[0], input, lower);
      assert ScoreAll(roles, input, lower)[1..] == ScoreAll(roles[1..], input, lower);
    }
  }

  lemma HeadNames(catalog: seq<Role>, input: RouteInput, lower: string -> string)
    requires catalog != [] && UniqueRoles(catalog) && input.maxRoles == MAX_ROLES
    ensures var route := Route(catalog, input, lower);
            NamesOf([route.primaryRuntimeRole] + route.supportRuntimeRoles, Head(catalog, input, lower))
  {
    UniqueParts(catalog);
    RankedNonempty(catalog, input, lower);
    hide Route, SortRoles, Fallback, UniqueRoleIds;
    var ranked := SortRoles(catalog, input, lower);
    if Scoring(ranked, input, lower) > 0 {
      RouteOfScoring(catalog, input, lower);
      RuntimeNames(Shortlist(ranked, input, lower)[1..], input, lower);
    } else {
      RouteOfSilent(catalog, input, lower);
    }
  }

  lemma HeadUnique(catalog: seq<Role>, input: RouteInput, lower: string -> string)
    requires catalog != [] && UniqueRoles(catalog)
    ensures var head := Head(catalog, input, lower);
            head != [] && UniqueRoles(head) && forall r :: r in head ==> r in catalog
  {
    RankedNonempty(catalog, input, lower);
    var ranked := SortRoles(catalog, input, lower);
    if Scoring(ranked, input, lower) > 0 {
      hide SortRoles, Scoring;
      StartsUnique(catalog, Shortlist(ranked, input, lower), input, lower);
    }
  }

  /**
   * Without the fast route, the commander's router over the selected roles gives the very route that the
   * full catalog gave, scores aside.
   */
  lemma SameRouteWithoutPlan(
    catalog: seq<Role>, rules: seq<Rule>, applies: Rule -> bool, lower: string -> string, task: string)
    requires catalog != [] && UniqueRoles(catalog)
    ensures
      var selected := Selected(catalog, rules, applies, lower, false, task);
      && selected == WithChat(catalog, Head(catalog, TaskInput(task), lower)) && selected != []
      && Route(selected, TaskInput(task), lower).(scores := []) == Route(catalog, TaskInput(task), lower).(scores := [])
  {
    var input := TaskInput(task);
    var head := Head(catalog, input, lower);
    var route := Route(catalog, input, lower);
    HeadNames(catalog, input, lower);
    HeadUnique(catalog, input, lower);
    hide Head, Route, Pick;
    PickWithChat(catalog, head, [route.primaryRuntimeRole] + route.supportRuntimeRoles);
    WithChatNonempty(catalog, head);
    HeadKeepsRoute(catalog, input, lower);
  }

  lemma WithChatNonempty(catalog: seq<Role>, base: seq<Role>)
    requires base != []
    ensures WithChat(catalog, base) != []
  {
  }

  lemma HeadKeepsRoute(catalog: seq<Role>, input: RouteInput, lower: string -> string)
    requires catalog != [] && UniqueRoles(catalog) && input.maxRoles == MAX_ROLES
    ensures var selected := WithChat(catalog, Head(catalog, input, lower));
            selected != [] && Route(selected, input, lower).(scores := []) == Route(catalog, input, lower).(scores := [])
  {
    UniqueParts(catalog);
    RankedNonempty(catalog, input, lower);
    hide Route, SortRoles, Fallback, UniqueRoles, UniqueRoleIds, WithChat;
    var ranked := SortRoles(catalog, input, lower);
    if Scoring(ranked, input, lower) > 0 {
      StartKeepsPrimary(catalog, Shortlist(ranked, input, lower), input, lower);
      ShortlistSurvives(catalog, input, lower);
      RouteOfScoring(catalog, input, lower);
    } else {
      FallbackSurvives(catalog, input, lower);
    }
  }

  /** For a task without a rule or a fixed plan, the reduced router picks the primary of the full one. */
  lemma SamePrimary(catalog: seq<Role>, rules: seq<Rule>, applies: Rule -> bool, lower: string -> string, task: string)
    requires catalog != [] && UniqueRoles(catalog)
    requires FirstMatch(rules, applies).None? && !HasFixedPlan(lower(task))
    ensures
      var selected := Selected(catalog, rules, applies, lower, true, task);
      && selected != []
      && Route(selected, TaskInput(task), lower).primaryRuntimeRole == Route(catalog, TaskInput(task), lower).primaryRuntimeRole
  {
    var input := TaskInput(task);
    var head := Head(catalog, input, lower);
    var route := Route(catalog, input, lower);
    HeadNames(catalog, input, lower);
    HeadUnique(catalog, input, lower);
    DirectPlan(rules, applies, lower, "preselect", task, route.primaryRuntimeRole);
    OnlyFirst(catalog, head, [route.primaryRuntimeRole] + route.supportRuntimeRoles);
    hide Head, Route, Pick, PlanTaskGraph, HasFixedPlan;
    PickWithChat(catalog, head[..1], [route.primaryRuntimeRole]);
    WithChatNonempty(catalog, head[..1]);
    FirstKeepsPrimary(catalog, input, lower);
  }

  lemma OnlyFirst(catalog: seq<Role>, head: seq<Role>, names: seq<string>)
    requires head != [] && UniqueRoles(head) && NamesOf(names, head) && forall r :: r in head ==> r in catalog
    ensures UniqueRoles(head[..1]) && NamesOf([names[0]], head[..1]) && forall r :: r in head[..1] ==> r in catalog
  {
  }

  lemma DirectPlan(
    rules: seq<Rule>, applies: Rule -> bool, lower: string -> string, taskId: string, task: string, routed: string)
    requires FirstMatch(rules, applies).None? && !HasFixedPlan(lower(task))
    ensures PlanTaskGraph(rules, applies, lower, taskId, task, Some(routed)).nodes == [DirectNode(routed, task)]
    ensures RolesOf([DirectNode(routed, task)]) == [routed]
  {
    hide Text.ContainsAny;
  }

  lemma FirstKeepsPrimary(catalog: seq<Role>, input: RouteInput, lower: string -> string)
    requires catalog != [] && UniqueRoles(catalog) && input.maxRoles == MAX_ROLES
    ensures Head(catalog, input, lower) != []
    ensures var selected := WithChat(catalog, Head(catalog, input, lower)[..1]);
            && selected != []
            && Route(selected, input, lower).primaryRuntimeRole == Route(catalog, input, lower).primaryRuntimeRole
  {
    UniqueParts(catalog);
    RankedNonempty(catalog, input, lower);
    hide Route, SortRoles, Fallback, UniqueRoles, UniqueRoleIds, WithChat;
    var ranked := SortRoles(catalog, input, lower);
    if Scoring(ranked, input, lower) > 0 {
      assert Shortlist(ranked, input, lower)[..1] == ranked[..1];
      StartKeepsPrimary(catalog, ranked[..1], input, lower);
    } else {
      assert Head(catalog, input, lower)[..1] == [Fallback(catalog)];
      FallbackSurvives(catalog, input, lower);
    }
  }

  /** With the fast route the commander plans exactly the nodes the session preselected for. */
  lemma SameNodes(
    catalog: seq<Role>, rules: seq<Rule>, applies: Rule -> bool, lower: string -> string, taskId: string, task: string)
    requires catalog != [] && UniqueRoles(catalog)
    ensures
      var selected := Selected(catalog, rules, applies, lower, true, task);
      && selected != []
      && CommanderGraph(selected, rules, applies, lower, taskId, task).nodes
         == PlanTaskGraph(rules, applies, lower, "preselect", task,
                          Some(Route(catalog, TaskInput(task), lower).primaryRuntimeRole)).nodes
  {
    hide Route, Pick, UniqueRoles;
    if FirstMatch(rules, applies).None? && !HasFixedPlan(lower(task)) {
      hide HasFixedPlan, PlanTaskGraph, Selected;
      SamePrimary(catalog, rules, applies, lower, task);
      var selected := Selected(catalog, rules, applies, lower, true, task);
      DirectPlan(rules, applies, lower, "preselect", task, Route(catalog, TaskInput(task), lower).primaryRuntimeRole);
      DirectPlan(rules, applies, lower, taskId, task, Route(selected, TaskInput(task), lower).primaryRuntimeRole);
    } else {
      hide Selected;
      var selected := Selected(catalog, rules, applies, lower, true, task);
      SelectedNonempty(catalog, rules, applies, lower, true, task);
      FixedNodes(rules, applies, lower, taskId, "preselect", task,
                 Some(Route(selected, TaskInput(task), lower).primaryRuntimeRole),
                 Some(Route(catalog, TaskInput(task), lower).primaryRuntimeRole));
    }
  }

  lemma SelectedNonempty(
    catalog: seq<Role>, rules: seq<Rule>, applies: Rule -> bool, lower: string -> string, fastRoute: bool, task: string)
    requires catalog != []
    ensures Selected(catalog, rules, applies, lower, fastRoute, task) != []
  {
    hide Route, Pick, PlanTaskGraph;
  }

  lemma FixedNodes(
    rules: seq<Rule>, applies: Rule -> bool, lower: string -> string, idA: string, idB: string, task: string,
    routedA: Option<string>, routedB: Option<string>)
    requires FirstMatch(rules, applies).Some? || HasFixedPlan(lower(task))
    ensures PlanTaskGraph(rules, applies, lower, idA, task, routedA).nodes == PlanTaskGraph(rules, applies, lower, idB, task, routedB).nodes
  {
    hide Text.ContainsAny, DataPlan;
  }
}
