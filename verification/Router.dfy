/** Routing a message to a primary role and its support roles. */
module Router {
  import opened Common
  import opened Text
  import opened Roles

  datatype RouteInput = RouteInput(
    message: string, domainId: Option<string>, action: Option<RoleAction>, maxRoles: nat)

  /** Scores count half points: four per keyword, two for the action, one for the domain. */
  datatype RoleScore = RoleScore(roleId: string, runtimeRole: string, score: nat, keywordHits: nat)

  datatype RoleRoute = RoleRoute(
    primaryRole: string, primaryRuntimeRole: string, supportRoles: seq<string>, supportRuntimeRoles: seq<string>,
    scores: seq<RoleScore>)

  function KeywordHits(keywords: seq<string>, message: string, lower: string -> string): nat {
    if keywords == [] then 0
    else (if Contains(message, lower(keywords[0])) then 1 else 0) + KeywordHits(keywords[1..], message, lower)
  }

  /** `lower` stands for the conversion to lower case. */
  function ScoreRole(r: Role, input: RouteInput, lower: string -> string): RoleScore {
    var hits := KeywordHits(r.keywords, lower(input.message), lower);
    var signal := 4 * hits + (if input.action.Some? && input.action.value in r.preferredActions then 2 else 0);
    var domain := if signal > 0 && input.domainId.GetOr("domain.general") in r.domains then 1 else 0;
    RoleScore(r.id, r.runtimeRole, signal + domain, hits)
  }

  /**
   * One keyword outweighs everything else, and a role scores at all only by a keyword or its action. So
   * equal scores mean equal keyword hits, and the comparison by hits never decides between two roles.
   */
  lemma KeywordsDecide(a: Role, b: Role, input: RouteInput, lower: string -> string)
    ensures var x, y := ScoreRole(a, input, lower), ScoreRole(b, input, lower);
            && (x.keywordHits > y.keywordHits ==> x.score > y.score)
            && (x.score == y.score ==> x.keywordHits == y.keywordHits)
            && (x.score == 0 <==> x.keywordHits == 0 && !(input.action.Some? && input.action.value in a.preferredActions))
  {
    hide KeywordHits;
  }

  /** `at` lists the positions of the keywords that occur in the message. */
  ghost predicate Occurring(keywords: seq<string>, message: string, lower: string -> string, at: seq<nat>) {
    && (forall i, j :: 0 <= i < j < |at| ==> at[i] < at[j])
    && forall k: nat :: k in at <==> k < |keywords| && Occurs(message, lower(keywords[k]))
  }

  /** The hits count the keywords that occur, each once. */
  lemma {:induction false} HitsExactly(keywords: seq<string>, message: string, lower: string -> string) returns (at: seq<nat>)
    ensures Occurring(keywords, message, lower, at) && |at| == KeywordHits(keywords, message, lower)
    decreases |keywords|
  {
    if keywords == [] {
      at := [];
    } else {
      var n := |keywords| - 1;
      var earlier := HitsExactly(keywords[..n], message, lower);
      HitsOfLast(keywords, message, lower);
      ContainsExactly(message, lower(keywords[n]));
      hide Contains, KeywordHits, Occurring, Occurs;
      at := if Contains(message, lower(keywords[n])) then earlier + [n] else earlier;
      OccurringStep(keywords, message, lower, earlier);
    }
  }

  lemma OccurringStep(keywords: seq<string>, message: string, lower: string -> string, earlier: seq<nat>)
    requires keywords != [] && Occurring(keywords[..|keywords| - 1], message, lower, earlier)
    ensures Occurring(keywords, message, lower,
                      if Occurs(message, lower(keywords[|keywords| - 1])) then earlier + [|keywords| - 1] else earlier)
  {
    hide Occurs;
    var n := |keywords| - 1;
    var at: seq<nat> := if Occurs(message, lower(keywords[n])) then earlier + [n] else earlier;
    forall k: nat
      ensures k in at <==> k < |keywords| && Occurs(message, lower(keywords[k]))
    {
      assert k in at <==> k in earlier || (k == n && Occurs(message, lower(keywords[n])));
      if k < n {
        assert keywords[..n][k] == keywords[k];
      }
    }
    assert forall i :: 0 <= i < |earlier| ==> earlier[i] in earlier;
  }

  lemma {:induction false} HitsOfLast(keywords: seq<string>, message: string, lower: string -> string)
    requires keywords != []
    ensures KeywordHits(keywords, message, lower)
         == KeywordHits(keywords[..|keywords| - 1], message, lower)
            + if Contains(message, lower(keywords[|keywords| - 1])) then 1 else 0
  {
    hide Contains;
    if |keywords| > 1 {
      HitsOfLast(keywords[1..], message, lower);
      assert keywords[1..][..|keywords| - 2] == keywords[..|keywords| - 1][1..];
    }
  }

  predicate Prefers(r: Role, input: RouteInput) {
    exists i :: 0 <= i < |r.preferredActions| && input.action == Some(r.preferredActions[i])
  }

  /** Without a domain the input belongs to the general one. */
  predicate AtHome(r: Role, input: RouteInput) {
    exists i :: 0 <= i < |r.domains| && r.domains[i] == if input.domainId.Some? then input.domainId.value else "domain.general"
  }

  /** In points: two for each keyword that occurs, one for the action, and half of one for the domain of a role that has any. */
  lemma ScoreExactly(r: Role, input: RouteInput, lower: string -> string) returns (at: seq<nat>)
    ensures Occurring(r.keywords, lower(input.message), lower, at)
    ensures var s := ScoreRole(r, input, lower);
            && s.roleId == r.id && s.runtimeRole == r.runtimeRole && s.keywordHits == |at|
            && (s.score as real) / 2.0
               == 2.0 * (|at| as real) + (if Prefers(r, input) then 1.0 else 0.0)
                  + (if (|at| > 0 || Prefers(r, input)) && AtHome(r, input) then 0.5 else 0.0)
  {
    at := HitsExactly(r.keywords, lower(input.message), lower);
    hide KeywordHits, Occurring;
  }

  function ScoreAll(roles: seq<Role>, input: RouteInput, lower: string -> string): (s: seq<RoleScore>)
    ensures |s| == |roles|
  {
    if roles == [] then [] else [ScoreRole(roles[0], input, lower)] + ScoreAll(roles[1..], input, lower)
  }

  const MAX_PRIORITY: nat := 0xFFFF_FFFF

  function RolePriority(catalog: seq<Role>, roleId: string): nat {
    if catalog == [] then MAX_PRIORITY
    else if catalog[0].id == roleId then catalog[0].priority
    else RolePriority(catalog[1..], roleId)
  }

  /** Higher score first, then more keyword hits, then the smaller priority number. */
  predicate Precedes(catalog: seq<Role>, a: RoleScore, b: RoleScore) {
    if a.score != b.score then a.score > b.score
    else if a.keywordHits != b.keywordHits then a.keywordHits > b.keywordHits
    else RolePriority(catalog, a.roleId) < RolePriority(catalog, b.roleId)
  }

  function InsertScore(catalog: seq<Role>, s: RoleScore, sorted: seq<RoleScore>): seq<RoleScore> {
    if sorted == [] || Precedes(catalog, s, sorted[0]) then [s] + sorted
    else [sorted[0]] + InsertScore(catalog, s, sorted[1..])
  }

  /** A stable sort. */
  function SortScores(catalog: seq<Role>, scores: seq<RoleScore>): seq<RoleScore>
    decreases |scores|
  {
    if scores == [] then []
    else InsertScore(catalog, scores[|scores| - 1], SortScores(catalog, scores[..|scores| - 1]))
  }

  function FindRuntime(catalog: seq<Role>, runtimeRole: string): (r: Option<Role>)
    ensures r.Some? ==> r.value in catalog && r.value.runtimeRole == runtimeRole
    ensures r.None? ==> forall x :: x in catalog ==> x.runtimeRole != runtimeRole
  {
    if catalog == [] then None
    else if catalog[0].runtimeRole == runtimeRole then Some(catalog[0])
    else FindRuntime(catalog[1..], runtimeRole)
  }

  function Fallback(catalog: seq<Role>): (r: Role)
    requires catalog != []
    ensures r in catalog
  {
    if FindRuntime(catalog, "chat").Some? then FindRuntime(catalog, "chat").value
    else if FindRuntime(catalog, "ops").Some? then FindRuntime(catalog, "ops").value
    else catalog[0]
  }

  /** Without a scoring role `chat` answers, or else `ops`, or else the first role. */
  lemma FallbackExactly(catalog: seq<Role>)
    requires catalog != []
    ensures var role, names := Fallback(catalog), set r | r in catalog :: r.runtimeRole;
            && ("chat" in names ==> role.runtimeRole == "chat")
            && ("chat" !in names && "ops" in names ==> role.runtimeRole == "ops")
            && ("chat" !in names && "ops" !in names ==> role == catalog[0])
  {
  }

  /** The other positive scores, in order. */
  function Supporting(scored: seq<RoleScore>, primaryId: string): seq<RoleScore> {
    if scored == [] then []
    else (if scored[0].roleId != primaryId && scored[0].score > 0 then [scored[0]] else []) + Supporting(scored[1..], primaryId)
  }

  function Cut<T>(s: seq<T>, n: nat): seq<T> {
    if n <= |s| then s[..n] else s
  }

  function RoleIds(scores: seq<RoleScore>): (ids: seq<string>)
    ensures |ids| == |scores|
  {
    if scores == [] then [] else [scores[0].roleId] + RoleIds(scores[1..])
  }

  function RuntimeRolesOf(scores: seq<RoleScore>): (names: seq<string>)
    ensures |names| == |scores|
  {
    if scores == [] then [] else [scores[0].runtimeRole] + RuntimeRolesOf(scores[1..])
  }

  function Route(catalog: seq<Role>, input: RouteInput, lower: string -> string): RoleRoute
    requires catalog != []
  {
    var maxRoles := if input.maxRoles < 1 then 1 else input.maxRoles;
    var scored := SortScores(catalog, ScoreAll(catalog, input, lower));
    var primary :=
      if scored != [] && scored[0].score > 0 then scored[0]
      else RoleScore(Fallback(catalog).id, Fallback(catalog).runtimeRole, 0, 0);
    var support := Cut(Supporting(scored, primary.roleId), maxRoles - 1);
    RoleRoute(primary.roleId, primary.runtimeRole, RoleIds(support), RuntimeRolesOf(support), scored)
  }

  // ---------------------------------------------------------------- the order of the roles

  /** `a` outranks `b` for the input. */
  predicate Better(a: Role, b: Role, input: RouteInput, lower: string -> string) {
    var x, y := ScoreRole(a, input, lower), ScoreRole(b, input, lower);
    if x.score != y.score then x.score > y.score
    else if x.keywordHits != y.keywordHits then x.keywordHits > y.keywordHits
    else a.priority < b.priority
  }

  /** More keywords decide, then the preferred action, then the domain of a role that scores, then the priority. */
  lemma BetterExactly(a: Role, b: Role, input: RouteInput, lower: string -> string)
    ensures var x, y := ScoreRole(a, input, lower).keywordHits, ScoreRole(b, input, lower).keywordHits;
            Better(a, b, input, lower) <==>
              if x != y then x > y
              else if Prefers(a, input) != Prefers(b, input) then Prefers(a, input)
              else if (x > 0 || Prefers(a, input)) && AtHome(a, input) != AtHome(b, input) then AtHome(a, input)
              else a.priority < b.priority
  {
    hide KeywordHits;
  }

  ghost predicate UniqueRoleIds(roles: seq<Role>) {
    forall i, j :: 0 <= i < j < |roles| ==> roles[i].id != roles[j].id
  }

  lemma {:induction false} PriorityOf(catalog: seq<Role>, r: Role)
    requires UniqueRoleIds(catalog) && r in catalog
    ensures RolePriority(catalog, r.id) == r.priority
  {
    if r != catalog[0] {
      PriorityOf(catalog[1..], r);
    }
  }

  lemma PrecedesIsBetter(catalog: seq<Role>, a: Role, b: Role, input: RouteInput, lower: string -> string)
    requires UniqueRoleIds(catalog) && a in catalog && b in catalog
    ensures Precedes(catalog, ScoreRole(a, input, lower), ScoreRole(b, input, lower)) <==> Better(a, b, input, lower)
  {
    PriorityOf(catalog, a);
    PriorityOf(catalog, b);
  }

  lemma BetterOrders(a: Role, b: Role, c: Role, input: RouteInput, lower: string -> string)
    ensures Better(a, b, input, lower) ==> !Better(b, a, input, lower)
    ensures Better(a, b, input, lower) && Better(b, c, input, lower) ==> Better(a, c, input, lower)
    ensures !Better(b, a, input, lower) && !Better(c, b, input, lower) ==> !Better(c, a, input, lower)
  {
    hide ScoreRole;
  }

  function InsertRole(r: Role, sorted: seq<Role>, input: RouteInput, lower: string -> string): seq<Role> {
    if sorted == [] || Better(r, sorted[0], input, lower) then [r] + sorted
    else [sorted[0]] + InsertRole(r, sorted[1..], input, lower)
  }

  function SortRoles(roles: seq<Role>, input: RouteInput, lower: string -> string): seq<Role>
    decreases |roles|
  {
    if roles == [] then []
    else InsertRole(roles[|roles| - 1], SortRoles(roles[..|roles| - 1], input, lower), input, lower)
  }

  ghost predicate InRank(roles: seq<Role>, input: RouteInput, lower: string -> string) {
    forall i, j :: 0 <= i < j < |roles| ==> !Better(roles[j], roles[i], input, lower)
  }

  lemma {:induction false} InsertRoleMultiset(r: Role, sorted: seq<Role>, input: RouteInput, lower: string -> string)
    ensures multiset(InsertRole(r, sorted, input, lower)) == multiset(sorted) + multiset{r}
  {
    hide Better;
    if sorted != [] && !Better(r, sorted[0], input, lower) {
      InsertRoleMultiset(r, sorted[1..], input, lower);
      assert sorted == [sorted[0]] + sorted[1..];
    }
  }

  lemma {:induction false} SortRolesMultiset(roles: seq<Role>, input: RouteInput, lower: string -> string)
    ensures multiset(SortRoles(roles, input, lower)) == multiset(roles)
    decreases |roles|
  {
    if roles != [] {
      var n := |roles| - 1;
      SortRolesMultiset(roles[..n], input, lower);
      InsertRoleMultiset(roles[n], SortRoles(roles[..n], input, lower), input, lower);
      assert roles == roles[..n] + [roles[n]];
    }
  }

  lemma InSortRoles(roles: seq<Role>, input: RouteInput, lower: string -> string, r: Role)
    ensures r in SortRoles(roles, input, lower) <==> r in roles
  {
    SortRolesMultiset(roles, input, lower);
    assert r in SortRoles(roles, input, lower) <==> r in multiset(SortRoles(roles, input, lower));
    assert r in roles <==> r in multiset(roles);
  }

  lemma {:induction false} InsertRoleRanks(r: Role, sorted: seq<Role>, input: RouteInput, lower: string -> string)
    requires InRank(sorted, input, lower)
    ensures InRank(InsertRole(r, sorted, input, lower), input, lower)
  {
    hide Better;
    if sorted != [] {
      if Better(r, sorted[0], input, lower) {
        BetterOrders(r, sorted[0], r, input, lower);
        forall j | 1 <= j < |sorted|
          ensures !Better(sorted[j], r, input, lower)
        {
          BetterOrders(sorted[j], r, sorted[0], input, lower);
        }
      } else {
        InsertRoleRanks(r, sorted[1..], input, lower);
        InsertRoleMultiset(r, sorted[1..], input, lower);
        var tail := InsertRole(r, sorted[1..], input, lower);
        forall j | 0 <= j < |tail|
          ensures !Better(tail[j], sorted[0], input, lower)
        {
          assert tail[j] in multiset(tail);
          assert tail[j] == r || tail[j] in sorted[1..];
        }
      }
    }
  }

  lemma {:induction false} SortRolesRanks(roles: seq<Role>, input: RouteInput, lower: string -> string)
    ensures InRank(SortRoles(roles, input, lower), input, lower)
    decreases |roles|
  {
    hide Better;
    if roles != [] {
      SortRolesRanks(roles[..|roles| - 1], input, lower);
      InsertRoleRanks(roles[|roles| - 1], SortRoles(roles[..|roles| - 1], input, lower), input, lower);
    }
  }

  lemma {:induction false} InsertRoleUnique(r: Role, sorted: seq<Role>, input: RouteInput, lower: string -> string)
    requires UniqueRoleIds(sorted) && forall s :: s in sorted ==> s.id != r.id
    ensures UniqueRoleIds(InsertRole(r, sorted, input, lower))
  {
    hide Better;
    if sorted != [] && !Better(r, sorted[0], input, lower) {
      InsertRoleUnique(r, sorted[1..], input, lower);
      InsertRoleMultiset(r, sorted[1..], input, lower);
      var tail := InsertRole(r, sorted[1..], input, lower);
      forall j | 0 <= j < |tail|
        ensures tail[j].id != sorted[0].id
      {
        assert tail[j] in multiset(tail);
        assert tail[j] == r || tail[j] in sorted[1..];
      }
    }
  }

  lemma {:induction false} SortRolesUnique(roles: seq<Role>, input: RouteInput, lower: string -> string)
    requires UniqueRoleIds(roles)
    ensures UniqueRoleIds(SortRoles(roles, input, lower))
    decreases |roles|
  {
    if roles != [] {
      var n := |roles| - 1;
      SortRolesUnique(roles[..n], input, lower);
      forall s | s in SortRoles(roles[..n], input, lower)
        ensures s.id != roles[n].id
      {
        InSortRoles(roles[..n], input, lower, s);
      }
      InsertRoleUnique(roles[n], SortRoles(roles[..n], input, lower), input, lower);
    }
  }

  /** The stable sort leaves a ranked list as it is. */
  lemma {:induction false} SortRanked(roles: seq<Role>, input: RouteInput, lower: string -> string)
    requires InRank(roles, input, lower)
    ensures SortRoles(roles, input, lower) == roles
    decreases |roles|
  {
    hide Better;
    if roles != [] {
      var n := |roles| - 1;
      SortRanked(roles[..n], input, lower);
      InsertRoleLast(roles[n], roles[..n], input, lower);
      assert roles == roles[..n] + [roles[n]];
    }
  }

  lemma {:induction false} InsertRoleLast(r: Role, sorted: seq<Role>, input: RouteInput, lower: string -> string)
    requires forall i :: 0 <= i < |sorted| ==> !Better(r, sorted[i], input, lower)
    ensures InsertRole(r, sorted, input, lower) == sorted + [r]
  {
    hide Better;
    if sorted != [] {
      InsertRoleLast(r, sorted[1..], input, lower);
    }
  }

  // ---------------------------------------------------------------- sorting scores is sorting roles

  lemma {:induction false} ScoreAllAt(roles: seq<Role>, input: RouteInput, lower: string -> string)
    ensures forall i :: 0 <= i < |roles| ==> ScoreAll(roles, input, lower)[i] == ScoreRole(roles[i], input, lower)
  {
    hide ScoreRole;
    if roles != [] {
      ScoreAllAt(roles[1..], input, lower);
    }
  }

  lemma {:induction false} InsertAgrees(
    catalog: seq<Role>, r: Role, sorted: seq<Role>, input: RouteInput, lower: string -> string)
    requires UniqueRoleIds(catalog) && r in catalog && forall x :: x in sorted ==> x in catalog
    ensures InsertScore(catalog, ScoreRole(r, input, lower), ScoreAll(sorted, input, lower))
         == ScoreAll(InsertRole(r, sorted, input, lower), input, lower)
  {
    hide Better, Precedes, ScoreRole, UniqueRoleIds;
    if sorted != [] {
      PrecedesIsBetter(catalog, r, sorted[0], input, lower);
      if !Better(r, sorted[0], input, lower) {
        InsertAgrees(catalog, r, sorted[1..], input, lower);
        assert ScoreAll(sorted, input, lower)[1..] == ScoreAll(sorted[1..], input, lower);
      }
    }
  }

  lemma {:induction false} SortAgrees(catalog: seq<Role>, roles: seq<Role>, input: RouteInput, lower: string -> string)
    requires UniqueRoleIds(catalog) && forall x :: x in roles ==> x in catalog
    ensures SortScores(catalog, ScoreAll(roles, input, lower)) == ScoreAll(SortRoles(roles, input, lower), input, lower)
    decreases |roles|
  {
    hide ScoreRole, UniqueRoleIds, InsertScore, InsertRole;
    if roles != [] {
      var n := |roles| - 1;
      ScoreAllAt(roles, input, lower);
      ScoreAllAt(roles[..n], input, lower);
      assert ScoreAll(roles, input, lower)[..n] == ScoreAll(roles[..n], input, lower);
      SortAgrees(catalog, roles[..n], input, lower);
      forall x | x in SortRoles(roles[..n], input, lower)
        ensures x in catalog
      {
        InSortRoles(roles[..n], input, lower, x);
      }
      InsertAgrees(catalog, roles[n], SortRoles(roles[..n], input, lower), input, lower);
    }
  }

  /** The route in terms of the ranked roles. */
  lemma RouteByRank(catalog: seq<Role>, input: RouteInput, lower: string -> string)
    requires catalog != [] && UniqueRoleIds(catalog)
    ensures Route(catalog, input, lower).scores == ScoreAll(SortRoles(catalog, input, lower), input, lower)
  {
    SortAgrees(catalog, catalog, input, lower);
  }

  /** Nobody outranks `roles[k]`, and it outranks everybody before it. */
  ghost predicate IsFirstBest(roles: seq<Role>, k: nat, input: RouteInput, lower: string -> string) {
    && k < |roles|
    && (forall j :: 0 <= j < |roles| ==> !Better(roles[j], roles[k], input, lower))
    && (forall j :: 0 <= j < k ==> Better(roles[k], roles[j], input, lower))
  }

  lemma {:induction false} SortHead(roles: seq<Role>, input: RouteInput, lower: string -> string) returns (k: nat)
    requires roles != []
    ensures IsFirstBest(roles, k, input, lower)
    ensures SortRoles(roles, input, lower) != [] && SortRoles(roles, input, lower)[0] == roles[k]
    decreases |roles|
  {
    hide Better;
    var n := |roles| - 1;
    var r, prefix := roles[n], roles[..n];
    assert roles == prefix + [r];
    BetterOrders(r, r, r, input, lower);
    if prefix == [] {
      k := 0;
    } else {
      var best := SortHead(prefix, input, lower);
      BetterOrders(r, prefix[best], r, input, lower);
      k := if Better(r, prefix[best], input, lower) then n else best;
      forall j | 0 <= j < n
        ensures Better(r, prefix[best], input, lower) ==> Better(r, prefix[j], input, lower) && !Better(prefix[j], r, input, lower)
      {
        BetterOrders(prefix[best], prefix[j], r, input, lower);
        BetterOrders(r, prefix[j], r, input, lower);
      }
    }
  }

  /** The primary is the first of the best roles if that one scores at all, and else the fallback. */
  lemma PrimaryIsBest(catalog: seq<Role>, input: RouteInput, lower: string -> string) returns (k: nat)
    requires catalog != [] && UniqueRoleIds(catalog)
    ensures IsFirstBest(catalog, k, input, lower)
    ensures
      var route := Route(catalog, input, lower);
      var primary := if ScoreRole(catalog[k], input, lower).score > 0 then catalog[k] else Fallback(catalog);
      route.primaryRole == primary.id && route.primaryRuntimeRole == primary.runtimeRole
  {
    k := SortHead(catalog, input, lower);
    RouteByRank(catalog, input, lower);
  }

  // ---------------------------------------------------------------- the score of a route

  function ScoreOfRole(scores: seq<RoleScore>, roleId: string): nat {
    if scores == [] then 0
    else if scores[0].roleId == roleId then scores[0].score
    else ScoreOfRole(scores[1..], roleId)
  }

  /** The score by which a route is accepted or refused, in half points. */
  function PrimaryScore(route: RoleRoute): nat {
    ScoreOfRole(route.scores, route.primaryRole)
  }

  lemma {:induction false} ScoreFound(roles: seq<Role>, r: Role, input: RouteInput, lower: string -> string)
    requires UniqueRoleIds(roles) && r in roles
    ensures ScoreOfRole(ScoreAll(roles, input, lower), r.id) == ScoreRole(r, input, lower).score
  {
    if r != roles[0] {
      assert ScoreAll(roles, input, lower)[1..] == ScoreAll(roles[1..], input, lower);
      ScoreFound(roles[1..], r, input, lower);
    }
  }

  /** The score of a route is the best score in the catalog, and its primary role has it. */
  lemma PrimaryScoreIsBest(catalog: seq<Role>, input: RouteInput, lower: string -> string)
    requires catalog != [] && UniqueRoleIds(catalog)
    ensures var score := PrimaryScore(Route(catalog, input, lower));
            && (forall r :: r in catalog ==> ScoreRole(r, input, lower).score <= score)
            && (exists r :: r in catalog && ScoreRole(r, input, lower).score == score)
  {
    var k := PrimaryIsBest(catalog, input, lower);
    var primary := if ScoreRole(catalog[k], input, lower).score > 0 then catalog[k] else Fallback(catalog);
    RouteByRank(catalog, input, lower);
    SortRolesUnique(catalog, input, lower);
    InSortRoles(catalog, input, lower, primary);
    ScoreFound(SortRoles(catalog, input, lower), primary, input, lower);
    hide ScoreRole, SortRoles, Route, Fallback;
    forall r | r in catalog
      ensures ScoreRole(r, input, lower).score <= ScoreRole(catalog[k], input, lower).score
    {
      var j :| 0 <= j < |catalog| && catalog[j] == r;
      assert !Better(catalog[j], catalog[k], input, lower);
    }
  }
}
