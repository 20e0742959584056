/** What a bundle loads: the newest matching records within a count and a character budget. */
module Bundles {
  import opened Common
  import opened Text
  import opened MemoryRecords
  import opened Compaction

  datatype Query = Query(
    scope: Scope, kinds: seq<Kind>, text: Option<string>, limit: nat, maxRecords: nat, maxChars: nat)

  datatype Bundle = Bundle(records: seq<Record>, summary: Option<string>)

  /** `lower` stands for the conversion to lower case. */
  predicate Matches(q: Query, lower: string -> string, r: Record) {
    && ScopeQueryMatches(q.scope, r.scope)
    && (q.kinds == [] || r.kind in q.kinds)
    && (q.text.None? || Contains(lower(r.content), lower(q.text.value)))
  }

  /** The matching records, newest position first. */
  function Candidates(records: seq<Record>, q: Query, lower: string -> string): seq<Record>
    decreases |records|
  {
    if records == [] then []
    else
      var n := |records| - 1;
      (if Matches(q, lower, records[n]) then [records[n]] else []) + Candidates(records[..n], q, lower)
  }

  function Limit(q: Query): nat {
    if q.limit <= q.maxRecords then q.limit else q.maxRecords
  }

  /** Takes candidates until the count or the characters run out; only a content over the budget is cut. */
  function Take(candidates: seq<Record>, budget: nat, limit: nat): seq<Record> {
    if candidates == [] || limit == 0 || budget == 0 then []
    else
      var first := candidates[0].(content := TruncateChars(candidates[0].content, budget));
      [first] + Take(candidates[1..], budget - |first.content|, limit - 1)
  }

  function FirstSummary(records: seq<Record>): Option<string> {
    if records == [] then None
    else if records[0].kind == SessionSummary then Some(records[0].content)
    else FirstSummary(records[1..])
  }

  function BundleOf(records: seq<Record>, q: Query, lower: string -> string): Bundle {
    var taken := Take(Candidates(records, q, lower), q.maxChars, Limit(q));
    Bundle(taken, FirstSummary(taken))
  }

  method LoadBundle(records: seq<Record>, q: Query, lower: string -> string) returns (bundle: Bundle)
    ensures bundle == BundleOf(records, q, lower)
  {
    hide Matches, Candidates, Take;
    var budget: nat, limit := q.maxChars, Limit(q);
    var taken: seq<Record> := [];
    var i := |records|;
    assert records[..i] == records;
    while i > 0 && |taken| < limit
      invariant 0 <= i <= |records| && |taken| <= limit
      invariant taken + Take(Candidates(records[..i], q, lower), budget, limit - |taken|)
             == Take(Candidates(records, q, lower), q.maxChars, limit)
    {
      CandidatesStep(records, q, lower, i);
      ghost var here := Candidates(records[..i], q, lower);
      i := i - 1;
      if !Matches(q, lower, records[i]) {
        assert here == Candidates(records[..i], q, lower);
        continue;
      }
      if budget == 0 {
        TakeNothing(here, 0, limit - |taken|);
        TakeNothing(Candidates(records[..i], q, lower), 0, limit - |taken|);
        continue;
      }
      TakeStep(here, taken, budget, limit);
      assert here[1..] == Candidates(records[..i], q, lower);
      var record := records[i];
      if |record.content| > budget {
        record := record.(content := TruncateChars(record.content, budget));
      }
      budget := budget - |record.content|;
      taken := taken + [record];
    }
    CandidatesNone(q, lower);
    assert i == 0 ==> records[..i] == [];
    TakeNothing(Candidates(records[..i], q, lower), budget, limit - |taken|);
    assert taken + [] == taken;
    var summary := FindSummary(taken);
    bundle := Bundle(taken, summary);
  }

  method FindSummary(taken: seq<Record>) returns (summary: Option<string>)
    ensures summary == FirstSummary(taken)
  {
    for k := 0 to |taken|
      invariant FirstSummary(taken) == FirstSummary(taken[k..])
    {
      if taken[k].kind == SessionSummary {
        return Some(taken[k].content);
      }
    }
    return None;
  }

  lemma CandidatesStep(records: seq<Record>, q: Query, lower: string -> string, i: nat)
    requires 0 < i <= |records|
    ensures Candidates(records[..i], q, lower)
         == (if Matches(q, lower, records[i - 1]) then [records[i - 1]] else []) + Candidates(records[..i - 1], q, lower)
  {
    hide Matches;
    assert records[..i][..i - 1] == records[..i - 1];
  }

  lemma CandidatesNone(q: Query, lower: string -> string)
    ensures Candidates([], q, lower) == []
  {
  }

  lemma TakeStep(candidates: seq<Record>, taken: seq<Record>, budget: nat, limit: nat)
    requires |taken| < limit && candidates != [] && budget > 0
    ensures
      var first := candidates[0].(content := TruncateChars(candidates[0].content, budget));
      && |first.content| <= budget
      && taken + Take(candidates, budget, limit - |taken|)
      == (taken + [first]) + Take(candidates[1..], budget - |first.content|, limit - |taken| - 1)
  {
    var first := candidates[0].(content := TruncateChars(candidates[0].content, budget));
    var rest := Take(candidates[1..], budget - |first.content|, limit - |taken| - 1);
    assert taken + ([first] + rest) == (taken + [first]) + rest;
  }

  lemma TakeNothing(candidates: seq<Record>, budget: nat, limit: nat)
    ensures candidates == [] || budget == 0 || limit == 0 ==> Take(candidates, budget, limit) == []
  {
  }

  // ---------------------------------------------------------------- what a bundle is

  lemma {:induction false} InCandidates(records: seq<Record>, q: Query, lower: string -> string, r: Record)
    ensures r in Candidates(records, q, lower) <==> r in records && Matches(q, lower, r)
    decreases |records|
  {
    hide Matches;
    if records != [] {
      var n := |records| - 1;
      InCandidates(records[..n], q, lower, r);
      assert records == records[..n] + [records[n]];
    }
  }

  /** `taken` is a prefix of the candidates with at most its last content cut to a prefix. */
  ghost predicate CutPrefix(candidates: seq<Record>, taken: seq<Record>) {
    && |taken| <= |candidates|
    && (forall i :: 0 <= i < |taken| - 1 ==> taken[i] == candidates[i])
    && (taken != [] ==>
          var last, whole := taken[|taken| - 1], candidates[|taken| - 1];
          last.content <= whole.content && last == whole.(content := last.content))
  }

  /** The budget and the limit hold, something was left before each record, and only they end the bundle. */
  ghost predicate Exhausts(candidates: seq<Record>, taken: seq<Record>, budget: nat, limit: nat) {
    && |taken| <= limit && Chars(taken) <= budget
    && (taken != [] ==> Chars(taken[..|taken| - 1]) < budget)
    && (|taken| < |candidates| ==> |taken| == limit || Chars(taken) == budget)
    && (taken != [] && |taken| <= |candidates| && taken[|taken| - 1] != candidates[|taken| - 1] ==> Chars(taken) == budget)
  }

  lemma {:induction false} TakeIsCutPrefix(candidates: seq<Record>, budget: nat, limit: nat)
    ensures CutPrefix(candidates, Take(candidates, budget, limit))
  {
    if candidates != [] && limit > 0 && budget > 0 {
      var first := candidates[0].(content := TruncateChars(candidates[0].content, budget));
      var rest := Take(candidates[1..], budget - |first.content|, limit - 1);
      TakeIsCutPrefix(candidates[1..], budget - |first.content|, limit - 1);
      if rest != [] {
        PrefixPrepend(candidates, first, rest);
      }
    }
  }

  lemma PrefixPrepend(candidates: seq<Record>, first: Record, rest: seq<Record>)
    requires candidates != [] && rest != [] && candidates[0] == first && CutPrefix(candidates[1..], rest)
    ensures CutPrefix(candidates, [first] + rest)
  {
    var taken := [first] + rest;
    assert forall i :: 1 <= i < |taken| ==> taken[i] == rest[i - 1];
  }

  lemma {:induction false} TakeExhausts(candidates: seq<Record>, budget: nat, limit: nat)
    ensures Exhausts(candidates, Take(candidates, budget, limit), budget, limit)
  {
    if candidates != [] && limit > 0 && budget > 0 {
      var first := candidates[0].(content := TruncateChars(candidates[0].content, budget));
      var rest := Take(candidates[1..], budget - |first.content|, limit - 1);
      TakeExhausts(candidates[1..], budget - |first.content|, limit - 1);
      ExhaustsPrepend(candidates, first, rest, budget, limit);
    }
  }

  lemma ExhaustsPrepend(candidates: seq<Record>, first: Record, rest: seq<Record>, budget: nat, limit: nat)
    requires candidates != [] && limit > 0 && budget > 0 && |first.content| <= budget
    requires first == candidates[0] || |first.content| == budget
    requires Exhausts(candidates[1..], rest, budget - |first.content|, limit - 1)
    ensures Exhausts(candidates, [first] + rest, budget, limit)
  {
    var taken := [first] + rest;
    CharsConcat([first], rest);
    if rest != [] {
      assert taken[..|taken| - 1] == [first] + rest[..|rest| - 1];
      CharsConcat([first], rest[..|rest| - 1]);
    }
  }

  /** These two properties leave no choice. */
  lemma {:induction false} BundleUnique(candidates: seq<Record>, a: seq<Record>, b: seq<Record>, budget: nat,
      limit: nat)
    requires CutPrefix(candidates, a) && Exhausts(candidates, a, budget, limit)
    requires CutPrefix(candidates, b) && Exhausts(candidates, b, budget, limit)
    ensures a == b
  {
    NoShorter(candidates, a, b, budget, limit);
    NoShorter(candidates, b, a, budget, limit);
    if a != [] {
      var n := |a| - 1;
      assert a[..n] == b[..n];
      CharsConcat(a[..n], [a[n]]);
      CharsConcat(b[..n], [b[n]]);
      assert a == a[..n] + [a[n]] && b == b[..n] + [b[n]];
      SameCut(candidates[n], a[n], b[n]);
    }
  }

  lemma SameCut(whole: Record, x: Record, y: Record)
    requires x.content <= whole.content && x == whole.(content := x.content)
    requires y.content <= whole.content && y == whole.(content := y.content)
    ensures |x.content| == |y.content| ==> x == y
  {
    if |x.content| == |y.content| {
      assert x.content == whole.content[..|x.content|] == y.content;
    }
  }

  lemma NoShorter(candidates: seq<Record>, a: seq<Record>, b: seq<Record>, budget: nat, limit: nat)
    requires CutPrefix(candidates, a) && Exhausts(candidates, a, budget, limit)
    requires CutPrefix(candidates, b) && Exhausts(candidates, b, budget, limit)
    ensures |a| >= |b|
  {
    if |a| < |b| {
      var n := |b| - 1;
      assert Chars(a) == budget;
      PrefixChars(candidates, a, b);
    }
  }

  lemma PrefixChars(candidates: seq<Record>, a: seq<Record>, b: seq<Record>)
    requires CutPrefix(candidates, a) && CutPrefix(candidates, b) && |a| < |b|
    ensures Chars(b[..|b| - 1]) >= Chars(a)
  {
    if a != [] {
      var n := |a| - 1;
      var whole := b[..|b| - 1];
      CharsSplit(a, n);
      CharsSplit(whole, n);
      assert whole[..n] == a[..n];
      assert whole[n] == candidates[n];
      assert Chars(a[n + 1..]) == 0;
    }
  }

  lemma CharsSplit(records: seq<Record>, n: nat)
    requires n < |records|
    ensures Chars(records) == Chars(records[..n]) + |records[n].content| + Chars(records[n + 1..])
  {
    assert records == records[..n] + ([records[n]] + records[n + 1..]);
    CharsConcat(records[..n], [records[n]] + records[n + 1..]);
    CharsConcat([records[n]], records[n + 1..]);
  }

  // ---------------------------------------------------------------- a bundle in terms of the stored records

  /** Both are set, and to different values. */
  predicate Differs(wanted: Option<string>, field: Option<string>) {
    wanted.Some? && field.Some? && wanted.value != field.value
  }

  /** No scope field contradicts the query, the kind is among the wanted ones, and the text occurs. */
  ghost predicate Fits(q: Query, lower: string -> string, r: Record) {
    && !Differs(q.scope.userId, r.scope.userId) && !Differs(q.scope.workspaceId, r.scope.workspaceId)
    && !Differs(q.scope.agentId, r.scope.agentId) && !Differs(q.scope.sessionId, r.scope.sessionId)
    && !Differs(q.scope.taskId, r.scope.taskId)
    && (q.kinds != [] ==> r.kind in q.kinds)
    && (q.text.Some? ==> Occurs(lower(r.content), lower(q.text.value)))
  }

  lemma MatchesFits(q: Query, lower: string -> string, r: Record)
    ensures Matches(q, lower, r) <==> Fits(q, lower, r)
  {
    hide Contains;
    if q.text.Some? {
      ContainsExactly(lower(r.content), lower(q.text.value));
    }
  }

  /** `at` lists the positions of all fitting records, the newest first. */
  ghost predicate Newest(records: seq<Record>, q: Query, lower: string -> string, at: seq<nat>) {
    && (forall i, j :: 0 <= i < j < |at| ==> at[i] > at[j])
    && (forall i :: 0 <= i < |at| ==> at[i] < |records| && Fits(q, lower, records[at[i]]))
    && (forall k: nat :: k < |records| && Fits(q, lower, records[k]) ==> k in at)
  }

  /** `found` are the records at these positions. */
  ghost predicate StandAt(records: seq<Record>, found: seq<Record>, at: seq<nat>) {
    |at| == |found| && forall i :: 0 <= i < |at| ==> at[i] < |records| && found[i] == records[at[i]]
  }

  lemma {:induction false} CandidatesNewest(records: seq<Record>, q: Query, lower: string -> string) returns (at: seq<nat>)
    ensures Newest(records, q, lower, at) && StandAt(records, Candidates(records, q, lower), at)
    decreases |records|
  {
    hide Matches, Fits, Newest, StandAt, Candidates;
    var n := |records| - 1;
    if records == [] {
      at := [];
      NothingNewest(q, lower);
    } else {
      var earlier := CandidatesNewest(records[..n], q, lower);
      MatchesFits(q, lower, records[n]);
      CandidatesStep(records, q, lower, n + 1);
      assert records[..n + 1] == records;
      at := if Matches(q, lower, records[n]) then [n] + earlier else earlier;
      NewestStep(records, q, lower, earlier);
      StandStep(records, Candidates(records[..n], q, lower), earlier, Matches(q, lower, records[n]));
    }
  }

  lemma NothingNewest(q: Query, lower: string -> string)
    ensures Newest([], q, lower, []) && StandAt([], Candidates([], q, lower), [])
  {
  }

  /** Positions in a list without its last element are positions in the list. */
  lemma FrontAt(records: seq<Record>)
    requires records != []
    ensures forall k: nat :: k < |records| - 1 ==> records[..|records| - 1][k] == records[k]
  {
  }

  lemma NewestStep(records: seq<Record>, q: Query, lower: string -> string, earlier: seq<nat>)
    requires records != [] && Newest(records[..|records| - 1], q, lower, earlier)
    ensures Newest(records, q, lower, if Fits(q, lower, records[|records| - 1]) then [|records| - 1] + earlier else earlier)
  {
    hide Fits;
    FrontAt(records);
    if Fits(q, lower, records[|records| - 1]) {
      NewestTaken(records, q, lower, earlier, [|records| - 1] + earlier);
    }
  }

  lemma NewestTaken(records: seq<Record>, q: Query, lower: string -> string, earlier: seq<nat>, at: seq<nat>)
    requires records != [] && Newest(records[..|records| - 1], q, lower, earlier)
    requires Fits(q, lower, records[|records| - 1]) && at == [|records| - 1] + earlier
    ensures Newest(records, q, lower, at)
  {
    hide Fits;
    FrontAt(records);
    var n := |records| - 1;
    assert at[0] == n && forall i :: 0 < i < |at| ==> at[i] == earlier[i - 1];
    assert forall k: nat :: k in at <==> k == n || k in earlier;
  }

  lemma StandStep(records: seq<Record>, found: seq<Record>, earlier: seq<nat>, more: bool)
    requires records != [] && StandAt(records[..|records| - 1], found, earlier)
    ensures StandAt(records, (if more then [records[|records| - 1]] else []) + found,
                    if more then [|records| - 1] + earlier else earlier)
  {
    FrontAt(records);
    if more {
      var all, at := [records[|records| - 1]] + found, [|records| - 1] + earlier;
      assert forall i :: 0 < i < |at| ==> at[i] == earlier[i - 1] && all[i] == found[i - 1];
    } else {
      assert [] + found == found;
    }
  }

  /** From the newest on, fitting records without a gap, and all of them if `complete`. */
  ghost predicate Unbroken(records: seq<Record>, q: Query, lower: string -> string, at: seq<nat>, complete: bool) {
    && (forall i, j :: 0 <= i < j < |at| ==> at[i] > at[j])
    && (forall i :: 0 <= i < |at| ==> at[i] < |records| && Fits(q, lower, records[at[i]]))
    && (forall k: nat :: k < |records| && Fits(q, lower, records[k]) && k !in at ==>
          !complete && (at != [] ==> k < at[|at| - 1]))
  }

  /** The records at these positions, the last one perhaps cut to a prefix that uses the budget up. */
  ghost predicate CutOf(records: seq<Record>, taken: seq<Record>, at: seq<nat>, budget: nat) {
    && |at| == |taken| && (forall i :: 0 <= i < |at| ==> at[i] < |records|)
    && (forall i :: 0 <= i < |at| - 1 ==> taken[i] == records[at[i]])
    && (at != [] ==>
          var last, whole := taken[|at| - 1], records[at[|at| - 1]];
          last.content <= whole.content && last == whole.(content := last.content)
          && (last != whole ==> Chars(taken) == budget))
  }

  /**
   * A bundle is the newest fitting records, with none left out in between and all of them whole but the last,
   * which may be cut. Count and characters are bounded, and a fitting record is left out only when the count
   * or the characters are used up.
   */
  lemma BundleExactly(records: seq<Record>, q: Query, lower: string -> string) returns (at: seq<nat>)
    ensures
      var taken := BundleOf(records, q, lower).records;
      && CutOf(records, taken, at, q.maxChars)
      && |taken| <= q.limit && |taken| <= q.maxRecords && Chars(taken) <= q.maxChars
      && Unbroken(records, q, lower, at, |taken| != q.limit && |taken| != q.maxRecords && Chars(taken) != q.maxChars)
  {
    hide Fits, Take, Candidates, Chars, Newest, StandAt, CutPrefix, Exhausts, Unbroken, CutOf;
    var candidates, taken := Candidates(records, q, lower), BundleOf(records, q, lower).records;
    var all := CandidatesNewest(records, q, lower);
    TakeIsCutPrefix(candidates, q.maxChars, Limit(q));
    TakeExhausts(candidates, q.maxChars, Limit(q));
    TakenAt(records, candidates, taken, all, q.maxChars, Limit(q));
    at := all[..|taken|];
    FirstOfNewest(records, q, lower, all, |taken|, |taken| != q.limit && |taken| != q.maxRecords && Chars(taken) != q.maxChars);
  }

  lemma TakenAt(records: seq<Record>, candidates: seq<Record>, taken: seq<Record>, all: seq<nat>, budget: nat, limit: nat)
    requires StandAt(records, candidates, all) && CutPrefix(candidates, taken) && Exhausts(candidates, taken, budget, limit)
    ensures |taken| <= |all| && CutOf(records, taken, all[..|taken|], budget)
    ensures |taken| <= limit && Chars(taken) <= budget
    ensures |taken| != limit && Chars(taken) != budget ==> |taken| == |all|
  {
  }

  lemma FirstOfNewest(records: seq<Record>, q: Query, lower: string -> string, all: seq<nat>, n: nat, complete: bool)
    requires Newest(records, q, lower, all) && n <= |all| && (complete ==> n == |all|)
    ensures Unbroken(records, q, lower, all[..n], complete)
  {
    hide Fits;
    var at := all[..n];
    forall k: nat | k < |records| && Fits(q, lower, records[k]) && k !in at
      ensures !complete && (at != [] ==> k < at[|at| - 1])
    {
      var i :| 0 <= i < |all| && all[i] == k;
      assert forall m :: 0 <= m < n ==> at[m] == all[m];
    }
  }

  /** The summary is the content of the first session summary in the bundle. */
  lemma {:induction false} SummaryExactly(records: seq<Record>)
    ensures match FirstSummary(records)
            case Some(content) =>
              exists k :: 0 <= k < |records| && records[k].kind == SessionSummary && records[k].content == content
                          && forall j :: 0 <= j < k ==> records[j].kind != SessionSummary
            case None => forall j :: 0 <= j < |records| ==> records[j].kind != SessionSummary
  {
    if records != [] && records[0].kind != SessionSummary {
      var rest := records[1..];
      SummaryExactly(rest);
      if FirstSummary(rest).Some? {
        var k :| 0 <= k < |rest| && rest[k].kind == SessionSummary && rest[k].content == FirstSummary(rest).value
                 && forall j :: 0 <= j < k ==> rest[j].kind != SessionSummary;
        assert forall j :: 0 < j < k + 1 ==> records[j] == rest[j - 1];
        assert records[k + 1] == rest[k];
      }
    }
  }
}
