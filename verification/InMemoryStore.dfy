/** The in-memory store: one list of records that every write edits in place. */
module InMemoryStores {
  import opened Text
  import opened Normalization
  import opened MemoryRecords
  import opened Compaction
  import opened Upserts
  import opened Reload
  import opened Bundles
  import opened SessionMemory

  const NO_OUTCOME := Outcome(0, NO_STATS)

  function Sum(a: Outcome, b: Outcome): Outcome {
    Outcome(a.written + b.written, a.compaction.Plus(b.compaction))
  }

  class InMemoryMemoryStore {
    var records: seq<Record>
    const policy: Policy
    /** Every write since the store was created. */
    ghost var writes: seq<Write>

    ghost predicate Valid()
      reads this
    {
      records == After(writes, policy)
    }

    constructor WithPolicy(policy: Policy)
      ensures Valid() && this.policy == policy && records == [] && writes == []
    {
      this.policy := policy;
      records := [];
      writes := [];
    }

    constructor WithRecords(policy: Policy, stored: seq<Record>, times: seq<int>)
      requires |times| == |stored|
      ensures Valid() && this.policy == policy
      ensures writes == Replay(stored, times) && records == Reloaded(stored, times, policy)
    {
      hide After, Upsert;
      this.policy := policy;
      records := [];
      writes := [];
      new;
      EmptyRun(policy);
      for i := 0 to |stored|
        invariant Valid() && this.policy == policy && writes == Replay(stored, times)[..i]
      {
        var outcome := UpsertRecord(stored[i], times[i]);
      }
    }

    method UpsertRecord(record: Record, now: int) returns (outcome: Outcome)
      requires Valid()
      modifies `records, `writes
      ensures Valid() && writes == old(writes) + [Write(record, now)]
      ensures (records, outcome) == Upsert(old(records), policy, record, now)
      ensures Totals(writes, policy) == Sum(old(Totals(writes, policy)), outcome)
    {
      hide Members, Others, Compacted, KeyPosition, CompactRecord, GroupStats;
      LastWrite(writes, Write(record, now), policy);
      writes := writes + [Write(record, now)];
      var (compacted, stats) := CompactRecord(record, policy);
      if compacted.None? {
        return Outcome(0, stats);
      }
      var c := compacted.value;
      outcome := Outcome(1, stats);
      var existing := KeyPosition(records, c);
      if existing.Some? {
        records := records[existing.value := Merge(records[existing.value], c, now)];
        outcome := outcome.(compaction := outcome.compaction.Plus(NO_STATS.(merged := 1)));
      } else {
        records := records + [c];
      }
      var group := Members(records, GroupOf(c));
      var kept, groupStats := CompactScopeKind(group, policy);
      outcome := outcome.(compaction := outcome.compaction.Plus(groupStats));
      records := Others(records, GroupOf(c));
      records := records + kept;
    }

    /** Since the method began, exactly the drafts were written, each as one record, and `outcome` adds them to `total`. */
    twostate predicate Persisted(
      scope: Scope, drafts: seq<Draft>, stamps: nat -> Stamp, from: nat, total: Outcome, outcome: Outcome)
      reads this
    {
      && Valid() && writes == old(writes) + AsWrites(scope, drafts, stamps, from)
      && outcome.written == total.written + |drafts|
      && forall before :: old(Totals(writes, policy)) == Sum(before, total) ==> Totals(writes, policy) == Sum(before, outcome)
    }

    method PersistDraft(scope: Scope, d: Draft, at: Stamp, total: Outcome) returns (outcome: Outcome)
      requires Valid() && !IsBlank(d.content)
      modifies `records, `writes
      ensures Valid() && writes == old(writes) + [Stamped(scope, d, at)]
      ensures outcome.written == total.written + 1
      ensures forall before :: old(Totals(writes, policy)) == Sum(before, total) ==> Totals(writes, policy) == Sum(before, outcome)
    {
      hide After, Upsert, Totals, Sum, IsBlank;
      var w := Stamped(scope, d, at);
      WrittenOnce(records, policy, w.record, w.now);
      var step := UpsertRecord(w.record, w.now);
      outcome := Sum(total, step);
      SumWritten(total, step);
      forall before
        ensures Sum(Sum(before, total), step) == Sum(before, outcome)
      {
        SumAssociative(before, total, step);
      }
    }

    /** The blackboard, without its blank values. */
    method PersistBlackboard(scope: Scope, entries: seq<Entry>, stamps: nat -> Stamp, from: nat, total: Outcome)
      returns (outcome: Outcome, used: nat)
      requires Valid()
      modifies `records, `writes
      ensures Persisted(scope, BlackboardDrafts(entries), stamps, from, total, outcome) && used == from + |BlackboardDrafts(entries)|
    {
      hide After, Upsert, Totals, Sum, IsBlank, AsWrites, Valid;
      assert BlackboardDrafts(entries[..0]) == [];
      hide BlackboardDrafts;
      outcome, used := total, from;
      NothingPersisted(scope, stamps, from);
      for i := 0 to |entries|
        invariant Persisted(scope, BlackboardDrafts(entries[..i]), stamps, from, total, outcome)
        invariant used == from + |BlackboardDrafts(entries[..i])|
      {
        var entry := entries[i];
        BlackboardStep(entries, i);
        if IsBlank(entry.value) {
          continue;
        }
        AsWritesPush(scope, BlackboardDrafts(entries[..i]), BlackboardDraft(entry), stamps, from);
        outcome := PersistDraft(scope, BlackboardDraft(entry), stamps(used), outcome);
        used := used + 1;
      }
      assert entries[..|entries|] == entries;
    }

    /** The task graphs that have a root text. */
    method PersistGraphs(scope: Scope, graphs: seq<GraphSummary>, stamps: nat -> Stamp, from: nat, total: Outcome)
      returns (outcome: Outcome, used: nat)
      requires Valid()
      modifies `records, `writes
      ensures Persisted(scope, GraphDrafts(graphs), stamps, from, total, outcome) && used == from + |GraphDrafts(graphs)|
    {
      hide After, Upsert, Totals, Sum, IsBlank, AsWrites, Valid, FormatGraph;
      assert GraphDrafts(graphs[..0]) == [];
      hide GraphDrafts;
      outcome, used := total, from;
      NothingPersisted(scope, stamps, from);
      for i := 0 to |graphs|
        invariant Persisted(scope, GraphDrafts(graphs[..i]), stamps, from, total, outcome)
        invariant used == from + |GraphDrafts(graphs[..i])|
      {
        var graph := graphs[i];
        GraphStep(graphs, i);
        if IsBlank(graph.rootTask) {
          continue;
        }
        GraphSpeaks(graph);
        AsWritesPush(scope, GraphDrafts(graphs[..i]), GraphDraft(graph), stamps, from);
        outcome := PersistDraft(scope, GraphDraft(graph), stamps(used), outcome);
        used := used + 1;
      }
      assert graphs[..|graphs|] == graphs;
    }

    /** The role summaries that say something. */
    method PersistRoles(scope: Scope, roles: seq<RoleSummary>, stamps: nat -> Stamp, from: nat, total: Outcome)
      returns (outcome: Outcome, used: nat)
      requires Valid()
      modifies `records, `writes
      ensures Persisted(scope, RoleDrafts(roles), stamps, from, total, outcome) && used == from + |RoleDrafts(roles)|
    {
      hide After, Upsert, Totals, Sum, IsBlank, AsWrites, Valid, FormatRole;
      assert RoleDrafts(roles[..0]) == [];
      hide RoleDrafts;
      outcome, used := total, from;
      NothingPersisted(scope, stamps, from);
      for i := 0 to |roles|
        invariant Persisted(scope, RoleDrafts(roles[..i]), stamps, from, total, outcome)
        invariant used == from + |RoleDrafts(roles[..i])|
      {
        var role := roles[i];
        RoleStep(roles, i);
        if IsBlank(role.summary) && role.findings == [] && role.recommendations == [] {
          continue;
        }
        RoleSpeaks(role);
        AsWritesPush(scope, RoleDrafts(roles[..i]), RoleDraft(role), stamps, from);
        outcome := PersistDraft(scope, RoleDraft(role), stamps(used), outcome);
        used := used + 1;
      }
      assert roles[..|roles|] == roles;
    }

    method PersistClosing(scope: Scope, s: Snapshot, stamps: nat -> Stamp, from: nat, total: Outcome) returns (outcome: Outcome)
      requires Valid()
      modifies `records, `writes
      ensures Persisted(scope, ClosingDrafts(scope, s), stamps, from, total, outcome)
    {
      hide After, Upsert, Totals, Sum, IsBlank, AsWrites, Valid, FormatList;
      outcome := total;
      NothingPersisted(scope, stamps, from);
      ghost var drafts: seq<Draft> := [];
      if s.risks != [] {
        ListSpeaks(s.risks);
        AsWritesPush(scope, drafts, RisksDraft(scope, s), stamps, from);
        outcome := PersistDraft(scope, RisksDraft(scope, s), stamps(from), outcome);
        drafts := drafts + [RisksDraft(scope, s)];
      }
      assert Persisted(scope, drafts, stamps, from, total, outcome);
      if s.openQuestions != [] {
        ListSpeaks(s.openQuestions);
        AsWritesPush(scope, drafts, QuestionsDraft(scope, s), stamps, from);
        outcome := PersistDraft(scope, QuestionsDraft(scope, s), stamps(from + outcome.written - total.written), outcome);
        drafts := drafts + [QuestionsDraft(scope, s)];
      }
      assert Persisted(scope, drafts, stamps, from, total, outcome);
      if s.evaluationSummary.Some? && !IsBlank(s.evaluationSummary.value) {
        AsWritesPush(scope, drafts, EvaluationDraft(scope, s.evaluationSummary.value), stamps, from);
        outcome := PersistDraft(scope, EvaluationDraft(scope, s.evaluationSummary.value),
                                stamps(from + outcome.written - total.written), outcome);
        drafts := drafts + [EvaluationDraft(scope, s.evaluationSummary.value)];
      }
      assert drafts == ClosingDrafts(scope, s);
    }

    /**
     * Stores what a session leaves behind, part by part: its summary, its non-blank blackboard entries, its
     * task graphs, its role summaries, and its risks, open questions and evaluation.
     */
    method PersistSession(scope: Scope, s: Snapshot, stamps: nat -> Stamp) returns (outcome: Outcome)
      requires Valid()
      modifies `records, `writes
      ensures Persisted(scope, Drafts(scope, s), stamps, 0, NO_OUTCOME, outcome)
      ensures Totals(writes, policy) == Sum(old(Totals(writes, policy)), outcome)
      ensures outcome.written == 0 <==> IsBlank(s.summary) && IsBlank(s.finalOutput)
    {
      hide After, Upsert, Totals, Sum, IsBlank, BlackboardDrafts, GraphDrafts, RoleDrafts, ClosingDrafts, AsWrites, Valid;
      outcome := NO_OUTCOME;
      NothingPersisted(scope, stamps, 0);
      SumNothing(Totals(writes, policy));
      if IsBlank(s.summary) && IsBlank(s.finalOutput) {
        return;
      }
      ghost var drafts := [SummaryDraft(scope, s)];
      AsWritesPush(scope, [], SummaryDraft(scope, s), stamps, 0);
      outcome := PersistDraft(scope, SummaryDraft(scope, s), stamps(0), outcome);
      var used: nat := 1;
      assert [] + drafts == drafts && Persisted(scope, drafts, stamps, 0, NO_OUTCOME, outcome);
      AsWritesConcat(scope, drafts, BlackboardDrafts(s.blackboard), stamps, 0);
      outcome, used := PersistBlackboard(scope, s.blackboard, stamps, used, outcome);
      drafts := drafts + BlackboardDrafts(s.blackboard);
      assert Persisted(scope, drafts, stamps, 0, NO_OUTCOME, outcome);
      AsWritesConcat(scope, drafts, GraphDrafts(s.taskGraphs), stamps, 0);
      outcome, used := PersistGraphs(scope, s.taskGraphs, stamps, used, outcome);
      drafts := drafts + GraphDrafts(s.taskGraphs);
      assert Persisted(scope, drafts, stamps, 0, NO_OUTCOME, outcome);
      AsWritesConcat(scope, drafts, RoleDrafts(s.roleSummaries), stamps, 0);
      outcome, used := PersistRoles(scope, s.roleSummaries, stamps, used, outcome);
      drafts := drafts + RoleDrafts(s.roleSummaries);
      assert Persisted(scope, drafts, stamps, 0, NO_OUTCOME, outcome);
      AsWritesConcat(scope, drafts, ClosingDrafts(scope, s), stamps, 0);
      outcome := PersistClosing(scope, s, stamps, used, outcome);
    }

    method Load(q: Query, lower: string -> string) returns (bundle: Bundle)
      ensures bundle == BundleOf(records, q, lower)
    {
      bundle := LoadBundle(records, q, lower);
    }
  }

  lemma SumAssociative(a: Outcome, b: Outcome, c: Outcome)
    ensures Sum(Sum(a, b), c) == Sum(a, Sum(b, c))
  {
  }

  lemma SumNothing(a: Outcome)
    ensures Sum(a, NO_OUTCOME) == a
  {
  }

  lemma SumWritten(a: Outcome, b: Outcome)
    ensures Sum(a, b).written == a.written + b.written
  {
  }

  lemma NothingPersisted(scope: Scope, stamps: nat -> Stamp, from: nat)
    ensures AsWrites(scope, [], stamps, from) == []
  {
  }

  /** A record with visible content is written exactly once. */
  lemma WrittenOnce(records: seq<Record>, policy: Policy, r: Record, now: int)
    requires !IsBlank(r.content)
    ensures Upsert(records, policy, r, now).1.written == 1
  {
    NormalEmptyIffBlank(r.content);
    hide NormalizeWhitespace, IsBlank, Placed, Regrouped;
  }

  lemma EmptyRun(policy: Policy)
    ensures After([], policy) == []
  {
  }

  lemma LastWrite(writes: seq<Write>, w: Write, policy: Policy)
    ensures
      var step := Upsert(After(writes, policy), policy, w.record, w.now);
      && After(writes + [w], policy) == step.0
      && Totals(writes + [w], policy) == Sum(Totals(writes, policy), step.1)
  {
    hide Upsert;
    assert (writes + [w])[..|writes|] == writes;
  }
}
