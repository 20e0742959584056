/** Memory records, their scopes, and the policy and statistics of compaction. */
module MemoryRecords {
  import opened Common

  datatype Scope = Scope(
    userId: Option<string>, workspaceId: Option<string>, agentId: Option<string>,
    sessionId: Option<string>, taskId: Option<string>)

  datatype Kind =
    | SessionSummary | ConversationFact | UserPreference | WorkspaceFact
    | RoleLearning | RoutingHint | Episode | CrossRoleContext

  datatype Source = Source(kind: string, description: string)

  /** Confidence is a real number and times are instants on one clock. */
  datatype Record = Record(
    id: string, scope: Scope, kind: Kind, key: Option<string>, content: string,
    confidence: real, tags: seq<string>, source: Source, createdAt: int, updatedAt: int)

  datatype Policy = Policy(maxRecordChars: nat, maxPerGroup: nat, maxUnkeyed: nat)

  datatype Stats = Stats(
    input: nat, output: nat, truncated: nat, merged: nat, dropped: nat, beforeChars: nat, afterChars: nat)
  {
    function Plus(other: Stats): Stats {
      Stats(input + other.input, output + other.output, truncated + other.truncated, merged + other.merged,
            dropped + other.dropped, beforeChars + other.beforeChars, afterChars + other.afterChars)
    }

    /** Nothing is lost unaccounted, and compaction never adds text. */
    predicate Balanced() {
      input == output + dropped && afterChars <= beforeChars
    }
  }

  const NO_STATS := Stats(0, 0, 0, 0, 0, 0, 0)

  datatype Outcome = Outcome(written: nat, compaction: Stats)

  /** The pairs that compaction treats as one unit. */
  datatype Group = Group(scope: Scope, kind: Kind)

  function GroupOf(r: Record): Group {
    Group(r.scope, r.kind)
  }

  predicate FieldMatches(query: Option<string>, field: Option<string>) {
    query.None? || field.None? || query == field
  }

  predicate ScopeQueryMatches(query: Scope, scope: Scope) {
    && FieldMatches(query.userId, scope.userId)
    && FieldMatches(query.workspaceId, scope.workspaceId)
    && FieldMatches(query.agentId, scope.agentId)
    && FieldMatches(query.sessionId, scope.sessionId)
    && FieldMatches(query.taskId, scope.taskId)
  }

  function Chars(records: seq<Record>): nat {
    if records == [] then 0 else |records[0].content| + Chars(records[1..])
  }

  lemma {:induction false} CharsConcat(a: seq<Record>, b: seq<Record>)
    ensures Chars(a + b) == Chars(a) + Chars(b)
  {
    if a == [] {
      assert a + b == b;
    } else {
      assert (a + b)[1..] == a[1..] + b;
      CharsConcat(a[1..], b);
    }
  }
}
