/** What a finished session leaves in memory: one record for each part of its snapshot that says something. */
module SessionMemory {
  import opened Common
  import opened Text
  import opened Normalization
  import opened MemoryRecords
  import opened Upserts

  datatype GraphSummary = GraphSummary(
    graphId: string, rootTask: string, roles: seq<string>, risks: seq<string>, openQuestions: seq<string>,
    evaluationSummary: Option<string>)

  datatype RoleSummary = RoleSummary(
    graphId: string, nodeId: string, workerId: string, role: string, summary: string, findings: seq<string>,
    recommendations: seq<string>, evidence: seq<string>, risks: seq<string>, openQuestions: seq<string>)

  datatype Entry = Entry(key: string, value: string)

  /** The blackboard's entries are listed in key order. */
  datatype Snapshot = Snapshot(
    summary: string, finalOutput: string, blackboard: seq<Entry>, taskGraphs: seq<GraphSummary>,
    roleSummaries: seq<RoleSummary>, risks: seq<string>, openQuestions: seq<string>, evaluationSummary: Option<string>)

  /** A record before it gets its id and its times. */
  datatype Draft = Draft(kind: Kind, key: Option<string>, content: string, confidence: real, tags: seq<string>)

  /** The next id, and what the clock says while a record is made and stored. */
  datatype Stamp = Stamp(id: string, createdAt: int, updatedAt: int, now: int)

  const SESSION_RESULT := Source("session_result", "Persisted from a completed agent session")

  // ---------------------------------------------------------------- formatting

  function Bullets(items: seq<string>): seq<string> {
    if items == [] then []
    else (if IsBlank(items[0]) then [] else ["- " + Trim(items[0])]) + Bullets(items[1..])
  }

  function FormatList(caption: string, items: seq<string>): string {
    caption + ":\n" + Join(Bullets(items), "\n")
  }

  function ListWhen(caption: string, items: seq<string>): seq<string> {
    if items == [] then [] else [FormatList(caption, items)]
  }

  function FormatGraph(g: GraphSummary): string {
    Join(["Task graph: " + g.graphId, "Root task: " + g.rootTask, "Roles: " + Join(g.roles, ", ")]
         + ListWhen("Risks", g.risks) + ListWhen("Open questions", g.openQuestions)
         + (if g.evaluationSummary.Some? && !IsBlank(g.evaluationSummary.value)
            then ["Evaluation:\n" + g.evaluationSummary.value] else []), "\n")
  }

  function FormatRole(r: RoleSummary): string {
    Join(["Role: " + r.role, "Worker: " + r.workerId, "Summary: " + r.summary]
         + ListWhen("Findings", r.findings) + ListWhen("Recommendations", r.recommendations)
         + ListWhen("Evidence", r.evidence) + ListWhen("Risks", r.risks) + ListWhen("Open questions", r.openQuestions), "\n")
  }

  // ---------------------------------------------------------------- the drafts of a snapshot

  predicate Silent(s: Snapshot) {
    IsBlank(s.summary) && IsBlank(s.finalOutput)
  }

  function SummaryDraft(scope: Scope, s: Snapshot): Draft {
    Draft(SessionSummary, scope.sessionId, if IsBlank(s.summary) then s.finalOutput else s.summary, 1.0, ["session"])
  }

  function BlackboardDraft(e: Entry): Draft {
    Draft(ConversationFact, Some(e.key), e.value, 0.8, ["blackboard"])
  }

  function BlackboardDrafts(entries: seq<Entry>): seq<Draft> {
    if entries == [] then []
    else
      var e := entries[|entries| - 1];
      BlackboardDrafts(entries[..|entries| - 1])
      + if IsBlank(e.value) then [] else [BlackboardDraft(e)]
  }

  function GraphDraft(g: GraphSummary): Draft {
    Draft(CrossRoleContext, Some("task_graph:" + g.graphId), FormatGraph(g), 0.85, ["task_graph", "session"])
  }

  function GraphDrafts(graphs: seq<GraphSummary>): seq<Draft> {
    if graphs == [] then []
    else
      var g := graphs[|graphs| - 1];
      GraphDrafts(graphs[..|graphs| - 1]) + if IsBlank(g.rootTask) then [] else [GraphDraft(g)]
  }

  predicate SaysNothing(r: RoleSummary) {
    IsBlank(r.summary) && r.findings == [] && r.recommendations == []
  }

  function RoleDraft(r: RoleSummary): Draft {
    Draft(CrossRoleContext, Some("role:" + r.graphId + ":" + r.nodeId), FormatRole(r), 0.85, ["role_summary", r.role])
  }

  function RoleDrafts(roles: seq<RoleSummary>): seq<Draft> {
    if roles == [] then []
    else
      var r := roles[|roles| - 1];
      RoleDrafts(roles[..|roles| - 1]) + if SaysNothing(r) then [] else [RoleDraft(r)]
  }

  function SessionKey(scope: Scope, part: string): Option<string> {
    match scope.sessionId case Some(id) => Some("session:" + id + ":" + part) case None => None
  }

  function RisksDraft(scope: Scope, s: Snapshot): Draft {
    Draft(ConversationFact, SessionKey(scope, "risks"), FormatList("Risks", s.risks), 0.8, ["risk", "session"])
  }

  function QuestionsDraft(scope: Scope, s: Snapshot): Draft {
    Draft(ConversationFact, SessionKey(scope, "open_questions"), FormatList("Open questions", s.openQuestions), 0.8,
          ["open_question", "session"])
  }

  function EvaluationDraft(scope: Scope, evaluation: string): Draft {
    Draft(ConversationFact, SessionKey(scope, "evaluation"), evaluation, 0.75, ["evaluation", "session"])
  }

  function ClosingDrafts(scope: Scope, s: Snapshot): seq<Draft> {
    (if s.risks == [] then [] else [RisksDraft(scope, s)])
    + (if s.openQuestions == [] then [] else [QuestionsDraft(scope, s)])
    + (if s.evaluationSummary.Some? && !IsBlank(s.evaluationSummary.value)
       then [EvaluationDraft(scope, s.evaluationSummary.value)] else [])
  }

  function Drafts(scope: Scope, s: Snapshot): seq<Draft> {
    if Silent(s) then []
    else [SummaryDraft(scope, s)] + BlackboardDrafts(s.blackboard) + GraphDrafts(s.taskGraphs)
         + RoleDrafts(s.roleSummaries) + ClosingDrafts(scope, s)
  }

  function Stamped(scope: Scope, d: Draft, at: Stamp): Write {
    Write(Record(at.id, scope, d.kind, d.key, d.content, d.confidence, d.tags, SESSION_RESULT, at.createdAt, at.updatedAt),
          at.now)
  }

  /** The writes of the drafts, taking the stamps from number `from` on. */
  function AsWrites(scope: Scope, drafts: seq<Draft>, stamps: nat -> Stamp, from: nat): (ws: seq<Write>)
    ensures |ws| == |drafts|
  {
    if drafts == [] then [] else [Stamped(scope, drafts[0], stamps(from))] + AsWrites(scope, drafts[1..], stamps, from + 1)
  }

  lemma {:induction false} AsWritesConcat(scope: Scope, a: seq<Draft>, b: seq<Draft>, stamps: nat -> Stamp, from: nat)
    ensures AsWrites(scope, a + b, stamps, from) == AsWrites(scope, a, stamps, from) + AsWrites(scope, b, stamps, from + |a|)
  {
    if a == [] {
      assert a + b == b;
    } else {
      assert (a + b)[1..] == a[1..] + b;
      AsWritesConcat(scope, a[1..], b, stamps, from + 1);
    }
  }

  lemma AsWritesPush(scope: Scope, drafts: seq<Draft>, d: Draft, stamps: nat -> Stamp, from: nat)
    ensures AsWrites(scope, drafts + [d], stamps, from)
         == AsWrites(scope, drafts, stamps, from) + [Stamped(scope, d, stamps(from + |drafts|))]
  {
    AsWritesConcat(scope, drafts, [d], stamps, from);
    assert [d][1..] == [];
  }

  lemma BlackboardStep(entries: seq<Entry>, i: nat)
    requires i < |entries|
    ensures BlackboardDrafts(entries[..i + 1])
         == if IsBlank(entries[i].value) then BlackboardDrafts(entries[..i]) else BlackboardDrafts(entries[..i]) + [BlackboardDraft(entries[i])]
  {
    hide IsBlank;
    assert entries[..i + 1][..i] == entries[..i];
  }

  lemma GraphStep(graphs: seq<GraphSummary>, i: nat)
    requires i < |graphs|
    ensures GraphDrafts(graphs[..i + 1])
         == if IsBlank(graphs[i].rootTask) then GraphDrafts(graphs[..i]) else GraphDrafts(graphs[..i]) + [GraphDraft(graphs[i])]
  {
    hide IsBlank, FormatGraph;
    assert graphs[..i + 1][..i] == graphs[..i];
  }

  lemma RoleStep(roles: seq<RoleSummary>, i: nat)
    requires i < |roles|
    ensures RoleDrafts(roles[..i + 1])
         == if SaysNothing(roles[i]) then RoleDrafts(roles[..i]) else RoleDrafts(roles[..i]) + [RoleDraft(roles[i])]
  {
    hide SaysNothing, FormatRole;
    assert roles[..i + 1][..i] == roles[..i];
  }

  // ---------------------------------------------------------------- no draft is blank

  lemma {:induction false} TrimEndSurvives(s: string)
    requires s != [] && !IsSpace(s[0])
    ensures TrimEnd(s) != []
    decreases |s|
  {
    if IsSpace(s[|s| - 1]) {
      TrimEndSurvives(s[..|s| - 1]);
    }
  }

  /** Blank text is exactly the text without words. */
  lemma {:induction false} BlankHasNoWords(s: string)
    ensures IsBlank(s) <==> Words(s) == []
    decreases |s|
  {
    if s != [] {
      if IsSpace(s[0]) {
        BlankHasNoWords(s[1..]);
      } else {
        TrimEndSurvives(s);
      }
    }
  }

  lemma NormalEmptyIffBlank(s: string)
    ensures NormalizeWhitespace(s) == [] <==> IsBlank(s)
  {
    BlankHasNoWords(s);
    WordsAreWords(s);
    JoinSettled(Words(s));
  }

  lemma StartsVisibly(s: string)
    requires s != [] && !IsSpace(s[0])
    ensures !IsBlank(s)
  {
    TrimEndSurvives(s);
  }

  lemma JoinStarts(parts: seq<string>, sep: string)
    requires parts != [] && parts[0] != []
    ensures Join(parts, sep) != [] && Join(parts, sep)[0] == parts[0][0]
  {
  }

  ghost predicate Speaks(drafts: seq<Draft>) {
    forall d :: d in drafts ==> !IsBlank(d.content)
  }

  lemma ListSpeaks(items: seq<string>)
    ensures !IsBlank(FormatList("Risks", items)) && !IsBlank(FormatList("Open questions", items))
  {
    hide IsBlank, Bullets;
    StartsVisibly(FormatList("Risks", items));
    StartsVisibly(FormatList("Open questions", items));
  }

  lemma GraphSpeaks(g: GraphSummary)
    ensures !IsBlank(FormatGraph(g))
  {
    hide IsBlank, FormatGraph;
    GraphStarts(g);
    StartsVisibly(FormatGraph(g));
  }

  lemma RoleSpeaks(r: RoleSummary)
    ensures !IsBlank(FormatRole(r))
  {
    hide IsBlank, FormatRole;
    RoleStarts(r);
    StartsVisibly(FormatRole(r));
  }

  lemma GraphStarts(g: GraphSummary)
    ensures FormatGraph(g) != [] && FormatGraph(g)[0] == 'T'
  {
    hide IsBlank, ListWhen, Join;
    JoinStarts(["Task graph: " + g.graphId, "Root task: " + g.rootTask, "Roles: " + Join(g.roles, ", ")]
         + ListWhen("Risks", g.risks) + ListWhen("Open questions", g.openQuestions)
         + (if g.evaluationSummary.Some? && !IsBlank(g.evaluationSummary.value)
            then ["Evaluation:\n" + g.evaluationSummary.value] else []), "\n");
  }

  lemma RoleStarts(r: RoleSummary)
    ensures FormatRole(r) != [] && FormatRole(r)[0] == 'R'
  {
    hide ListWhen, Join;
    JoinStarts(["Role: " + r.role, "Worker: " + r.workerId, "Summary: " + r.summary]
         + ListWhen("Findings", r.findings) + ListWhen("Recommendations", r.recommendations)
         + ListWhen("Evidence", r.evidence) + ListWhen("Risks", r.risks) + ListWhen("Open questions", r.openQuestions), "\n");
  }

  lemma {:induction false} BlackboardSpeaks(entries: seq<Entry>)
    ensures Speaks(BlackboardDrafts(entries))
  {
    hide IsBlank;
    if entries != [] {
      BlackboardSpeaks(entries[..|entries| - 1]);
    }
  }

  lemma {:induction false} GraphsSpeak(graphs: seq<GraphSummary>)
    ensures Speaks(GraphDrafts(graphs))
  {
    hide IsBlank, FormatGraph;
    if graphs != [] {
      GraphsSpeak(graphs[..|graphs| - 1]);
      GraphSpeaks(graphs[|graphs| - 1]);
    }
  }

  lemma {:induction false} RolesSpeak(roles: seq<RoleSummary>)
    ensures Speaks(RoleDrafts(roles))
  {
    hide IsBlank, FormatRole;
    if roles != [] {
      RolesSpeak(roles[..|roles| - 1]);
      RoleSpeaks(roles[|roles| - 1]);
    }
  }

  lemma ClosingSpeaks(scope: Scope, s: Snapshot)
    ensures Speaks(ClosingDrafts(scope, s))
  {
    hide IsBlank, FormatList, FormatGraph, FormatRole;
    ListSpeaks(s.risks);
    ListSpeaks(s.openQuestions);
  }

  /** Every part that is kept has visible content, so none of its records is dropped as empty. */
  lemma DraftsSpeak(scope: Scope, s: Snapshot)
    ensures Speaks(Drafts(scope, s))
  {
    hide IsBlank, BlackboardDrafts, GraphDrafts, RoleDrafts, ClosingDrafts;
    BlackboardSpeaks(s.blackboard);
    GraphsSpeak(s.taskGraphs);
    RolesSpeak(s.roleSummaries);
    ClosingSpeaks(scope, s);
  }
}
