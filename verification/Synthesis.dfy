/** The final text of a task graph: the products of the passed nodes, then the gaps. */
module Synthesis {
  import opened Text
  import opened TaskGraphs
  import opened GraphRuntime

  function TrimmedItems(items: seq<string>): seq<string> {
    if items == [] then []
    else
      var earlier := TrimmedItems(items[..|items| - 1]);
      var item := items[|items| - 1];
      if IsBlank(item) then earlier else earlier + [Trim(item)]
  }

  function ItemsLine(caption: string, items: seq<string>): seq<string> {
    if items == [] then [] else [caption + ": " + Join(TrimmedItems(items), "；")]
  }

  function Heading(n: TaskNode): string {
    "- " + n.title + "(" + n.role + ")"
  }

  function ProductLines(n: TaskNode, reports: map<string, WorkerReport>): seq<string> {
    if n.id !in reports then [Heading(n) + ": 无内容"]
    else
      match reports[n.id].roleOutput
      case Some(output) =>
        [Heading(n) + ": " + Trim(output.summary)]
        + ItemsLine("  发现", output.findings)
        + ItemsLine("  建议", output.recommendations)
        + ItemsLine("  风险", output.risks)
        + ItemsLine("  缺口", output.openQuestions)
      case None =>
        var content := Trim(reports[n.id].content);
        [Heading(n) + ": " + if content == "" then "无内容" else content]
  }

  predicate IsPassed(states: map<string, NodeState>, n: TaskNode) {
    InState(states, n.id, Passed)
  }

  predicate IsGap(states: map<string, NodeState>, n: TaskNode) {
    Blocks(states, n.id)
  }

  function PassedNodes(nodes: seq<TaskNode>, states: map<string, NodeState>): seq<TaskNode> {
    if nodes == [] then []
    else
      var earlier := PassedNodes(nodes[..|nodes| - 1], states);
      var n := nodes[|nodes| - 1];
      if IsPassed(states, n) then earlier + [n] else earlier
  }

  function GapNodes(nodes: seq<TaskNode>, states: map<string, NodeState>): seq<TaskNode> {
    if nodes == [] then []
    else
      var earlier := GapNodes(nodes[..|nodes| - 1], states);
      var n := nodes[|nodes| - 1];
      if IsGap(states, n) then earlier + [n] else earlier
  }

  function Products(passed: seq<TaskNode>, reports: map<string, WorkerReport>): seq<string> {
    if passed == [] then []
    else Products(passed[..|passed| - 1], reports) + ProductLines(passed[|passed| - 1], reports)
  }

  function GapLine(n: TaskNode, states: map<string, NodeState>): string {
    if n.id !in states then ""
    else
      match states[n.id]
      case Failed(reason) => Heading(n) + " failed: " + reason
      case Skipped(reason) => Heading(n) + " skipped: " + reason
      case _ => ""
  }

  function Gaps(gaps: seq<TaskNode>, states: map<string, NodeState>): seq<string> {
    if gaps == [] then []
    else Gaps(gaps[..|gaps| - 1], states) + [GapLine(gaps[|gaps| - 1], states)]
  }

  function Header(g: TaskGraph): seq<string> {
    ["多智能体任务图已完成。", "原始任务：" + g.rootTask, "", "通过的角色产物："]
  }

  /** The lines so far, with the placeholder for an empty product list. */
  function OrNone(lines: seq<string>, passed: nat): seq<string> {
    if passed == 0 then lines + ["- 无。"] else lines
  }

  function WithGaps(lines: seq<string>, gaps: seq<string>): seq<string> {
    if gaps == [] then lines else lines + (["", "未完成节点："] + gaps)
  }

  function Lines(g: TaskGraph, states: map<string, NodeState>, reports: map<string, WorkerReport>): seq<string> {
    var passed := PassedNodes(g.nodes, states);
    WithGaps(OrNone(Header(g) + Products(passed, reports), |passed|), Gaps(GapNodes(g.nodes, states), states))
  }

  function Synthesize(g: TaskGraph, states: map<string, NodeState>, reports: map<string, WorkerReport>): string {
    Join(Lines(g, states, reports), "\n")
  }

  lemma PassedStep(nodes: seq<TaskNode>, states: map<string, NodeState>, reports: map<string, WorkerReport>, i: nat)
    requires i < |nodes|
    ensures var earlier, now := PassedNodes(nodes[..i], states), PassedNodes(nodes[..i + 1], states);
            if IsPassed(states, nodes[i])
            then |now| == |earlier| + 1 && Products(now, reports) == Products(earlier, reports) + ProductLines(nodes[i], reports)
            else now == earlier
  {
    hide ProductLines, IsPassed;
    assert nodes[..i + 1][..i] == nodes[..i];
    var earlier := PassedNodes(nodes[..i], states);
    assert (earlier + [nodes[i]])[..|earlier|] == earlier;
  }

  lemma NothingPassed(states: map<string, NodeState>, reports: map<string, WorkerReport>)
    ensures PassedNodes([], states) == [] && Products([], reports) == []
  {
  }

  method SynthesizeText(g: TaskGraph, states: map<string, NodeState>,
      reports: map<string, WorkerReport>) returns (text: string)
    ensures text == Synthesize(g, states, reports)
  {
    hide Header, ProductLines, GapLine, OrNone, WithGaps, PassedNodes, Products, IsPassed;
    var lines := Header(g);
    var passedCount := 0;
    assert PassedNodes(g.nodes[..0], states) == [] by { NothingPassed(states, reports); }
    assert lines == Header(g) + Products([], reports) by { NothingPassed(states, reports); }
    for i := 0 to |g.nodes|
      invariant lines == Header(g) + Products(PassedNodes(g.nodes[..i], states), reports)
      invariant passedCount == |PassedNodes(g.nodes[..i], states)|
    {
      PassedStep(g.nodes, states, reports, i);
      var n := g.nodes[i];
      if !IsPassed(states, n) {
        continue;
      }
      passedCount := passedCount + 1;
      lines := lines + ProductLines(n, reports);
    }
    assert g.nodes[..|g.nodes|] == g.nodes;
    lines := OrNone(lines, passedCount);
    var gaps := Gaps(GapNodes(g.nodes, states), states);
    lines := WithGaps(lines, gaps);
    text := Join(lines, "\n");
  }

  /** Once every listed node is final, the products and the gaps split the node list. */
  lemma {:induction false} ProductsAndGapsPartition(nodes: seq<TaskNode>, states: map<string, NodeState>)
    requires forall n :: n in nodes ==> n.id in states && states[n.id].Final()
    ensures multiset(PassedNodes(nodes, states)) + multiset(GapNodes(nodes, states)) == multiset(nodes)
    ensures forall n :: n in PassedNodes(nodes, states) ==> IsPassed(states, n)
    ensures forall n :: n in GapNodes(nodes, states) ==> IsGap(states, n)
  {
    if nodes != [] {
      var front, last := nodes[..|nodes| - 1], nodes[|nodes| - 1];
      assert nodes == front + [last];
      ProductsAndGapsPartition(front, states);
    }
  }
}
