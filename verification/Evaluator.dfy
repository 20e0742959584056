/** Report evaluation: the acceptance decision on one report of one node. */
module Evaluator {
  import opened Common
  import opened Text
  import opened TaskGraphs

  /**
   * The keyword and role-contract checks on the text of a report. They are pure functions of the
   * report; what they look for is not part of this model.
   */
  datatype TextChecks = TextChecks(
    openQuestions: WorkerReport -> seq<string>,
    roleContract: (WorkerReport, RoleWorkOutput) -> seq<string>,
    placeholder: WorkerReport -> seq<string>)

  const FAILED_STATUS := "worker reported failed status"
  const EMPTY_CONTENT := "content is empty"
  const MISSING_OUTPUT := "structured role output is missing"
  const MUST_CITE := "upstream evidence: dependent role must cite upstream inputs"
  const RESUBMIT := "请重新提交本节点结果：内容必须具体、非空，不能是占位或失败表达。"

  function MissingCitation(ref: string): string {
    "upstream evidence: missing citation for input " + ref
  }

  function UpstreamRole(upstream: map<string, WorkerReport>, ref: string): string {
    if ref in upstream then upstream[ref].role else ""
  }

  /** One evidence item cites an input by its id, its source marker or its role. */
  predicate Cites(item: string, ref: string, role: string) {
    var text := Trim(item);
    || Contains(text, ref)
    || Contains(text, "worker.assignment.input." + ref)
    || (role != "" && Contains(text, role))
  }

  predicate Cited(evidence: seq<string>, ref: string, upstream: map<string, WorkerReport>) {
    exists i :: 0 <= i < |evidence| && Cites(evidence[i], ref, UpstreamRole(upstream, ref))
  }

  function MissingCitations(refs: seq<string>, evidence: seq<string>,
      upstream: map<string, WorkerReport>): seq<string> {
    if refs == [] then []
    else
      var earlier := MissingCitations(refs[..|refs| - 1], evidence, upstream);
      var ref := refs[|refs| - 1];
      if Cited(evidence, ref, upstream) then earlier else earlier + [MissingCitation(ref)]
  }

  function UpstreamReasons(node: TaskNode, output: RoleWorkOutput, upstream: map<string, WorkerReport>): seq<string> {
    if node.inputRefs == [] then []
    else if output.evidence == [] then [MUST_CITE]
    else MissingCitations(node.inputRefs, output.evidence, upstream)
  }

  function Reasons(checks: TextChecks, report: WorkerReport, node: Option<TaskNode>,
      upstream: map<string, WorkerReport>): seq<string> {
    (if report.status.ReportFailed? then [FAILED_STATUS] else [])
    + (if IsBlank(report.content) then [EMPTY_CONTENT] else [])
    + checks.openQuestions(report)
    + (match report.roleOutput
       case Some(output) =>
         checks.roleContract(report, output)
         + (if node.Some? then UpstreamReasons(node.value, output, upstream) else [])
       case None => [MISSING_OUTPUT])
    + checks.placeholder(report)
  }

  function Evaluate(checks: TextChecks, report: WorkerReport, node: Option<TaskNode>,
      upstream: map<string, WorkerReport>): Evaluation {
    var reasons := Reasons(checks, report, node, upstream);
    var passed := reasons == [];
    Evaluation(report.nodeId, passed, if passed then 1.0 else 0.0, reasons, if passed then None else Some(RESUBMIT))
  }

  /** The citation loop of the evaluator. */
  method EvaluateUpstreamEvidence(node: TaskNode, output: RoleWorkOutput,
      upstream: map<string, WorkerReport>) returns (reasons: seq<string>)
    ensures reasons == UpstreamReasons(node, output, upstream)
    ensures reasons == [] <==> forall r :: r in node.inputRefs ==> Cited(output.evidence, r, upstream)
  {
    CitationComplete(node.inputRefs, output.evidence, upstream);
    if node.inputRefs == [] {
      return [];
    }
    reasons := [];
    if output.evidence == [] {
      reasons := reasons + [MUST_CITE];
      assert !Cited(output.evidence, node.inputRefs[0], upstream);
      return;
    }
    for i := 0 to |node.inputRefs|
      invariant reasons == MissingCitations(node.inputRefs[..i], output.evidence, upstream)
    {
      var ref := node.inputRefs[i];
      assert node.inputRefs[..i + 1][..i] == node.inputRefs[..i];
      if !Cited(output.evidence, ref, upstream) {
        reasons := reasons + [MissingCitation(ref)];
      }
    }
    assert node.inputRefs[..|node.inputRefs|] == node.inputRefs;
  }

  /**
   * One item cites an input exactly when, trimmed, it holds the input's id or the role that reported it. The
   * longer source marker holds the id, so looking for it decides nothing.
   */
  lemma CitesExactly(item: string, ref: string, role: string)
    ensures Cites(item, ref, role) <==>
            Occurs(Trim(item), ref) || (role != "" && Occurs(Trim(item), role))
  {
    hide Trim, Contains;
    var text, marker := Trim(item), "worker.assignment.input." + ref;
    ContainsExactly(text, ref);
    ContainsExactly(text, role);
    ContainsExactly(text, marker);
    if Contains(text, marker) {
      var k :| 0 <= k <= |text| && marker <= text[k..];
      var m := k + |marker| - |ref|;
      assert text[m..] == text[k..][m - k..] && marker[m - k..] == ref;
    }
  }

  /** What is wrong with a report, each in its own words. */
  ghost predicate Fault(checks: TextChecks, report: WorkerReport, node: TaskNode, upstream: map<string, WorkerReport>,
      reason: string)
  {
    || (report.status.ReportFailed? && reason == "worker reported failed status")
    || (IsBlank(report.content) && reason == "content is empty")
    || reason in checks.openQuestions(report)
    || (report.roleOutput.None? && reason == "structured role output is missing")
    || (report.roleOutput.Some? && reason in checks.roleContract(report, report.roleOutput.value))
    || (report.roleOutput.Some? && report.roleOutput.value.evidence == [] && node.inputRefs != []
        && reason == "upstream evidence: dependent role must cite upstream inputs")
    || (report.roleOutput.Some? && report.roleOutput.value.evidence != []
        && exists r :: r in node.inputRefs && !Cited(report.roleOutput.value.evidence, r, upstream)
                       && reason == "upstream evidence: missing citation for input " + r)
    || reason in checks.placeholder(report)
  }

  /** The reasons of a rejection are exactly the faults of the report. */
  lemma ReasonsExactly(checks: TextChecks, report: WorkerReport, node: TaskNode, upstream: map<string, WorkerReport>,
      reason: string)
    ensures reason in Evaluate(checks, report, Some(node), upstream).reasons <==> Fault(checks, report, node, upstream, reason)
  {
    hide IsBlank, Cited;
    if report.roleOutput.Some? {
      MissingExactly(node.inputRefs, report.roleOutput.value.evidence, upstream, reason);
    }
  }

  lemma {:induction false} MissingExactly(refs: seq<string>, evidence: seq<string>, upstream: map<string, WorkerReport>,
      reason: string)
    ensures reason in MissingCitations(refs, evidence, upstream) <==>
            exists r :: r in refs && !Cited(evidence, r, upstream) && reason == "upstream evidence: missing citation for input " + r
  {
    hide Cited;
    if refs != [] {
      var front, last := refs[..|refs| - 1], refs[|refs| - 1];
      MissingExactly(front, evidence, upstream, reason);
      assert refs == front + [last];
    }
  }

  /** No reason is pushed exactly when every input is cited. */
  lemma {:induction false} CitationComplete(refs: seq<string>, evidence: seq<string>,
      upstream: map<string, WorkerReport>)
    ensures MissingCitations(refs, evidence, upstream) == [] <==> forall r :: r in refs ==> Cited(evidence, r, upstream)
  {
    if refs != [] {
      var front, last := refs[..|refs| - 1], refs[|refs| - 1];
      CitationComplete(front, evidence, upstream);
      assert refs == front + [last];
    }
  }

  /**
   * A passed report says it completed, is not blank, carries a structured output that meets its
   * role contract, and cites every input of the node; nothing else is asked of it.
   */
  lemma PassedExactly(checks: TextChecks, report: WorkerReport, node: TaskNode, upstream: map<string, WorkerReport>)
    ensures Evaluate(checks, report, Some(node), upstream).passed <==>
            && report.status.ReportCompleted?
            && !IsBlank(report.content)
            && checks.openQuestions(report) == [] && checks.placeholder(report) == []
            && report.roleOutput.Some?
            && checks.roleContract(report, report.roleOutput.value) == []
            && forall r :: r in node.inputRefs ==> Cited(report.roleOutput.value.evidence, r, upstream)
  {
    if report.roleOutput.Some? {
      var evidence := report.roleOutput.value.evidence;
      CitationComplete(node.inputRefs, evidence, upstream);
      if node.inputRefs != [] && evidence == [] {
        assert !Cited(evidence, node.inputRefs[0], upstream);
      }
    }
  }

  lemma {:induction false} MissingCitationsFrame(refs: seq<string>, evidence: seq<string>,
      m: map<string, WorkerReport>, n: map<string, WorkerReport>)
    requires forall r :: r in refs ==> UpstreamRole(m, r) == UpstreamRole(n, r)
    ensures MissingCitations(refs, evidence, m) == MissingCitations(refs, evidence, n)
  {
    if refs != [] {
      assert refs[|refs| - 1] in refs;
      assert forall r :: r in refs[..|refs| - 1] ==> r in refs;
      MissingCitationsFrame(refs[..|refs| - 1], evidence, m, n);
    }
  }

  /** The verdict on a node reads the upstream reports only at that node's own inputs. */
  lemma EvaluateFrame(checks: TextChecks, report: WorkerReport, node: TaskNode, m: map<string, WorkerReport>,
      n: map<string, WorkerReport>)
    requires forall r :: r in node.inputRefs ==> (r in m <==> r in n) && (r in m ==> m[r] == n[r])
    ensures Evaluate(checks, report, Some(node), m) == Evaluate(checks, report, Some(node), n)
  {
    if report.roleOutput.Some? {
      MissingCitationsFrame(node.inputRefs, report.roleOutput.value.evidence, m, n);
    }
  }
}
