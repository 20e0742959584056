/** The graph for a text: the first configured rule that applies, or else the built-in plan. */
module TaskPlanning {
  import opened Common
  import opened TaskGraphs
  import opened Rules
  import opened Planner

  /** Rules are tried in order; `applies` stands for the keyword match of a rule against a text. */
  function FirstMatch(rules: seq<Rule>, applies: Rule -> bool): Option<Rule> {
    if rules == [] then None else if applies(rules[0]) then Some(rules[0]) else FirstMatch(rules[1..], applies)
  }

  /** The match is the first rule that applies, and there is none exactly when no rule applies. */
  lemma {:induction false} FirstMatchExactly(rules: seq<Rule>, applies: Rule -> bool)
    ensures match FirstMatch(rules, applies)
            case Some(rule) =>
              exists k :: 0 <= k < |rules| && rules[k] == rule && applies(rule) && forall j :: 0 <= j < k ==> !applies(rules[j])
            case None => forall j :: 0 <= j < |rules| ==> !applies(rules[j])
  {
    if rules != [] && !applies(rules[0]) {
      FirstMatchExactly(rules[1..], applies);
      if FirstMatch(rules, applies).Some? {
        var k :| 0 <= k < |rules[1..]| && rules[1..][k] == FirstMatch(rules, applies).value
                 && applies(rules[1..][k]) && forall j :: 0 <= j < k ==> !applies(rules[1..][j]);
        assert forall j :: 0 <= j < k + 1 ==> !applies(rules[j]);
        assert rules[k + 1] == rules[1..][k];
      }
    }
  }

  function PlanTaskGraph(
    rules: seq<Rule>, applies: Rule -> bool, lower: string -> string, taskId: string, task: string, routed: Option<string>): TaskGraph
  {
    match FirstMatch(rules, applies)
    case Some(rule) => BuildConfigured(taskId, task, rule)
    case None => BuiltinGraph(taskId, lower(task), task, routed)
  }
}
