/** Task graphs and the messages about their nodes. */
module TaskGraphs {
  import opened Common

  datatype TaskNode = TaskNode(
    id: string, role: string, workerId: string, title: string, objective: string,
    inputRefs: seq<string>, acceptance: seq<string>, maxAttempts: u8)

  datatype TaskGraph = TaskGraph(graphId: string, rootTask: string, nodes: seq<TaskNode>)

  datatype RoleWorkOutput = RoleWorkOutput(
    summary: string, findings: seq<string>, recommendations: seq<string>,
    evidence: seq<string>, risks: seq<string>, openQuestions: seq<string>)

  datatype ReportStatus = ReportCompleted | ReportFailed

  datatype WorkerReport = WorkerReport(
    graphId: string, nodeId: string, taskId: string, workerId: string, role: string,
    content: string, roleOutput: Option<RoleWorkOutput>, evidence: seq<string>,
    risks: seq<string>, openQuestions: seq<string>, status: ReportStatus)

  datatype WorkerAssignment = WorkerAssignment(
    graphId: string, nodeId: string, taskId: string, workerId: string, role: string,
    attempt: u8, objective: string, inputs: seq<WorkerReport>, rework: Option<string>)

  datatype Evaluation = Evaluation(
    nodeId: string, passed: bool, score: real, reasons: seq<string>, rework: Option<string>)

  function Ids(nodes: seq<TaskNode>): (r: seq<string>)
    ensures |r| == |nodes| && forall i :: 0 <= i < |nodes| ==> r[i] == nodes[i].id
  {
    seq(|nodes|, i requires 0 <= i < |nodes| => nodes[i].id)
  }

  ghost predicate UniqueIds(g: TaskGraph) {
    forall i, j :: 0 <= i < j < |g.nodes| ==> g.nodes[i].id != g.nodes[j].id
  }

  ghost predicate HasNode(g: TaskGraph, id: string) {
    exists n :: n in g.nodes && n.id == id
  }

  ghost predicate RefsResolve(g: TaskGraph) {
    forall n, r :: n in g.nodes && r in n.inputRefs ==> HasNode(g, r)
  }

  ghost predicate AttemptsAllowed(g: TaskGraph) {
    forall n :: n in g.nodes ==> 1 <= n.maxAttempts
  }

  /** `rank` puts every node strictly above all of its inputs. */
  ghost predicate IsRank(g: TaskGraph, rank: map<string, nat>) {
    && (forall n :: n in g.nodes ==> n.id in rank)
    && (forall n, r :: n in g.nodes && r in n.inputRefs ==> r in rank && rank[r] < rank[n.id])
  }

  /** What the scheduler needs of a graph, and what an accepted rule supplies. */
  ghost predicate WellFormed(g: TaskGraph) {
    UniqueIds(g) && RefsResolve(g) && AttemptsAllowed(g)
  }

  ghost predicate IsDag(g: TaskGraph) {
    exists rank: map<string, nat> :: IsRank(g, rank)
  }

  /** The first node with this id, as `nodes.iter().find(..)` returns it. */
  function FindNode(nodes: seq<TaskNode>, id: string): (r: Option<TaskNode>)
    ensures r.Some? ==> r.value in nodes && r.value.id == id
    ensures r.None? ==> forall n :: n in nodes ==> n.id != id
  {
    if nodes == [] then None
    else if nodes[0].id == id then Some(nodes[0])
    else FindNode(nodes[1..], id)
  }

  lemma SameNode(g: TaskGraph, m: TaskNode, n: TaskNode)
    requires UniqueIds(g) && m in g.nodes && n in g.nodes && m.id == n.id
    ensures m == n
  {
    var i :| 0 <= i < |g.nodes| && g.nodes[i] == m;
    var j :| 0 <= j < |g.nodes| && g.nodes[j] == n;
    assert i == j;
  }

  lemma NodeIdentity(g: TaskGraph)
    requires WellFormed(g)
    ensures forall m, n :: m in g.nodes && n in g.nodes && m.id == n.id ==> m == n
    ensures forall n :: n in g.nodes ==> 1 <= n.maxAttempts && FindNode(g.nodes, n.id) == Some(n)
  {
    forall m, n | m in g.nodes && n in g.nodes && m.id == n.id
      ensures m == n
    {
      SameNode(g, m, n);
    }
  }
}
