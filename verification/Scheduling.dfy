/** Which nodes may run, which can no longer run, and why some node always can. */
module Scheduling {
  import opened Common
  import opened TaskGraphs
  import opened Evaluator
  import opened GraphRuntime
  import opened RuntimeInvariant

  // ---------------------------------------------------------------- readiness

  ghost predicate DistinctWorkers(nodes: seq<TaskNode>) {
    forall i, j :: 0 <= i < j < |nodes| ==> nodes[i].workerId != nodes[j].workerId
  }

  /** No runnable node of an idle worker among the first `k` is left without a selected colleague. */
  ghost predicate NoneOverlooked(g: TaskGraph, states: map<string, NodeState>, ready: seq<TaskNode>, k: nat) {
    forall i :: 0 <= i < k && i < |g.nodes| && Runnable(states, g.nodes[i]) && !WorkerBusy(g, states, g.nodes[i].workerId) ==>
      AmongWorkers(ready, g.nodes[i].workerId)
  }

  /** Readiness selects runnable nodes of idle workers, one per worker, and overlooks none. */
  lemma {:induction false} ReadyExact(g: TaskGraph, states: map<string, NodeState>, k: nat)
    requires k <= |g.nodes|
    ensures var ready := ReadyUpTo(g, states, k);
            && (forall n :: n in ready ==> n in g.nodes && Runnable(states, n) && !WorkerBusy(g, states, n.workerId))
            && DistinctWorkers(ready) && NoneOverlooked(g, states, ready, k)
  {
    if k > 0 {
      hide Runnable, WorkerBusy;
      ReadyExact(g, states, k - 1);
      var earlier, ready := ReadyUpTo(g, states, k - 1), ReadyUpTo(g, states, k);
      assert forall w :: AmongWorkers(earlier, w) ==> AmongWorkers(ready, w);
      if ready != earlier {
        assert ready[|earlier|] == g.nodes[k - 1];
      }
    }
  }

  /** The node stands in the graph before every other one that its worker could run. */
  ghost predicate Foremost(g: TaskGraph, states: map<string, NodeState>, n: TaskNode) {
    exists i :: 0 <= i < |g.nodes| && g.nodes[i] == n && forall j :: 0 <= j < i && Runnable(states, g.nodes[j]) ==>
      g.nodes[j].workerId != n.workerId
  }

  /** Ready nodes come in the order of the graph, each the first that its worker could run. */
  lemma {:induction false} ReadyForemost(g: TaskGraph, states: map<string, NodeState>, k: nat)
    requires k <= |g.nodes|
    ensures InOrderOf(ReadyUpTo(g, states, k), g.nodes[..k])
    ensures forall n :: n in ReadyUpTo(g, states, k) ==> Foremost(g, states, n)
  {
    hide Runnable, WorkerBusy, InOrderOf, Foremost, AmongWorkers;
    if k == 0 {
      NothingInOrder<TaskNode>(g.nodes[..0]);
    } else {
      var earlier, n := ReadyUpTo(g, states, k - 1), g.nodes[k - 1];
      ReadyForemost(g, states, k - 1);
      MoreInOrder(earlier, g.nodes[..k - 1], n);
      assert g.nodes[..k - 1] + [n] == g.nodes[..k];
      if Runnable(states, n) && !WorkerBusy(g, states, n.workerId) && !AmongWorkers(earlier, n.workerId) {
        ReadyExact(g, states, k - 1);
        FirstOfWorker(g, states, earlier, k - 1);
      }
    }
  }

  lemma FirstOfWorker(g: TaskGraph, states: map<string, NodeState>, earlier: seq<TaskNode>, k: nat)
    requires k < |g.nodes| && NoneOverlooked(g, states, earlier, k)
    requires !AmongWorkers(earlier, g.nodes[k].workerId) && !WorkerBusy(g, states, g.nodes[k].workerId)
    ensures Foremost(g, states, g.nodes[k])
  {
    hide Runnable, WorkerBusy, AmongWorkers;
  }

  // ---------------------------------------------------------------- ancestors

  ghost predicate AncestorWithin(g: TaskGraph, a: string, id: string, k: nat)
    decreases k
  {
    k > 0 && exists n, r :: n in g.nodes && n.id == id && r in n.inputRefs && (r == a || AncestorWithin(g, a, r, k - 1))
  }

  /** `a` is reached from `id` by following one or more input references. */
  ghost predicate Ancestor(g: TaskGraph, a: string, id: string) {
    exists k: nat :: AncestorWithin(g, a, id, k)
  }

  ghost predicate FailedId(states: map<string, NodeState>, id: string) {
    id in states && states[id].Failed?
  }

  ghost predicate SkippedId(states: map<string, NodeState>, id: string) {
    id in states && states[id].Skipped?
  }

  ghost predicate Worked(states: map<string, NodeState>, id: string) {
    id in states && (states[id].Running? || states[id].Passed? || states[id].Failed?)
  }

  /** A node behind a blocking input is skipped, whatever else the graph is doing. */
  lemma BlockedIsSkipped(g: TaskGraph, checks: TextChecks, rt: Runtime, n: TaskNode)
    requires RuntimeOk(g, checks, rt) && n in g.nodes && BlockedInput(rt.states, n)
    ensures SkippedId(rt.states, n.id)
  {
    assert NodeOk(checks, rt, n);
  }

  lemma {:induction false} FailureSkips(g: TaskGraph, checks: TextChecks, rt: Runtime, a: string, id: string, k: nat)
    requires RuntimeOk(g, checks, rt) && AncestorWithin(g, a, id, k) && FailedId(rt.states, a)
    ensures SkippedId(rt.states, id)
    decreases k
  {
    hide RuntimeOk;
    var n, r :| n in g.nodes && n.id == id && r in n.inputRefs && (r == a || AncestorWithin(g, a, r, k - 1));
    if r != a {
      FailureSkips(g, checks, rt, a, r, k - 1);
    }
    assert Blocks(rt.states, r);
    BlockedIsSkipped(g, checks, rt, n);
  }

  lemma {:induction false} SkipHasFailure(g: TaskGraph, checks: TextChecks, rt: Runtime, rank: map<string, nat>,
      n: TaskNode)
    requires RuntimeOk(g, checks, rt) && IsRank(g, rank) && n in g.nodes && SkippedId(rt.states, n.id)
    ensures exists a :: Ancestor(g, a, n.id) && FailedId(rt.states, a)
    decreases rank[n.id]
  {
    assert NodeOk(checks, rt, n);
    var r :| r in n.inputRefs && Blocks(rt.states, r);
    if FailedId(rt.states, r) {
      assert AncestorWithin(g, r, n.id, 1);
    } else {
      var m :| m in g.nodes && m.id == r;
      SkipHasFailure(g, checks, rt, rank, m);
      var a :| Ancestor(g, a, r) && FailedId(rt.states, a);
      AncestorThrough(g, a, n, r);
    }
  }

  lemma AncestorThrough(g: TaskGraph, a: string, n: TaskNode, r: string)
    requires n in g.nodes && r in n.inputRefs && Ancestor(g, a, r)
    ensures Ancestor(g, a, n.id)
  {
    var k: nat :| AncestorWithin(g, a, r, k);
    assert AncestorWithin(g, a, n.id, k + 1);
  }

  lemma WorkedInputsPassed(g: TaskGraph, checks: TextChecks, rt: Runtime, n: TaskNode, r: string)
    requires RuntimeOk(g, checks, rt) && n in g.nodes && Worked(rt.states, n.id) && r in n.inputRefs
    ensures InState(rt.states, r, Passed)
  {
    assert NodeOk(checks, rt, n);
  }

  lemma {:induction false} AncestorsPassed(g: TaskGraph, checks: TextChecks, rt: Runtime, a: string, id: string, k: nat)
    requires RuntimeOk(g, checks, rt) && Worked(rt.states, id) && AncestorWithin(g, a, id, k)
    ensures InState(rt.states, a, Passed)
    decreases k
  {
    hide RuntimeOk;
    var n, r :| n in g.nodes && n.id == id && r in n.inputRefs && (r == a || AncestorWithin(g, a, r, k - 1));
    WorkedInputsPassed(g, checks, rt, n, r);
    if r != a {
      AncestorsPassed(g, checks, rt, a, r, k - 1);
    }
  }

  /**
   * Skips are exact: a node is skipped if and only if a proper ancestor failed, and a skipped node
   * was never attempted. Only nodes all of whose ancestors passed ever run.
   */
  lemma SkipExactness(g: TaskGraph, checks: TextChecks, rt: Runtime, rank: map<string, nat>, n: TaskNode)
    requires RuntimeOk(g, checks, rt) && IsRank(g, rank) && n in g.nodes
    ensures SkippedId(rt.states, n.id) <==> exists a :: Ancestor(g, a, n.id) && FailedId(rt.states, a)
    ensures SkippedId(rt.states, n.id) ==> Untouched(rt, n.id)
    ensures Worked(rt.states, n.id) ==> forall a :: Ancestor(g, a, n.id) ==> InState(rt.states, a, Passed)
  {
    assert NodeOk(checks, rt, n);
    hide NodeOk, RuntimeOk, IsRank;
    if SkippedId(rt.states, n.id) {
      SkipHasFailure(g, checks, rt, rank, n);
    }
    forall a, k: nat | AncestorWithin(g, a, n.id, k)
      ensures FailedId(rt.states, a) ==> SkippedId(rt.states, n.id)
      ensures Worked(rt.states, n.id) ==> InState(rt.states, a, Passed)
    {
      if FailedId(rt.states, a) {
        FailureSkips(g, checks, rt, a, n.id, k);
      }
      if Worked(rt.states, n.id) {
        AncestorsPassed(g, checks, rt, a, n.id, k);
      }
    }
  }

  // ---------------------------------------------------------------- progress

  /** No runnable node waits for an idle worker. */
  ghost predicate NoIdleReady(g: TaskGraph, states: map<string, NodeState>) {
    forall n :: n in g.nodes && Runnable(states, n) ==> WorkerBusy(g, states, n.workerId)
  }

  ghost predicate SomeRunning(g: TaskGraph, states: map<string, NodeState>) {
    exists n :: n in g.nodes && InState(states, n.id, Running)
  }

  ghost predicate Unsettled(states: map<string, NodeState>, id: string) {
    id in states && !states[id].Final()
  }

  lemma UnsettledInput(g: TaskGraph, checks: TextChecks, rt: Runtime, n: TaskNode) returns (m: TaskNode)
    requires RuntimeOk(g, checks, rt) && NoIdleReady(g, rt.states)
    requires n in g.nodes && InState(rt.states, n.id, Pending) && !SomeRunning(g, rt.states)
    ensures m in g.nodes && m.id in n.inputRefs && Unsettled(rt.states, m.id)
  {
    assert NodeOk(checks, rt, n);
    hide NodeOk, IsRank;
    assert !InputsPassed(rt.states, n);
    var r :| r in n.inputRefs && !InState(rt.states, r, Passed);
    m :| m in g.nodes && m.id == r;
    assert !Blocks(rt.states, r);
  }

  /** In a DAG an unfinished node leads down to one that runs. */
  lemma {:induction false} PendingLeadsToRunning(g: TaskGraph, checks: TextChecks, rt: Runtime,
      rank: map<string, nat>, n: TaskNode)
    requires RuntimeOk(g, checks, rt) && IsRank(g, rank) && NoIdleReady(g, rt.states)
    requires n in g.nodes && Unsettled(rt.states, n.id)
    ensures SomeRunning(g, rt.states)
    decreases rank[n.id]
  {
    hide RuntimeOk, NoIdleReady;
    if InState(rt.states, n.id, Pending) && !SomeRunning(g, rt.states) {
      var m := UnsettledInput(g, checks, rt, n);
      PendingLeadsToRunning(g, checks, rt, rank, m);
    }
  }

  /** The scheduler never stalls: unfinished, with no runnable node waiting, some node is running. */
  lemma NeverStalls(g: TaskGraph, checks: TextChecks, rt: Runtime)
    requires RuntimeOk(g, checks, rt) && IsDag(g) && NoIdleReady(g, rt.states)
    ensures IsFinished(rt.states) || SomeRunning(g, rt.states)
  {
    if !IsFinished(rt.states) {
      var rank: map<string, nat> :| IsRank(g, rank);
      var id :| id in rt.states && !rt.states[id].Final();
      var n :| n in g.nodes && n.id == id;
      PendingLeadsToRunning(g, checks, rt, rank, n);
    }
  }
}
