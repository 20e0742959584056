/** The three-colour depth-first search over a rule's dependencies. */
module CycleCheck {
  import opened Common

  datatype VisitState = Visiting | Done

  type Deps = map<string, seq<string>>

  function DepsOf(deps: Deps, id: string): seq<string> {
    if id in deps then deps[id] else []
  }

  /** Every element depends on the next one. */
  ghost predicate Chain(deps: Deps, path: seq<string>) {
    forall i :: 0 <= i < |path| - 1 ==> path[i + 1] in DepsOf(deps, path[i])
  }

  /** A dependency path from a node back to itself. */
  ghost predicate IsCycle(deps: Deps, path: seq<string>) {
    |path| >= 2 && path[0] == path[|path| - 1] && Chain(deps, path)
  }

  ghost predicate HasCycle(deps: Deps) {
    exists path :: IsCycle(deps, path)
  }

  /** Everything a node depends on comes before it. */
  ghost predicate Topological(deps: Deps, order: seq<string>) {
    forall i, d :: 0 <= i < |order| && d in DepsOf(deps, order[i]) ==> d in order[..i]
  }

  lemma {:induction false} IndexBelow(deps: Deps, order: seq<string>, path: seq<string>, k: nat, i: nat)
    requires Topological(deps, order) && Chain(deps, path)
    requires k < |path| && i < |order| && path[0] == order[i]
    ensures path[k] in order[..i + 1] && (k > 0 ==> path[k] in order[..i])
  {
    if k > 0 {
      IndexBelow(deps, order, path, k - 1, i);
      var j :| 0 <= j < i + 1 && order[j] == path[k - 1];
      assert path[k - 1 + 1] in DepsOf(deps, path[k - 1]);
      assert path[k] in order[..j];
    }
  }

  /** A topological order rules out cycles through any node it lists. */
  lemma NoCycleThrough(deps: Deps, order: seq<string>, path: seq<string>, i: nat)
    requires Topological(deps, order) && |path| >= 2
    requires i < |order| && path[0] == order[i] && order[i] !in order[..i]
    ensures !IsCycle(deps, path)
  {
    if Chain(deps, path) {
      IndexBelow(deps, order, path, |path| - 1, i);
    }
  }

  lemma {:induction false} FirstIndex(order: seq<string>, id: string) returns (i: nat)
    requires id in order
    ensures i < |order| && order[i] == id && id !in order[..i]
  {
    if id in order[..|order| - 1] {
      i := FirstIndex(order[..|order| - 1], id);
      assert order[..|order| - 1][..i] == order[..i];
    } else {
      i := |order| - 1;
    }
  }

  /** The visiting nodes are the path searched, the done ones are listed after their dependencies. */
  ghost predicate SearchOk(deps: Deps, states: map<string, VisitState>, all: set<string>, stack: seq<string>,
      order: seq<string>) {
    && (forall id :: id in states ==> id in all && (if states[id].Visiting? then id in stack else id in order))
    && (forall id :: id in stack ==> id in states && states[id].Visiting?)
    && (forall id :: id in order ==> id in states && states[id].Done?)
    && Chain(deps, stack) && Topological(deps, order)
  }

  /** Starting a node puts it at the end of the path. */
  lemma Enter(deps: Deps, states: map<string, VisitState>, all: set<string>, stack: seq<string>, order: seq<string>,
      id: string)
    requires SearchOk(deps, states, all, stack, order) && id !in states && id in all
    requires stack != [] ==> id in DepsOf(deps, stack[|stack| - 1])
    ensures SearchOk(deps, states[id := Visiting], all, stack + [id], order)
  {
    hide Topological;
  }

  /** A node whose dependencies are all listed leaves the path for the list. */
  lemma Leave(deps: Deps, states: map<string, VisitState>, all: set<string>, stack: seq<string>, order: seq<string>,
      id: string)
    requires SearchOk(deps, states, all, stack + [id], order) && id !in stack
    requires forall d :: d in DepsOf(deps, id) ==> d in order
    ensures SearchOk(deps, states[id := Done], all, stack, order + [id])
  {
    hide Topological, Chain;
    ExtendOrder(deps, order, id);
    ShorterChain(deps, stack, id);
    assert id in stack + [id];
    assert forall x :: x in stack ==> x in stack + [id];
  }

  lemma ShorterChain(deps: Deps, stack: seq<string>, id: string)
    ensures Chain(deps, stack + [id]) ==> Chain(deps, stack)
  {
    if Chain(deps, stack + [id]) {
      forall i | 0 <= i < |stack| - 1
        ensures stack[i + 1] in DepsOf(deps, stack[i])
      {
        assert (stack + [id])[i] == stack[i] && (stack + [id])[i + 1] == stack[i + 1];
      }
    }
  }

  /** Meeting a node of the path again closes a cycle. */
  lemma CloseCycle(deps: Deps, states: map<string, VisitState>, all: set<string>, stack: seq<string>,
      order: seq<string>, id: string) returns (cycle: seq<string>)
    requires SearchOk(deps, states, all, stack, order) && id in states && states[id].Visiting?
    requires stack != [] ==> id in DepsOf(deps, stack[|stack| - 1])
    ensures IsCycle(deps, cycle)
  {
    hide Topological;
    var i :| 0 <= i < |stack| && stack[i] == id;
    cycle := stack[i..] + [id];
    forall k | 0 <= k < |cycle| - 1
      ensures cycle[k + 1] in DepsOf(deps, cycle[k])
    {
      if k + 1 < |stack[i..]| {
        assert stack[i + k + 1] in DepsOf(deps, stack[i + k]);
      }
    }
  }

  lemma ListedWhenDone(deps: Deps, states: map<string, VisitState>, all: set<string>, stack: seq<string>,
      order: seq<string>, id: string)
    requires SearchOk(deps, states, all, stack, order) && id in states && !states[id].Visiting?
    ensures id in order
  {
  }

  lemma FreshNotOnPath(deps: Deps, states: map<string, VisitState>, all: set<string>, stack: seq<string>,
      order: seq<string>, id: string)
    requires SearchOk(deps, states, all, stack, order) && id !in states
    ensures id !in stack && states.Keys <= all
  {
  }

  lemma ClosedUnder(deps: Deps, all: set<string>, id: string)
    requires Closed(deps, all)
    ensures forall d :: d in DepsOf(deps, id) ==> d in all
  {
  }

  class DependencySearch {
    const deps: Deps
    var states: map<string, VisitState>

    constructor (deps: Deps)
      ensures this.deps == deps && states == map[]
    {
      this.deps := deps;
      states := map[];
    }

    ghost predicate Valid(all: set<string>, stack: seq<string>, order: seq<string>)
      reads this
    {
      SearchOk(deps, states, all, stack, order)
    }

    method Visit(id: string, ghost all: set<string>, ghost stack: seq<string>, ghost order: seq<string>)
        returns (ok: bool, ghost done: seq<string>, ghost cycle: seq<string>)
      requires Valid(all, stack, order) && id in all && Closed(deps, all)
      requires stack != [] ==> id in DepsOf(deps, stack[|stack| - 1])
      modifies this
      ensures ok ==> Valid(all, stack, done) && order <= done && id in done
      ensures old(states).Keys <= states.Keys
      ensures !ok ==> IsCycle(deps, cycle)
      decreases all - states.Keys
    {
      hide Topological, Chain, DepsOf, SearchOk, IsCycle, Closed;
      done, cycle := order, [];
      if id in states && states[id].Visiting? {
        cycle := CloseCycle(deps, states, all, stack, order, id);
        return false, done, cycle;
      }
      if id in states {
        ListedWhenDone(deps, states, all, stack, order, id);
        return true, done, cycle;
      }
      Enter(deps, states, all, stack, order, id);
      FreshNotOnPath(deps, states, all, stack, order, id);
      ghost var searched, seen := stack + [id], states.Keys + {id};
      states := states[id := Visiting];
      var ds := DepsOf(deps, id);
      assert forall d :: d in ds ==> d in all by { ClosedUnder(deps, all, id); }
      for i := 0 to |ds|
        invariant Valid(all, searched, done) && order <= done && seen <= states.Keys
        invariant forall j :: 0 <= j < i ==> ds[j] in done
      {
        ghost var earlier := done;
        ok, done, cycle := Visit(ds[i], all, searched, done);
        if !ok {
          return false, done, cycle;
        }
        assert forall j :: 0 <= j < i ==> ds[j] in earlier;
      }
      Leave(deps, states, all, stack, done, id);
      states := states[id := Done];
      done := done + [id];
      ok := true;
    }

    /** Visits every listed node. */
    method Search(ids: seq<string>) returns (ok: bool, ghost done: seq<string>, ghost cycle: seq<string>)
      requires states == map[]
      requires forall id :: id in deps ==> id in ids
      modifies this
      ensures ok <==> !HasCycle(deps)
      ensures ok ==> Topological(deps, done) && forall id :: id in ids ==> id in done
      ensures !ok ==> IsCycle(deps, cycle)
    {
      done, cycle := [], [];
      ghost var all := (set id | id in ids) + (set id, d | id in deps && d in deps[id] :: d);
      for i := 0 to |ids|
        invariant Valid(all, [], done)
        invariant forall j :: 0 <= j < i ==> ids[j] in done
      {
        ghost var earlier := done;
        ok, done, cycle := Visit(ids[i], all, [], done);
        if !ok {
          return false, done, cycle;
        }
        assert forall j :: 0 <= j < i ==> ids[j] in earlier;
      }
      ok := true;
      OrderedIsAcyclic(deps, done);
    }
  }

  ghost predicate Closed(deps: Deps, all: set<string>) {
    forall id, d :: d in DepsOf(deps, id) ==> d in all
  }

  lemma ExtendOrder(deps: Deps, order: seq<string>, id: string)
    requires Topological(deps, order) && forall d :: d in DepsOf(deps, id) ==> d in order
    ensures Topological(deps, order + [id])
  {
    var more := order + [id];
    forall i, d | 0 <= i < |more| && d in DepsOf(deps, more[i])
      ensures d in more[..i]
    {
      assert more[..i] == order[..i];
    }
  }

  lemma OrderedIsAcyclic(deps: Deps, order: seq<string>)
    requires Topological(deps, order) && forall id :: id in deps ==> id in order
    ensures !HasCycle(deps)
  {
    if HasCycle(deps) {
      var path :| IsCycle(deps, path);
      assert path[1] in DepsOf(deps, path[0]);
      var i := FirstIndex(order, path[0]);
      NoCycleThrough(deps, order, path, i);
    }
  }

  // ---------------------------------------------------------------- acyclic tables have an order

  lemma {:induction false} DistinctBound(s: seq<string>, all: set<string>)
    requires Distinct(s) && forall x :: x in s ==> x in all
    ensures |s| <= |all|
  {
    if s != [] {
      var last := s[|s| - 1];
      forall x | x in s[..|s| - 1]
        ensures x in all - {last}
      {
        var i :| 0 <= i < |s| - 1 && s[i] == x;
        assert s[i] in s && s[i] != s[|s| - 1];
      }
      DistinctBound(s[..|s| - 1], all - {last});
    }
  }

  predicate DependsWithin(deps: Deps, all: set<string>, id: string) {
    exists d :: d in DepsOf(deps, id) && d in all
  }

  /** Every node of `all` depends on another one of them. */
  ghost predicate Rootless(deps: Deps, all: set<string>) {
    forall id :: id in all ==> DependsWithin(deps, all, id)
  }

  lemma SomeDependency(deps: Deps, all: set<string>, id: string) returns (d: string)
    requires DependsWithin(deps, all, id)
    ensures d in DepsOf(deps, id) && d in all
  {
    d :| d in DepsOf(deps, id) && d in all;
  }

  lemma {:induction false} Walk(deps: Deps, all: set<string>, start: string, k: nat) returns (path: seq<string>)
    requires Rootless(deps, all) && start in all
    ensures |path| == k + 1 && Chain(deps, path) && forall x :: x in path ==> x in all
  {
    hide DependsWithin;
    if k == 0 {
      path := [start];
    } else {
      var front := Walk(deps, all, start, k - 1);
      assert front[k - 1] in front;
      var d := SomeDependency(deps, all, front[k - 1]);
      path := front + [d];
    }
  }

  /** A rootless set of nodes holds a cycle, by the pigeonhole principle. */
  lemma RootlessHasCycle(deps: Deps, all: set<string>)
    requires Rootless(deps, all) && all != {}
    ensures HasCycle(deps)
  {
    hide Rootless, DepsOf;
    var start :| start in all;
    var path := Walk(deps, all, start, |all|);
    if Distinct(path) {
      DistinctBound(path, all);
    } else {
      var i, j :| 0 <= i < j < |path| && path[i] == path[j];
      var cycle := path[i..j + 1];
      assert forall k :: 0 <= k < |cycle| ==> cycle[k] == path[i + k];
      assert IsCycle(deps, cycle);
    }
  }

  /** Without a cycle every node can be listed after its dependencies. */
  lemma {:induction false} AcyclicHasOrder(deps: Deps, rest: set<string>,
      order: seq<string>) returns (full: seq<string>)
    requires !HasCycle(deps) && Topological(deps, order)
    requires forall id, d :: id in rest && d in DepsOf(deps, id) ==> d in rest || d in order
    ensures Topological(deps, full) && order <= full && forall id :: id in rest ==> id in full
    decreases |rest|
  {
    if rest == {} {
      full := order;
    } else {
      if Rootless(deps, rest) {
        RootlessHasCycle(deps, rest);
      }
      var id :| id in rest && forall d :: d in DepsOf(deps, id) ==> d !in rest;
      ExtendOrder(deps, order, id);
      full := AcyclicHasOrder(deps, rest - {id}, order + [id]);
      assert id in order + [id];
    }
  }

  /** The position of a node's first listing. */
  function IndexOf(order: seq<string>, id: string): (i: nat)
    requires id in order
    ensures i < |order| && order[i] == id && id !in order[..i]
  {
    if order[0] == id then 0 else IndexOf(order[1..], id) + 1
  }
}
