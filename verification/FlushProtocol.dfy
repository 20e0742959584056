/**
 * The file-backed store under concurrent callers: writes go to memory first, and each writing call then
 * copies the memory to the file under a lock of its own.
 */
module FlushProtocol {
  import opened Common
  import opened MemoryRecords
  import opened Upserts
  import opened Reload

  /** Where one caller is. The version counts the writes that its copy of the memory contains. */
  datatype Phase =
    | Idle
    | Writing(dirty: bool)
    | Waiting
    | Locked
    | Snapped(version: nat, image: seq<Record>)
    | Staged(version: nat)
    | Replaced

  /**
   * `history` lists every state of the memory since the store was opened, the current one last;
   * `flushed` is the version that the file holds once a flush has completed.
   */
  datatype Store = Store(
    policy: Policy, history: seq<seq<Record>>, file: seq<Record>, flushed: Option<nat>, temp: seq<Record>,
    lock: Option<nat>, threads: seq<Phase>)

  datatype Action =
    | Begin(t: nat)
    | WriteRecord(t: nat, record: Record, now: int)
    | Finish(t: nat)
    | Acquire(t: nat)
    | Snapshot(t: nat)
    | Stage(t: nat)
    | Rename(t: nat)
    | Release(t: nat)

  function Latest(s: Store): nat
    requires s.history != []
  {
    |s.history| - 1
  }

  function Memory(s: Store): seq<Record>
    requires s.history != []
  {
    s.history[Latest(s)]
  }

  predicate Enabled(s: Store, a: Action) {
    s.history != [] && a.t < |s.threads| &&
    match a
    case Begin(t) => s.threads[t].Idle?
    case WriteRecord(t, _, _) => s.threads[t].Writing?
    case Finish(t) => s.threads[t].Writing?
    case Acquire(t) => s.threads[t].Waiting? && s.lock.None?
    case Snapshot(t) => s.threads[t].Locked?
    case Stage(t) => s.threads[t].Snapped?
    case Rename(t) => s.threads[t].Staged?
    case Release(t) => s.threads[t].Replaced?
  }

  function At(s: Store, t: nat, p: Phase): Store
    requires t < |s.threads|
  {
    s.(threads := s.threads[t := p])
  }

  function Next(s: Store, a: Action): Store
    requires Enabled(s, a)
  {
    match a
    case Begin(t) => At(s, t, Writing(false))
    case WriteRecord(t, record, now) =>
      var (records, outcome) := Upsert(Memory(s), s.policy, record, now);
      if outcome.written == 0 then s
      else At(s.(history := s.history + [records]), t, Writing(true))
    case Finish(t) => At(s, t, if s.threads[t].dirty then Waiting else Idle)
    case Acquire(t) => At(s.(lock := Some(t)), t, Locked)
    case Snapshot(t) => At(s, t, Snapped(Latest(s), Memory(s)))
    case Stage(t) => At(s.(temp := s.threads[t].image), t, Staged(s.threads[t].version))
    case Rename(t) => At(s.(file := s.temp, flushed := Some(s.threads[t].version)), t, Replaced)
    case Release(t) => At(s.(lock := None), t, Idle)
  }

  function NoCallers(callers: nat): (threads: seq<Phase>)
    ensures |threads| == callers && forall t :: 0 <= t < callers ==> threads[t] == Idle
  {
    if callers == 0 then [] else NoCallers(callers - 1) + [Idle]
  }

  function Opened(policy: Policy, memory: seq<Record>, file: seq<Record>, callers: nat): Store {
    Store(policy, [memory], file, None, [], None, NoCallers(callers))
  }

  /** Opening the store on a file: its records are replayed and no caller is active. */
  function Open(policy: Policy, file: seq<Record>, times: seq<int>, callers: nat): Store
    requires |times| == |file|
  {
    Opened(policy, Reloaded(file, times, policy), file, callers)
  }

  // ---------------------------------------------------------------- the invariant

  predicate InLock(p: Phase) {
    p.Locked? || p.Snapped? || p.Staged? || p.Replaced?
  }

  predicate Carries(p: Phase) {
    p.Snapped? || p.Staged?
  }

  /** A caller that still has the current memory to bring to the file. */
  predicate Owes(p: Phase, latest: nat) {
    || (p.Writing? && p.dirty) || p.Waiting? || p.Locked?
    || (Carries(p) && p.version == latest)
  }

  ghost predicate LockOk(s: Store) {
    && (s.lock.Some? ==> s.lock.value < |s.threads|)
    && (forall t :: 0 <= t < |s.threads| ==> (InLock(s.threads[t]) <==> s.lock == Some(t)))
  }

  predicate CopyOk(s: Store, p: Phase)
    requires s.history != []
  {
    Carries(p) ==>
      && p.version <= Latest(s)
      && (s.flushed.Some? ==> s.flushed.value <= p.version)
      && (if p.Snapped? then p.image else s.temp) == s.history[p.version]
  }

  ghost predicate CopiesOk(s: Store)
    requires s.history != []
  {
    forall t :: 0 <= t < |s.threads| ==> CopyOk(s, s.threads[t])
  }

  predicate FileOk(s: Store)
    requires s.history != []
  {
    s.flushed.Some? ==> s.flushed.value <= Latest(s) && s.file == s.history[s.flushed.value]
  }

  ghost predicate SomeoneOwes(s: Store)
    requires s.history != []
  {
    exists t :: 0 <= t < |s.threads| && Owes(s.threads[t], Latest(s))
  }

  ghost predicate Fresh(s: Store)
    requires s.history != []
  {
    Latest(s) == 0 || s.flushed == Some(Latest(s)) || SomeoneOwes(s)
  }

  ghost predicate FlushOk(s: Store) {
    s.history != [] && LockOk(s) && CopiesOk(s) && FileOk(s) && Fresh(s) && StoreOk(Memory(s), s.policy)
  }

  lemma OpenedOk(policy: Policy, memory: seq<Record>, file: seq<Record>, callers: nat)
    requires StoreOk(memory, policy)
    ensures FlushOk(Opened(policy, memory, file, callers))
  {
    hide StoreOk;
  }

  lemma LockStep(s: Store, a: Action)
    requires Enabled(s, a)
    requires LockOk(s)
    ensures LockOk(Next(s, a))
  {
    hide Upsert;
  }

  lemma CopyStep(s: Store, a: Action, t: nat)
    requires Enabled(s, a) && t < |s.threads|
    requires LockOk(s) && CopiesOk(s) && FileOk(s)
    ensures CopyOk(Next(s, a), Next(s, a).threads[t])
  {
    hide Upsert;
    assert CopyOk(s, s.threads[t]) && CopyOk(s, s.threads[a.t]);
    assert InLock(s.threads[t]) <==> s.lock == Some(t);
    assert InLock(s.threads[a.t]) <==> s.lock == Some(a.t);
  }

  lemma FileStep(s: Store, a: Action)
    requires Enabled(s, a)
    requires CopiesOk(s) && FileOk(s)
    ensures FileOk(Next(s, a))
  {
    hide Upsert;
    assert CopyOk(s, s.threads[a.t]);
  }

  lemma FreshStep(s: Store, a: Action)
    requires Enabled(s, a)
    requires CopiesOk(s) && FileOk(s) && Fresh(s)
    ensures Fresh(Next(s, a))
  {
    hide Upsert;
    assert CopyOk(s, s.threads[a.t]);
    var next := Next(s, a);
    if Latest(next) > Latest(s) {
      assert Owes(next.threads[a.t], Latest(next));
    } else if SomeoneOwes(s) {
      var t :| 0 <= t < |s.threads| && Owes(s.threads[t], Latest(s));
      assert Owes(next.threads[t], Latest(next)) || next.flushed == Some(Latest(next));
    }
  }

  lemma MemoryStep(s: Store, a: Action)
    requires Enabled(s, a)
    requires StoreOk(Memory(s), s.policy)
    ensures Next(s, a).history != [] && StoreOk(Memory(Next(s, a)), s.policy)
  {
    hide StoreOk, Upsert;
    if a.WriteRecord? {
      UpsertKeeps(Memory(s), s.policy, a.record, a.now);
    }
  }

  lemma StepKeeps(s: Store, a: Action)
    requires Enabled(s, a)
    requires FlushOk(s)
    ensures FlushOk(Next(s, a))
  {
    hide StoreOk, LockOk, CopyOk, FileOk, Fresh;
    LockStep(s, a);
    FileStep(s, a);
    FreshStep(s, a);
    MemoryStep(s, a);
    KeepsShape(s, a);
    forall t | 0 <= t < |s.threads|
      ensures CopyOk(Next(s, a), Next(s, a).threads[t])
    {
      CopyStep(s, a, t);
    }
  }

  lemma KeepsShape(s: Store, a: Action)
    requires Enabled(s, a)
    ensures |Next(s, a).threads| == |s.threads| && Next(s, a).policy == s.policy && s.history <= Next(s, a).history
  {
    hide Upsert;
  }

  // ---------------------------------------------------------------- runs

  ghost predicate Run(s: Store, actions: seq<Action>, end: Store)
    decreases |actions|
  {
    if actions == [] then s == end
    else Enabled(s, actions[0]) && Run(Next(s, actions[0]), actions[1..], end)
  }

  lemma {:induction false} RunKeeps(s: Store, actions: seq<Action>, end: Store)
    requires FlushOk(s) && Run(s, actions, end)
    ensures FlushOk(end)
    decreases |actions|
  {
    hide FlushOk, Enabled, Next;
    if actions != [] {
      StepKeeps(s, actions[0]);
      RunKeeps(Next(s, actions[0]), actions[1..], end);
    }
  }

  predicate Quiet(s: Store) {
    forall t :: 0 <= t < |s.threads| ==> s.threads[t].Idle?
  }

  lemma QuietIsFlushed(s: Store)
    requires FlushOk(s) && Quiet(s)
    ensures s.history != [] && StoreOk(Memory(s), s.policy)
    ensures Latest(s) > 0 ==> s.file == Memory(s)
  {
    hide StoreOk;
  }

  /**
   * Flush agreement: however the callers interleave, whenever none is active and some write has happened
   * since the store was opened, the file holds exactly the memory.
   */
  lemma FlushAgreement(policy: Policy, file: seq<Record>, times: seq<int>, callers: nat, actions: seq<Action>,
      end: Store)
    requires |times| == |file| && Run(Open(policy, file, times, callers), actions, end)
    requires Quiet(end)
    ensures end.history != [] && StoreOk(Memory(end), end.policy)
    ensures Latest(end) > 0 ==> end.file == Memory(end)
  {
    hide StoreOk, Run, Opened, After, FlushOk, Quiet;
    ReachableOk(Replay(file, times), policy);
    OpenedOk(policy, Reloaded(file, times, policy), file, callers);
    QuietIsFlushed(end) by { RunKeeps(Open(policy, file, times, callers), actions, end); }
  }

  /** The file never returns to an older state of the memory. */
  lemma FileNeverGoesBack(s: Store, a: Action)
    requires Enabled(s, a)
    requires FlushOk(s) && s.flushed.Some?
    ensures Next(s, a).flushed.Some? && s.flushed.value <= Next(s, a).flushed.value
    ensures Next(s, a).flushed != s.flushed ==> a.Rename?
  {
    hide StoreOk, Upsert, LockOk, Fresh;
    assert CopyOk(s, s.threads[a.t]);
  }

  /** Reopening the file of a quiet store restores its memory exactly when all its content is stable. */
  lemma ReopenRestores(
    policy: Policy, file: seq<Record>, times: seq<int>, callers: nat, actions: seq<Action>, end: Store, later: seq<int>)
    requires |times| == |file| && Run(Open(policy, file, times, callers), actions, end)
    requires Quiet(end) && end.history != [] && Latest(end) > 0 && |later| == |end.file|
    ensures Reloaded(end.file, later, end.policy) == Memory(end) <==> AllStable(Memory(end))
  {
    hide StoreOk, Run, Open, Reloaded, AllStable;
    FlushAgreement(policy, file, times, callers, actions, end);
    ReloadIdentity(Memory(end), later, end.policy);
  }

  /** While any caller is active it can step or the holder of the lock can. */
  lemma NeverBlocked(s: Store, t: nat)
    requires FlushOk(s) && t < |s.threads| && !s.threads[t].Idle?
    ensures exists a :: Enabled(s, a) && (a.t == t || s.lock == Some(a.t))
  {
    hide StoreOk, CopiesOk, FileOk, Fresh;
    match s.threads[t]
    case Writing(_) => assert Enabled(s, Finish(t));
    case Waiting =>
      match s.lock {
        case None => assert Enabled(s, Acquire(t));
        case Some(u) => HolderSteps(s, u);
      }
    case Locked => assert Enabled(s, Snapshot(t));
    case Snapped(_, _) => assert Enabled(s, Stage(t));
    case Staged(_) => assert Enabled(s, Rename(t));
    case Replaced => assert Enabled(s, Release(t));
  }

  lemma HolderSteps(s: Store, u: nat)
    requires s.history != [] && LockOk(s) && s.lock == Some(u) && u < |s.threads|
    ensures exists a :: Enabled(s, a) && a.t == u
  {
    match s.threads[u]
    case Locked => assert Enabled(s, Snapshot(u));
    case Snapped(_, _) => assert Enabled(s, Stage(u));
    case Staged(_) => assert Enabled(s, Rename(u));
    case Replaced => assert Enabled(s, Release(u));
    case _ => assert false;
  }
}
