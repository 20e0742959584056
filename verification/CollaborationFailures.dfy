/** What a failing worker does to a collaboration: the host never gets the joint answer. */
module CollaborationFailures {
  import opened Common
  import opened Collaboration
  import opened CollaborationRuns

  /** A worker with a job finishes it or fails. */
  datatype Event = Finishes(f: Finishing) | Fails(worker: string, taskId: string, reason: string)

  function WorkerOf(e: Event): string {
    match e
    case Finishes(f) => f.worker
    case Fails(worker, _, _) => worker
  }

  function FailureText(taskId: string, reason: string): Answer {
    Plain("任务失败: " + taskId + " (" + reason + ")")
  }

  /** The commander answers a failed text job with a text of its own and leaves its collaboration as it is. */
  function React(setup: Setup, s: Session, e: Event): Session {
    match e
    case Finishes(f) => Next(setup, s, f)
    case Fails(worker, taskId, reason) => s.(jobs := s.jobs - {worker}, texts := s.texts + [FailureText(taskId, reason)])
  }

  ghost predicate LegalEvents(setup: Setup, s: Session, events: seq<Event>)
    decreases |events|
  {
    events == [] || (WorkerOf(events[0]) in s.jobs && LegalEvents(setup, React(setup, s, events[0]), events[1..]))
  }

  ghost function ExecEvents(setup: Setup, s: Session, events: seq<Event>): Session
    requires LegalEvents(setup, s, events)
    decreases |events|
  {
    if events == [] then s else ExecEvents(setup, React(setup, s, events[0]), events[1..])
  }

  function FailureTexts(events: seq<Event>): seq<Answer> {
    if events == [] then []
    else (match events[0] case Fails(_, taskId, reason) => [FailureText(taskId, reason)] case Finishes(_) => [])
         + FailureTexts(events[1..])
  }

  /** A support that failed is still awaited, and whoever works is awaited too. */
  ghost predicate Stuck(setup: Setup, s: Session, failed: string) {
    && s.collab.active == Some(PlanOf(setup)) && PlanOf(setup).support != []
    && failed in s.collab.pending && failed !in s.jobs
    && PlanOf(setup).primary.workerId !in s.jobs
    && forall w :: w in s.jobs ==> w in s.collab.pending
  }

  lemma FailureSticks(setup: Setup, s: Session, w: string, taskId: string, reason: string)
    requires PlanOk(PlanOf(setup)) && SupportPhase(setup, s) && w in s.jobs
    ensures Stuck(setup, React(setup, s, Fails(w, taskId, reason)), w)
  {
    hide PlanOf, PlanOk, Dispatched, OutputsOk;
    forall v | v in s.jobs
      ensures v != PlanOf(setup).primary.workerId
    {
      SupportAssignment(setup, v);
    }
  }

  lemma StuckStep(setup: Setup, s: Session, failed: string, e: Event)
    requires Stuck(setup, s, failed) && WorkerOf(e) in s.jobs
    ensures Stuck(setup, React(setup, s, e), failed)
    ensures React(setup, s, e).texts == s.texts + FailureTexts([e])
  {
    hide PlanOf, AssignmentFor, FinalAnswer;
    assert [e][1..] == [];
    if e.Finishes? {
      var w := e.f.worker;
      forall v
        ensures v in Without(s.collab.pending, w) <==> v in s.collab.pending && v != w
      {
        InWithout(s.collab.pending, w, v);
      }
    }
  }

  lemma {:induction false} StuckRun(setup: Setup, s: Session, failed: string, events: seq<Event>)
    requires Stuck(setup, s, failed) && LegalEvents(setup, s, events)
    ensures Stuck(setup, ExecEvents(setup, s, events), failed)
    ensures ExecEvents(setup, s, events).texts == s.texts + FailureTexts(events)
    decreases |events|
  {
    if events != [] {
      hide Stuck, React;
      StuckStep(setup, s, failed, events[0]);
      assert [events[0]][1..] == [];
      StuckRun(setup, React(setup, s, events[0]), failed, events[1..]);
    }
  }

  /**
   * Once a dispatched support fails, the host gets nothing but failure texts, whatever the other workers
   * do, and the collaboration stays open.
   */
  lemma FailedSupportSilences(
    setup: Setup, run: seq<Finishing>, w: string, taskId: string, reason: string, events: seq<Event>)
    requires PlanOk(PlanOf(setup)) && Legal(setup, Start(setup), run)
    requires var s := Exec(setup, Start(setup), run);
             SupportPhase(setup, s) && w in s.jobs && LegalEvents(setup, React(setup, s, Fails(w, taskId, reason)), events)
    ensures
      var last := ExecEvents(setup, React(setup, Exec(setup, Start(setup), run), Fails(w, taskId, reason)), events);
      && last.texts == [FailureText(taskId, reason)] + FailureTexts(events)
      && last.collab.active.Some? && w in last.collab.pending
  {
    hide PlanOk, PlanOf, Start, Exec, Legal, LegalEvents, ExecEvents, Dispatched, OutputsOk;
    var s := Exec(setup, Start(setup), run);
    FailureSticks(setup, s, w, taskId, reason);
    StuckRun(setup, React(setup, s, Fails(w, taskId, reason)), w, events);
  }

  // ---------------------------------------------------------------- when the answer is sent

  /** A failure has made the joint answer impossible. */
  ghost predicate Broken(setup: Setup, s: Session) {
    || (exists w :: Stuck(setup, s, w))
    || (s.jobs == {} && PlanOf(setup).primary.workerId !in s.heard)
  }

  lemma FailureBreaks(setup: Setup, s: Session, e: Event)
    requires PlanOk(PlanOf(setup)) && SessionOk(setup, s) && WorkerOf(e) in s.jobs && e.Fails?
    ensures Broken(setup, React(setup, s, e))
  {
    hide PlanOk, PlanOf, Dispatched, OutputsOk, FinalText, Stuck, SupportPhase;
    if SupportPhase(setup, s) {
      FailureSticks(setup, s, e.worker, e.taskId, e.reason);
    } else {
      assert Asking(setup, s);
      assert React(setup, s, e).jobs == {};
    }
  }

  lemma BrokenStays(setup: Setup, s: Session, e: Event)
    requires Broken(setup, s) && WorkerOf(e) in s.jobs
    ensures Broken(setup, React(setup, s, e))
  {
    hide Stuck, React;
    var w :| Stuck(setup, s, w);
    StuckStep(setup, s, w, e);
  }

  lemma BrokenNotEnded(setup: Setup, s: Session, order: seq<string>)
    requires Broken(setup, s)
    ensures !Ended(setup, s, order)
  {
    hide PlanOf, Dispatched, FinalText;
  }

  ghost predicate NoFailure(events: seq<Event>) {
    forall e :: e in events ==> e.Finishes?
  }

  lemma {:induction false} BrokenRun(setup: Setup, s: Session, events: seq<Event>)
    requires Broken(setup, s) && LegalEvents(setup, s, events)
    ensures Broken(setup, ExecEvents(setup, s, events))
    decreases |events|
  {
    if events != [] {
      hide Broken, React;
      BrokenStays(setup, s, events[0]);
      BrokenRun(setup, React(setup, s, events[0]), events[1..]);
    }
  }

  lemma {:induction false} RunBreaksOrKeeps(setup: Setup, s: Session, events: seq<Event>)
    requires PlanOk(PlanOf(setup)) && SessionOk(setup, s) && LegalEvents(setup, s, events)
    ensures if NoFailure(events) then SessionOk(setup, ExecEvents(setup, s, events)) else Broken(setup, ExecEvents(setup, s, events))
    decreases |events|
  {
    if events != [] {
      hide SessionOk, Broken, Next, PlanOk, PlanOf;
      var e, rest := events[0], events[1..];
      assert events == [e] + rest;
      if e.Finishes? {
        StepKeeps(setup, s, e.f);
        RunBreaksOrKeeps(setup, React(setup, s, e), rest);
        assert NoFailure(events) <==> NoFailure(rest);
      } else {
        FailureBreaks(setup, s, e);
        BrokenRun(setup, React(setup, s, e), rest);
        assert e in events;
      }
    }
  }

  /**
   * Once nobody works any more, the host has the one final text of the collaboration if and only if no
   * worker failed.
   */
  lemma AnsweredIffNoFailure(setup: Setup, events: seq<Event>)
    requires PlanOk(PlanOf(setup)) && LegalEvents(setup, Start(setup), events)
    requires ExecEvents(setup, Start(setup), events).jobs == {}
    ensures (exists order :: Ended(setup, ExecEvents(setup, Start(setup), events), order)) <==> NoFailure(events)
  {
    StartOk(setup);
    hide PlanOk, PlanOf, Start, ExecEvents, LegalEvents, Ended, Broken, Asking, SupportPhase;
    var last := ExecEvents(setup, Start(setup), events);
    RunBreaksOrKeeps(setup, Start(setup), events);
    if NoFailure(events) {
      OkAnswersOnce(setup, last);
    } else {
      forall order
        ensures !Ended(setup, last, order)
      {
        BrokenNotEnded(setup, last, order);
      }
    }
  }
}
