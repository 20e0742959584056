/** The commander of a whole run is the commander class, fed with the messages that the run delivers. */
module CommanderRuns {
  import opened TaskGraphs
  import opened TaskCommander
  import opened Workers
  import opened Protocol
  import opened ProtocolSafety
  import opened Runs

  /** The messages that a run delivers to the commander, in order. */
  ghost function Delivered(setup: Setup, s: System, run: seq<Action>): seq<Message>
    requires Legal(setup, s, run)
    decreases |run|
  {
    if run == [] then []
    else (if run[0].DeliverStep? then [s.inbox[0]] else []) + Delivered(setup, Next(setup, s, run[0]), run[1..])
  }

  /** From `s` to `last` the commander did exactly `d`. */
  predicate CommanderDid(s: System, last: System, d: Decision) {
    && last.active == d.active
    && last.texts == s.texts + d.texts
    && last.recorded == s.recorded + d.recorded
    && last.log == s.log + d.events
  }

  lemma StepOfCommander(setup: Setup, s: System, a: Action)
    requires Enabled(s, a)
    ensures CommanderDid(s, Next(setup, s, a),
              if a.DeliverStep? then OnMessage(setup.graph, setup.checks, s.active, s.inbox[0], setup.workers) else Stay(s.active))
  {
    hide OnReport, Post, Conclude, Think, Act;
  }

  lemma DidThen(s: System, mid: System, last: System, d: Decision, e: Decision)
    requires CommanderDid(s, mid, d) && CommanderDid(mid, last, e)
    ensures CommanderDid(s, last, Then(d, e))
  {
  }

  lemma {:induction false} CommanderAlong(setup: Setup, s: System, run: seq<Action>)
    requires Legal(setup, s, run)
    ensures CommanderDid(s, Exec(setup, s, run),
              OnMessages(setup.graph, setup.checks, s.active, Delivered(setup, s, run), setup.workers))
    decreases |run|
  {
    if run != [] {
      hide CommanderDid, OnMessage, Next, Enabled;
      var next := Next(setup, s, run[0]);
      var later := Delivered(setup, next, run[1..]);
      StepOfCommander(setup, s, run[0]);
      CommanderAlong(setup, next, run[1..]);
      var rest := OnMessages(setup.graph, setup.checks, next.active, later, setup.workers);
      if run[0].DeliverStep? {
        var d := OnMessage(setup.graph, setup.checks, s.active, s.inbox[0], setup.workers);
        assert next.active == d.active by { ActiveAfter(s, next, d); }
        DidThen(s, next, Exec(setup, next, run[1..]), d, rest);
        assert ([s.inbox[0]] + later)[1..] == later;
      } else {
        assert next.active == s.active by { ActiveAfter(s, next, Stay(s.active)); }
        DidThen(s, next, Exec(setup, next, run[1..]), Stay(s.active), rest);
        StayFirst(rest, s.active);
        assert [] + later == later;
      }
    }
  }

  lemma ActiveAfter(s: System, next: System, d: Decision)
    requires CommanderDid(s, next, d)
    ensures next.active == d.active
  {
  }

  /** A run delivers only what the workers of a graph send. */
  lemma {:induction false} DeliversGraphMessages(setup: Setup, s: System, run: seq<Action>)
    requires SetupOk(setup) && IsDag(setup.graph) && SystemOk(setup, s) && Legal(setup, s, run)
    ensures GraphMessages(Delivered(setup, s, run))
    decreases |run|
  {
    hide SetupOk, IsDag, Next, SystemOk;
    if run != [] {
      StepKeeps(setup, s, run[0]);
      DeliversGraphMessages(setup, Next(setup, s, run[0]), run[1..]);
      HeadFromWorkers(setup, s);
    }
  }

  lemma HeadFromWorkers(setup: Setup, s: System)
    requires SystemOk(setup, s)
    ensures s.inbox != [] ==> GraphMessage(s.inbox[0])
  {
    hide ActiveOk, FinishedOk;
  }

  /**
   * The commander of the transition system refines to the class: whatever a run has delivered, its active
   * graph, texts, records and events are those of `Commander.Serve` on exactly these messages.
   */
  lemma RunsServe(setup: Setup, run: seq<Action>)
    requires Legal(setup, Boot(setup), run)
    ensures
      var last := Exec(setup, Boot(setup), run);
      var d := Served(setup.graph, setup.checks, Delivered(setup, Boot(setup), run), setup.workers);
      last.active == d.active && last.texts == d.texts && last.recorded == d.recorded && last.log == d.events
    ensures SetupOk(setup) && IsDag(setup.graph) ==> GraphMessages(Delivered(setup, Boot(setup), run))
  {
    hide Schedule, OnMessages, Post, Legal, Exec, Delivered, SetupOk, IsDag, SystemOk, GraphMessages;
    CommanderAlong(setup, Boot(setup), run);
    if SetupOk(setup) && IsDag(setup.graph) {
      BootOk(setup);
      DeliversGraphMessages(setup, Boot(setup), run);
    }
  }
}
