/** The life of runs on the control server, over every interleaving of prompts, brokers and shutdown.
    Runs are numbered in the order they were published; the current run is the last of them. */
module RunLifecycle {
  import opened EventLog
  import opened Wrappers
  import opened Text

  /** Where the thread responsible for a run is: its prompt handler until the broker starts, then its broker. */
  datatype Stage =
    | Starting
    | Draining
    | Checking
    | Collecting(runId: nat, drained: seq<Event>)
    | Notifying
    | Over

  /** A run with all events ever appended to it and the number of finish notifications. */
  datatype Entry = Entry(run: Run, log: seq<Event>, stage: Stage, notified: nat)

  datatype Server = Server(shuttingDown: bool, entries: seq<Entry>)

  const EMPTY_SERVER := Server(false, [])

  datatype Action =
    | Prompt
    | StartFailed(i: nat, message: string)
    | BrokerStarted(i: nat)
    | Drain(i: nat, event: Event)
    | StopDraining(i: nat)
    | Check(i: nat)
    | Collect(i: nat, event: Event)
    | Finalise(i: nat)
    | Notify(i: nat)
    | Shutdown

  predicate Idle(s: Server) {
    |s.entries| == 0 || s.entries[|s.entries| - 1].run.finished
  }

  predicate At(s: Server, i: nat, stage: Stage) {
    i < |s.entries| && s.entries[i].stage == stage
  }

  predicate IsCollecting(s: Server, i: nat) {
    i < |s.entries| && s.entries[i].stage.Collecting?
  }

  predicate Enabled(s: Server, a: Action) {
    match a
    case Prompt => true
    case StartFailed(i, _) => At(s, i, Starting)
    case BrokerStarted(i) => At(s, i, Starting)
    case Drain(i, _) => At(s, i, Draining)
    case StopDraining(i) => At(s, i, Draining)
    case Check(i) => At(s, i, Checking)
    case Collect(i, _) => IsCollecting(s, i) && |s.entries[i].stage.drained| < DRAIN_MAX_ITERATIONS
    case Finalise(i) => IsCollecting(s, i)
    case Notify(i) => At(s, i, Notifying)
    case Shutdown => true
  }

  function SetStage(s: Server, i: nat, stage: Stage): Server
    requires i < |s.entries|
  {
    s.(entries := s.entries[i := s.entries[i].(stage := stage)])
  }

  /** An event goes to the current run, whoever drained it. */
  function AppendToCurrent(s: Server, e: Event, heed: bool): Server
    requires |s.entries| > 0
  {
    var last := |s.entries| - 1;
    var entry := s.entries[last];
    var pushed := Push(entry.run, e);
    s.(entries := s.entries[last := entry.(run := if heed then Heed(pushed, e) else pushed, log := entry.log + [e])])
  }

  function Act(s: Server, a: Action): Server
    requires Enabled(s, a)
  {
    var last: int := |s.entries| - 1;
    match a
    case Prompt =>
      if s.shuttingDown || !Idle(s) then s
      else s.(entries := s.entries + [Entry(FRESH_RUN, [], Starting, 0)])
    case StartFailed(i, message) =>
      var over := SetStage(s, i, Over);
      if last == i then
        var run := over.entries[i].run;
        var failed := run.(finished := true, errors := run.errors + [message], exitCode := 4);
        over.(entries := over.entries[i := over.entries[i].(run := failed)])
      else over
    case BrokerStarted(i) => SetStage(s, i, Draining)
    case Drain(i, e) => AppendToCurrent(s, e, true)
    case StopDraining(i) => SetStage(s, i, Checking)
    case Check(i) => SetStage(s, i, if s.entries[last].run.finished then Over else Collecting(last, []))
    case Collect(i, e) =>
      var stage := s.entries[i].stage;
      if last != stage.runId then SetStage(s, i, Over)
      else SetStage(AppendToCurrent(s, e, false), i, Collecting(stage.runId, stage.drained + [e]))
    case Finalise(i) =>
      var stage := s.entries[i].stage;
      if last != stage.runId || s.entries[last].run.finished then SetStage(s, i, Over)
      else
        var run := Conclude(s.entries[last].run, stage.drained);
        var concluded := s.(entries := s.entries[last := s.entries[last].(run := run)]);
        SetStage(concluded, i, Notifying)
    case Notify(i) =>
      SetStage(s.(entries := s.entries[i := s.entries[i].(notified := s.entries[i].notified + 1)]), i, Over)
    case Shutdown => s.(shuttingDown := true)
  }

  ghost predicate Next(s: Server, t: Server) {
    exists a :: Enabled(s, a) && t == Act(s, a)
  }

  ghost predicate IsTrace(trace: seq<Server>) {
    && trace != []
    && if |trace| == 1 then trace[0] == EMPTY_SERVER
       else IsTrace(trace[..|trace| - 1]) && Next(trace[|trace| - 2], trace[|trace| - 1])
  }

  // ---------------------------------------------------------------- what a run's fields tell of its log

  /** What the log alone says of a run whose last events are still to be taken note of. */
  function Replay(log: seq<Event>): Run {
    if |log| == 0 then FRESH_RUN
    else
      var e := log[|log| - 1];
      Heed(Push(Replay(log[..|log| - 1]), e), e)
  }

  function PushAll(r: Run, events: seq<Event>): Run {
    if |events| == 0 then r else Push(PushAll(r, events[..|events| - 1]), events[|events| - 1])
  }

  ghost predicate RunFits(e: Entry) {
    match e.stage
    case Starting => e.run == FRESH_RUN && e.log == []
    case Draining => e.run == Replay(e.log)
    case Checking => e.run == Replay(e.log)
    case Collecting(_, drained) =>
      && |drained| <= |e.log| && |drained| <= DRAIN_MAX_ITERATIONS
      && drained == e.log[|e.log| - |drained|..]
      && e.run == PushAll(Replay(e.log[..|e.log| - |drained|]), drained)
    case Notifying => e.run == Conclude(Replay(e.log), [])
    case Over =>
      if e.run.exitCode == 4 then e.log == [] && (exists m :: e.run == FailedRun(m))
      else e.run == Conclude(Replay(e.log), [])
  }

  function FailedRun(message: string): Run {
    FRESH_RUN.(finished := true, errors := [message], exitCode := 4)
  }

  ghost predicate NotifiedFits(e: Entry) {
    e.notified == if e.stage == Over && e.run.exitCode != 4 then 1 else 0
  }

  predicate Live(stage: Stage) {
    stage != Notifying && stage != Over
  }

  ghost predicate EntryFits(s: Server, i: nat)
    requires i < |s.entries|
  {
    var e := s.entries[i];
    && (Live(e.stage) <==> !e.run.finished)
    && (Live(e.stage) ==> i == |s.entries| - 1)
    && (e.stage.Collecting? ==> e.stage.runId == i)
    && RunFits(e)
    && NotifiedFits(e)
  }

  ghost predicate Safe(s: Server) {
    forall i: nat | i < |s.entries| :: EntryFits(s, i)
  }

  lemma {:induction false} ReplayFacts(log: seq<Event>)
    ensures var r := Replay(log); !r.finished && r.exitCode == 0 && HoldsEnd(r, log)
  {
    if |log| > 0 {
      hide Push, Heed, HoldsEnd;
      var init, e := log[..|log| - 1], log[|log| - 1];
      assert log == init + [e];
      ReplayFacts(init);
      PushHoldsEnd(Replay(init), init, e);
      HeedHoldsEnd(Push(Replay(init), e), log, e);
      PushHeedKeep(Replay(init), e);
    } else {
      assert NumberFrom([], 0) == [];
    }
  }

  predicate Speaks(e: Event, kind: Kind) {
    e.kind == kind && e.text != ""
  }

  /** The final text is that of the last finished text event, and the errors are those of the log, in order. */
  lemma {:induction false} ReplayTells(log: seq<Event>)
    ensures var r := Replay(log);
            && (r.finalText == "" <==> forall i | 0 <= i < |log| :: !Speaks(log[i], TextDone))
            && (r.finalText != "" ==> exists i | 0 <= i < |log| ::
                  && Speaks(log[i], TextDone) && r.finalText == log[i].text
                  && forall j | i < j < |log| :: !Speaks(log[j], TextDone))
            && r.errors == ErrorsIn(log)
  {
    hide LastN;
    if |log| > 0 {
      var n := |log| - 1;
      ReplayTells(log[..n]);
      if Speaks(log[n], TextDone) { assert Replay(log).finalText == log[n].text; }
    }
  }

  function ErrorsIn(log: seq<Event>): seq<string> {
    if |log| == 0 then []
    else ErrorsIn(log[..|log| - 1]) + if Speaks(log[|log| - 1], Error) then [log[|log| - 1].text] else []
  }

  lemma PushHeedKeep(r: Run, e: Event)
    ensures Push(r, e).finished == r.finished && Push(r, e).exitCode == r.exitCode
    ensures Heed(r, e).finished == r.finished && Heed(r, e).exitCode == r.exitCode
    ensures forall f :: Push(Heed(r, f), e) == Heed(Push(r, e), f)
  {
  }

  /** Taking note late or at once is the same: the final drain heeds its events after pushing them all. */
  lemma {:induction false} HeedLater(r: Run, drained: seq<Event>, e: Event)
    ensures HeedAll(Push(r, e), drained) == Push(HeedAll(r, drained), e)
  {
    hide Push, Heed;
    if |drained| > 0 {
      var n := |drained| - 1;
      HeedLater(r, drained[..n], e);
      PushHeedKeep(HeedAll(r, drained[..n]), e);
    }
  }

  lemma {:induction false} DrainedReplay(log: seq<Event>, drained: seq<Event>)
    ensures HeedAll(PushAll(Replay(log), drained), drained) == Replay(log + drained)
  {
    hide Push, Heed;
    if |drained| == 0 {
      assert log + drained == log;
    } else {
      var n, e := |drained| - 1, drained[|drained| - 1];
      DrainedReplay(log, drained[..n]);
      HeedLater(PushAll(Replay(log), drained[..n]), drained[..n], e);
      assert (log + drained)[..|log| + n] == log + drained[..n];
    }
  }

  lemma ConcludeTwice(r: Run, drained: seq<Event>)
    ensures Conclude(r, drained) == Conclude(HeedAll(r, drained), [])
  {
  }

  lemma CodeRange(ring: seq<Numbered>)
    ensures CodeOf(ring) != 4
  {
  }

  // ---------------------------------------------------------------- every step keeps it

  /** Changing one entry leaves the others fitting. */
  lemma OthersFit(s: Server, t: Server, i: nat)
    requires Safe(s) && |t.entries| == |s.entries| && i < |s.entries|
    requires forall j: nat | j < |s.entries| && j != i :: t.entries[j] == s.entries[j]
    requires EntryFits(t, i)
    ensures Safe(t)
  {
    hide RunFits, NotifiedFits;
    forall j: nat | j < |t.entries| ensures EntryFits(t, j) {
      if j != i { assert EntryFits(s, j); }
    }
  }

  lemma PromptKeeps(s: Server)
    requires Safe(s)
    ensures Safe(Act(s, Prompt))
  {
    hide RunFits;
    var t := Act(s, Prompt);
    forall j: nat | j < |t.entries| ensures EntryFits(t, j) {
      if j < |s.entries| {
        assert EntryFits(s, j) && EntryFits(s, |s.entries| - 1);
      } else {
        assert RunFits(t.entries[j]) by { FreshFits(t.entries[j]); }
      }
    }
  }

  lemma FreshFits(e: Entry)
    requires e == Entry(FRESH_RUN, [], Starting, 0)
    ensures RunFits(e)
  {
  }

  lemma StartFailedKeeps(s: Server, i: nat, message: string)
    requires Safe(s) && Enabled(s, StartFailed(i, message))
    ensures Safe(Act(s, StartFailed(i, message)))
  {
    assert EntryFits(s, i);
    var t := Act(s, StartFailed(i, message));
    assert t.entries[i].run == FailedRun(message);
    OthersFit(s, t, i);
  }

  lemma StageMoves(s: Server, a: Action)
    requires Safe(s) && Enabled(s, a) && (a.BrokerStarted? || a.StopDraining? || a.Check?)
    ensures Safe(Act(s, a))
  {
    hide Push, Heed;
    var t := Act(s, a);
    assert EntryFits(s, a.i);
    if a.Check? {
      var e := t.entries[a.i];
      assert e.log[..|e.log| - 0] == e.log && e.log[|e.log| - 0..] == [];
    }
    OthersFit(s, t, a.i);
  }

  lemma DrainKeeps(s: Server, i: nat, e: Event)
    requires Safe(s) && Enabled(s, Drain(i, e))
    ensures Safe(Act(s, Drain(i, e)))
  {
    hide Push, Heed;
    var t := Act(s, Drain(i, e));
    assert EntryFits(s, i);
    var log := s.entries[i].log;
    assert (log + [e])[..|log|] == log;
    PushHeedKeep(s.entries[i].run, e);
    PushHeedKeep(Push(s.entries[i].run, e), e);
    OthersFit(s, t, i);
  }

  lemma CollectKeeps(s: Server, i: nat, e: Event)
    requires Safe(s) && Enabled(s, Collect(i, e))
    ensures Safe(Act(s, Collect(i, e)))
  {
    hide Push, Heed;
    var t := Act(s, Collect(i, e));
    assert EntryFits(s, i);
    var log, drained := s.entries[i].log, s.entries[i].stage.drained;
    var k := |log| - |drained|;
    assert (log + [e])[..k] == log[..k] && (log + [e])[k..] == drained + [e];
    assert (drained + [e])[..|drained|] == drained;
    PushHeedKeep(s.entries[i].run, e);
    OthersFit(s, t, i);
  }

  lemma FinaliseKeeps(s: Server, i: nat)
    requires Safe(s) && Enabled(s, Action.Finalise(i))
    ensures Safe(Act(s, Action.Finalise(i)))
  {
    hide Push, Heed;
    assert EntryFits(s, i);
    var log, drained := s.entries[i].log, s.entries[i].stage.drained;
    var k := |log| - |drained|;
    DrainedReplay(log[..k], drained);
    assert log[..k] + drained == log;
    ConcludeTwice(s.entries[i].run, drained);
    var t := Act(s, Action.Finalise(i));
    assert t.entries[i].run == Conclude(Replay(log), []);
    OthersFit(s, t, i);
  }

  lemma NotifyKeeps(s: Server, i: nat)
    requires Safe(s) && Enabled(s, Notify(i))
    ensures Safe(Act(s, Notify(i)))
  {
    hide Push, Heed, CodeOf, DeltasOf, Strip;
    assert EntryFits(s, i);
    var t := Act(s, Notify(i));
    ReplayFacts(s.entries[i].log);
    CodeRange(Replay(s.entries[i].log).ring);
    OthersFit(s, t, i);
  }

  lemma StepKeepsSafe(s: Server, a: Action)
    requires Safe(s) && Enabled(s, a)
    ensures Safe(Act(s, a))
  {
    hide EntryFits, Push, Heed, RunFits;
    match a
    case Prompt => PromptKeeps(s);
    case StartFailed(i, message) => StartFailedKeeps(s, i, message);
    case Drain(i, e) => DrainKeeps(s, i, e);
    case Collect(i, e) => CollectKeeps(s, i, e);
    case Finalise(i) => FinaliseKeeps(s, i);
    case Notify(i) => NotifyKeeps(s, i);
    case Shutdown => ShutdownKeeps(s);
    case _ => StageMoves(s, a);
  }

  lemma ShutdownKeeps(s: Server)
    requires Safe(s)
    ensures Safe(Act(s, Shutdown))
  {
    var t := Act(s, Shutdown);
    forall j: nat | j < |t.entries| ensures EntryFits(t, j) { assert EntryFits(s, j); }
  }

  // ---------------------------------------------------------------- what every interleaving guarantees

  lemma {:induction false} TracesAreSafe(trace: seq<Server>)
    requires IsTrace(trace)
    ensures Safe(trace[|trace| - 1])
  {
    hide Safe, Act, Enabled;
    var n := |trace| - 1;
    if n == 0 {
      assert Safe(EMPTY_SERVER) by { EmptyIsSafe(); }
    } else {
      TracesAreSafe(trace[..n]);
      var a :| Enabled(trace[n - 1], a) && trace[n] == Act(trace[n - 1], a);
      StepKeepsSafe(trace[n - 1], a);
    }
  }

  lemma EmptyIsSafe()
    ensures Safe(EMPTY_SERVER)
  {
  }

  /** At most one run is unfinished, and it is the current one: a run is only replaced once finished. */
  lemma AtMostOneUnfinished(trace: seq<Server>, i: nat)
    requires IsTrace(trace) && i < |trace[|trace| - 1].entries|
    ensures !trace[|trace| - 1].entries[i].run.finished ==> i == |trace[|trace| - 1].entries| - 1
  {
    TracesAreSafe(trace);
    assert EntryFits(trace[|trace| - 1], i);
  }

  lemma FinishedStep(s: Server, a: Action, i: nat)
    requires Safe(s) && Enabled(s, a) && i < |s.entries| && s.entries[i].run.finished
    ensures var t := Act(s, a);
            && i < |t.entries| && t.entries[i].run == s.entries[i].run && t.entries[i].log == s.entries[i].log
            && s.entries[i].notified <= t.entries[i].notified <= 1
            && (t.entries[i].stage == Over && t.entries[i].run.exitCode != 4 ==> t.entries[i].notified == 1)
  {
    hide Push, Heed, RunFits, Conclude;
    StepKeepsSafe(s, a) by { hide EntryFits; }
    var t := Act(s, a);
    assert EntryFits(s, i);
    if !a.Prompt? && !a.Shutdown? { assert EntryFits(s, a.i); }
    assert EntryFits(t, i);
  }

  /** Runs are only added, and their logs only grow. */
  lemma LogStep(s: Server, a: Action, i: nat)
    requires Safe(s) && Enabled(s, a) && i < |s.entries|
    ensures i < |Act(s, a).entries| && s.entries[i].log <= Act(s, a).entries[i].log
  {
    hide Push, Heed, RunFits, Conclude;
    if !a.Prompt? && !a.Shutdown? { assert EntryFits(s, a.i); }
  }

  lemma OneStep(trace: seq<Server>) returns (a: Action)
    requires IsTrace(trace) && |trace| > 1
    ensures IsTrace(trace[..|trace| - 1]) && Safe(trace[|trace| - 2])
    ensures Enabled(trace[|trace| - 2], a) && trace[|trace| - 1] == Act(trace[|trace| - 2], a)
  {
    hide Safe, Act, Enabled;
    var n := |trace| - 1;
    TracesAreSafe(trace[..n]);
    a :| Enabled(trace[n - 1], a) && trace[n] == Act(trace[n - 1], a);
  }

  lemma {:induction false} TracePrefix(trace: seq<Server>, k: nat)
    requires IsTrace(trace) && k < |trace|
    ensures IsTrace(trace[..k + 1])
  {
    var n := |trace| - 1;
    if k == n {
      assert trace[..k + 1] == trace;
    } else {
      TracePrefix(trace[..n], k);
      assert trace[..n][..k + 1] == trace[..k + 1];
    }
  }

  /** In every trace, from the moment a run is finished it never changes again: no event is appended, it is not
      finished twice, and its exit code, text and errors stay. Its finish is reported at most once, and exactly
      once in the end unless the agent never started. */
  lemma {:induction false} FinishedIsFrozen(trace: seq<Server>, k: nat, i: nat)
    requires IsTrace(trace) && k < |trace| && i < |trace[k].entries| && trace[k].entries[i].run.finished
    ensures var last := trace[|trace| - 1];
            && i < |last.entries| && last.entries[i].run == trace[k].entries[i].run
               && last.entries[i].log == trace[k].entries[i].log
            && trace[k].entries[i].notified <= last.entries[i].notified <= 1
            && (last.entries[i].stage == Over && last.entries[i].run.exitCode != 4 ==> last.entries[i].notified == 1)
  {
    hide Safe, Act, Enabled, EntryFits;
    var n := |trace| - 1;
    if k < n {
      var a := OneStep(trace);
      FinishedIsFrozen(trace[..n], k, i);
      FinishedStep(trace[n - 1], a, i);
    } else {
      TracesAreSafe(trace);
      FinishedNow(trace[k], i);
    }
  }

  lemma FinishedNow(s: Server, i: nat)
    requires Safe(s) && i < |s.entries| && s.entries[i].run.finished
    ensures s.entries[i].notified <= 1
    ensures s.entries[i].stage == Over && s.entries[i].run.exitCode != 4 ==> s.entries[i].notified == 1
  {
    hide RunFits;
    assert EntryFits(s, i);
  }

  lemma {:induction false} LogsGrow(trace: seq<Server>, k: nat, i: nat)
    requires IsTrace(trace) && k < |trace| && i < |trace[k].entries|
    ensures |trace[k].entries| <= |trace[|trace| - 1].entries|
    ensures trace[k].entries[i].log <= trace[|trace| - 1].entries[i].log
  {
    hide Safe, Act, Enabled;
    var n := |trace| - 1;
    if k < n {
      var a := OneStep(trace);
      LogsGrow(trace[..n], k, i);
      LogStep(trace[n - 1], a, i);
      if |trace[n - 1].entries| > 0 { LogStep(trace[n - 1], a, |trace[n - 1].entries| - 1); }
    }
  }

  /** The broker's event always goes to its own, unfinished run. */
  lemma BrokerWritesItsOwnRun(s: Server, a: Action)
    requires Safe(s) && Enabled(s, a) && (a.Drain? || a.Collect?)
    ensures a.i == |s.entries| - 1 && !s.entries[a.i].run.finished
    ensures Act(s, a).entries[a.i].log == s.entries[a.i].log + [a.event]
  {
    hide Push, Heed, RunFits;
    assert EntryFits(s, a.i);
  }

  /** A finished run is the outcome of exactly the events appended to it, however they were split between
      the drain loop and the final drain; its ring is the end of that log. */
  lemma FinishedRunIsItsLog(trace: seq<Server>, i: nat)
    requires IsTrace(trace) && i < |trace[|trace| - 1].entries|
    requires var run := trace[|trace| - 1].entries[i].run; run.finished && run.exitCode != 4
    ensures var e := trace[|trace| - 1].entries[i];
            e.run == Conclude(Replay(e.log), []) && HoldsEnd(e.run, e.log)
  {
    hide Push, Heed, CodeOf, DeltasOf, Strip;
    TracesAreSafe(trace);
    var e := trace[|trace| - 1].entries[i];
    assert EntryFits(trace[|trace| - 1], i);
    ReplayFacts(e.log);
  }

  // ---------------------------------------------------------------- polling the server

  lemma {:induction false} PushAllHoldsEnd(r: Run, log: seq<Event>, events: seq<Event>)
    requires HoldsEnd(r, log)
    ensures HoldsEnd(PushAll(r, events), log + events)
  {
    hide HoldsEnd, Push;
    if |events| == 0 {
      assert log + events == log;
    } else {
      var n := |events| - 1;
      PushAllHoldsEnd(r, log, events[..n]);
      PushHoldsEnd(PushAll(r, events[..n]), log + events[..n], events[n]);
      assert log + events == log + events[..n] + [events[n]];
    }
  }

  /** At every moment the ring of every run is the end of the events appended to it. */
  lemma RingOfEveryRun(s: Server, i: nat)
    requires Safe(s) && i < |s.entries|
    ensures HoldsEnd(s.entries[i].run, s.entries[i].log)
  {
    hide Push, Heed, CodeOf, DeltasOf, Strip;
    assert EntryFits(s, i);
    var e := s.entries[i];
    ReplayFacts(e.log);
    if e.stage.Collecting? {
      var k := |e.log| - |e.stage.drained|;
      ReplayFacts(e.log[..k]);
      PushAllHoldsEnd(Replay(e.log[..k]), e.log[..k], e.stage.drained);
      assert e.log[..k] + e.stage.drained == e.log;
    }
    assert NumberFrom([], 0) == [];
  }

  datatype Reply = BadIndex | Reply(events: seq<Numbered>, index: nat, finished: bool, exitCode: int, finalText: string)

  const NO_SUCH_RUN := Reply([], 0, true, 0, "")

  predicate IsCurrent(s: Server, id: nat) {
    id + 1 == |s.entries|
  }

  /** The reply to a poll. `wanted` is the run id the client asked for, if any: it is looked up when the request
      comes, in state `at`, and again when it is answered, perhaps after a wait, in state `s`. */
  function PollServer(at: Server, s: Server, index: int, wanted: Option<nat>): Reply {
    if index < 0 then BadIndex
    else if wanted.Some? && !IsCurrent(at, wanted.value) then NO_SUCH_RUN
    else if wanted.Some? && !IsCurrent(s, wanted.value) then Reply([], index, true, 0, "")
    else if |s.entries| == 0 then NO_SUCH_RUN
    else
      var run := s.entries[|s.entries| - 1].run;
      Reply(From(run.ring, index), run.nextSeq, run.finished, run.exitCode, run.finalText)
  }

  /** A poll of the current run answers from its log, and tells it to go on at the log's end. A client whose run
      was replaced, before the request or during the wait, is told of success whatever happened. */
  lemma PollAnswers(at: Server, s: Server, index: nat, wanted: Option<nat>)
    requires Safe(s) && |s.entries| > 0
    ensures var e := s.entries[|s.entries| - 1];
            var reply := PollServer(at, s, index, wanted);
            if wanted.Some? && !IsCurrent(at, wanted.value) then reply == NO_SUCH_RUN
            else if wanted.Some? && !IsCurrent(s, wanted.value) then reply == NO_SUCH_RUN.(index := index)
            else reply == Reply(PollAt(e.log, index), |e.log|, e.run.finished, e.run.exitCode, e.run.finalText)
  {
    hide EntryFits, From;
    RingOfEveryRun(s, |s.entries| - 1);
  }

  // ---------------------------------------------------------------- a client that follows one run

  /** The places in the trace where a poll is looked at first, and where it is answered. */
  datatype Moment = Moment(look: nat, answer: nat)

  datatype Client = Client(received: seq<Numbered>, index: int)

  /** A client that polls for run `id` from index 0 on, each time from the index the last reply gave. */
  function Follow(trace: seq<Server>, id: nat, polls: seq<Moment>): Client {
    if |polls| == 0 then Client([], 0)
    else
      var before := Follow(trace, id, polls[..|polls| - 1]);
      var reply := ReplyTo(trace, polls[|polls| - 1], before.index, id);
      if reply.BadIndex? then before else Client(before.received + reply.events, reply.index)
  }

  function ReplyTo(trace: seq<Server>, m: Moment, index: int, id: nat): Reply {
    if m.look < |trace| && m.answer < |trace| then PollServer(trace[m.look], trace[m.answer], index, Some(id))
    else BadIndex
  }

  function LogAt(trace: seq<Server>, k: nat, id: nat): seq<Event> {
    if k < |trace| && id < |trace[k].entries| then trace[k].entries[id].log else []
  }

  /** The lengths of the run's log at the answers. */
  function LengthsAt(trace: seq<Server>, id: nat, polls: seq<Moment>): (ls: seq<nat>)
    ensures |ls| == |polls|
    ensures forall i | 0 <= i < |polls| :: ls[i] == |LogAt(trace, polls[i].answer, id)|
  {
    if |polls| == 0 then []
    else LengthsAt(trace, id, polls[..|polls| - 1]) + [|LogAt(trace, polls[|polls| - 1].answer, id)|]
  }

  /** One poll after the other. */
  ghost predicate InTurn(trace: seq<Server>, polls: seq<Moment>) {
    && (forall i | 0 <= i < |polls| :: polls[i].look <= polls[i].answer < |trace|)
    && (forall i, j | 0 <= i < j < |polls| :: polls[i].answer <= polls[j].look)
  }

  /** The run is current whenever it is asked for, and `log` is what its log grows to. */
  ghost predicate Serves(trace: seq<Server>, id: nat, polls: seq<Moment>, log: seq<Event>) {
    forall i | 0 <= i < |polls| ::
      && polls[i].look < |trace| && polls[i].answer < |trace|
      && IsCurrent(trace[polls[i].look], id) && IsCurrent(trace[polls[i].answer], id)
      && LogAt(trace, polls[i].answer, id) <= log
  }

  lemma SafeAt(trace: seq<Server>, k: nat)
    requires IsTrace(trace) && k < |trace|
    ensures Safe(trace[k])
  {
    hide Safe, IsTrace;
    TracePrefix(trace, k);
    TracesAreSafe(trace[..k + 1]);
  }

  lemma Between(trace: seq<Server>, j: nat, k: nat, i: nat)
    requires IsTrace(trace) && j <= k < |trace| && i < |trace[j].entries|
    ensures |trace[j].entries| <= |trace[k].entries| && LogAt(trace, j, i) <= LogAt(trace, k, i)
  {
    hide IsTrace;
    TracePrefix(trace, k);
    LogsGrow(trace[..k + 1], j, i);
  }

  /** A run that is current at the first look and at the last answer was current all the time. */
  lemma CurrentThroughout(trace: seq<Server>, id: nat, polls: seq<Moment>)
    requires IsTrace(trace) && InTurn(trace, polls) && |polls| > 0
    requires IsCurrent(trace[polls[0].look], id) && IsCurrent(trace[polls[|polls| - 1].answer], id)
    ensures Serves(trace, id, polls, LogAt(trace, polls[|polls| - 1].answer, id))
    ensures Rising(LengthsAt(trace, id, polls))
  {
    hide IsTrace;
    var first, end := polls[0].look, polls[|polls| - 1].answer;
    forall i: nat | i < |polls|
      ensures IsCurrent(trace[polls[i].look], id) && IsCurrent(trace[polls[i].answer], id)
      ensures LogAt(trace, polls[i].answer, id) <= LogAt(trace, end, id)
    {
      Between(trace, first, polls[i].look, id);
      Between(trace, polls[i].look, polls[i].answer, id);
      Between(trace, polls[i].answer, end, id);
    }
    forall i: nat, j: nat | i < j < |polls|
      ensures |LogAt(trace, polls[i].answer, id)| <= |LogAt(trace, polls[j].answer, id)|
    {
      Between(trace, polls[i].answer, polls[j].answer, id);
    }
  }

  lemma OnePoll(trace: seq<Server>, id: nat, m: Moment, index: nat, log: seq<Event>)
    requires IsTrace(trace) && m.look < |trace| && m.answer < |trace|
    requires IsCurrent(trace[m.look], id) && IsCurrent(trace[m.answer], id) && LogAt(trace, m.answer, id) <= log
    ensures var n, reply := |LogAt(trace, m.answer, id)|, ReplyTo(trace, m, index, id);
            n <= |log| && reply.Reply? && reply.events == PollAt(log[..n], index) && reply.index == n
  {
    hide IsTrace, PollServer, PollAt, Safe;
    SafeAt(trace, m.answer);
    PollAnswers(trace[m.look], trace[m.answer], index, Some(id));
    assert log[..|LogAt(trace, m.answer, id)|] == LogAt(trace, m.answer, id);
  }

  lemma {:induction false} FollowIsFollowed(trace: seq<Server>, id: nat, polls: seq<Moment>, log: seq<Event>)
    requires IsTrace(trace) && Serves(trace, id, polls, log)
    ensures var lengths := LengthsAt(trace, id, polls);
            && Within(log, lengths)
            && Follow(trace, id, polls)
               == Client(Followed(log, lengths), if |polls| == 0 then 0 else lengths[|polls| - 1])
  {
    hide IsTrace, ReplyTo, PollAt, LogAt, IsCurrent;
    if |polls| > 0 {
      var n := |polls| - 1;
      FollowIsFollowed(trace, id, polls[..n], log);
      var lengths := LengthsAt(trace, id, polls);
      assert lengths[..n] == LengthsAt(trace, id, polls[..n]);
      OnePoll(trace, id, polls[n], if n == 0 then 0 else lengths[n - 1], log);
    }
  }

  /** The reply at the last of these polls. */
  lemma LastReply(trace: seq<Server>, id: nat, polls: seq<Moment>, log: seq<Event>)
    requires IsTrace(trace) && |polls| > 0 && Serves(trace, id, polls, log)
    ensures var n := |polls| - 1;
            var reply := ReplyTo(trace, polls[n], Follow(trace, id, polls[..n]).index, id);
            var run := trace[polls[n].answer].entries[id].run;
            reply.Reply? && reply.finished == run.finished && reply.exitCode == run.exitCode
                && reply.finalText == run.finalText
  {
    hide IsTrace, PollServer, PollAt, Followed, Follow;
    var n := |polls| - 1;
    SafeAt(trace, polls[n].answer);
    assert Serves(trace, id, polls[..n], log);
    FollowIsFollowed(trace, id, polls[..n], log);
    PollAnswers(trace[polls[n].look], trace[polls[n].answer], Follow(trace, id, polls[..n]).index, Some(id));
  }

  /** A client that polls for a run until it is told `finished`, in any trace in which that run was not replaced
      meanwhile: it has every event that the run will ever have, once and in order, exactly if it never fell more
      than 4096 events behind; and the exit code and text it is told are final. */
  lemma ClientSeesAllOnce(trace: seq<Server>, id: nat, polls: seq<Moment>)
    requires IsTrace(trace) && InTurn(trace, polls) && |polls| > 0
    requires IsCurrent(trace[polls[0].look], id) && IsCurrent(trace[polls[|polls| - 1].answer], id)
    requires trace[polls[|polls| - 1].answer].entries[id].run.finished
    ensures var n := |polls| - 1;
            var reply := ReplyTo(trace, polls[n], Follow(trace, id, polls[..n]).index, id);
            var end := trace[|trace| - 1];
            && id < |end.entries|
            && (Follow(trace, id, polls).received == NumberFrom(end.entries[id].log, 0)
               <==> KeepsUp(LengthsAt(trace, id, polls)))
            && reply.Reply? && reply.finished
            && reply.exitCode == end.entries[id].run.exitCode && reply.finalText == end.entries[id].run.finalText
  {
    hide IsTrace, ReplyTo, Followed, Follow, NumberFrom, Serves, InTurn, KeepsUp, Rising, Within;
    var n := |polls| - 1;
    var log, lengths := LogAt(trace, polls[n].answer, id), LengthsAt(trace, id, polls);
    assert polls[n].answer < |trace| by { LastInRange(trace, polls); }
    CurrentThroughout(trace, id, polls);
    FollowIsFollowed(trace, id, polls, log);
    FollowerSeesAllOnce(log, lengths);
    assert log[..lengths[n]] == log;
    FinishedIsFrozen(trace, polls[n].answer, id);
    LastReply(trace, id, polls, log);
  }

  lemma LastInRange(trace: seq<Server>, polls: seq<Moment>)
    requires InTurn(trace, polls) && |polls| > 0
    ensures polls[0].look < |trace| && polls[|polls| - 1].answer < |trace|
  {
  }
}
