/** The repeat ladder of the agent loop: a repeated call's tool is blocked after the batch that
    repeats it once too often, a blocked tool is refused before it runs, and a successful
    mutation lifts every block. */
module Ladder {
  import opened Progress
  import opened Text

  /** What a call would do if the tool were not blocked. */
  datatype Fate = Denied | Raises | Returns(mutating: bool)

  datatype Request = Request(call: Call, fate: Fate, result: string)

  datatype Attempt = Attempt(turn: int, call: Call, ran: bool, mutated: bool, result: string)

  datatype Turn = Turn(number: int, requests: seq<Request>)

  const REFUSAL := "Error: tool is blocked for this turn after repeated identical calls."

  function Try(blocked: set<string>, turn: int, r: Request): Attempt {
    if r.call.name in blocked then Attempt(turn, r.call, false, false, REFUSAL)
    else Attempt(turn, r.call, r.fate != Denied, r.fate == Returns(true), r.result)
  }

  function Unblock(blocked: set<string>, a: Attempt): set<string> {
    if a.mutated then {} else blocked
  }

  // ---------------------------------------------------------------- one batch

  datatype Batch = Batch(attempts: seq<Attempt>, blocked: set<string>)

  function Attempts(blocked: set<string>, turn: int, requests: seq<Request>): (b: Batch)
    ensures |b.attempts| == |requests|
  {
    if |requests| == 0 then Batch([], blocked)
    else
      var before := Attempts(blocked, turn, requests[..|requests| - 1]);
      var a := Try(before.blocked, turn, requests[|requests| - 1]);
      Batch(before.attempts + [a], Unblock(before.blocked, a))
  }

  function Observed(attempts: seq<Attempt>): seq<Observation> {
    seq(|attempts|, i requires 0 <= i < |attempts| =>
      Observation(attempts[i].call, attempts[i].result, attempts[i].turn))
  }

  datatype State = State(log: seq<Observation>, blocked: set<string>)

  function AfterBatch(blockAt: int, blocked: set<string>, v: Verdict): set<string> {
    if v.kind != NoRepeat && v.occurrences >= blockAt - 1 then blocked + {v.tool} else blocked
  }

  function NextState(blockAt: int, s: State, t: Turn): State {
    var b := Attempts(s.blocked, t.number, t.requests);
    var batch := Observed(b.attempts);
    State(s.log + batch, AfterBatch(blockAt, b.blocked, Judge(s.log, batch, t.requests != [], true)))
  }

  class ToolRunner {
    const progress: ProgressTracker
    var blocked: set<string>
    var toolsDisabled: bool

    constructor (progress: ProgressTracker)
      ensures this.progress == progress && blocked == {} && !toolsDisabled
    {
      this.progress, blocked, toolsDisabled := progress, {}, false;
    }

    method ExecuteSingleTool(turn: int, r: Request) returns (a: Attempt)
      requires progress.Valid()
      modifies this`blocked, progress`mutationSuccess
      ensures progress.Valid()
      ensures a == Try(old(blocked), turn, r) && blocked == Unblock(old(blocked), a)
      ensures progress.mutationSuccess == (old(progress.mutationSuccess) || a.mutated)
    {
      if r.call.name in blocked {
        return Attempt(turn, r.call, false, false, REFUSAL);
      }
      if r.fate == Denied {
        return Attempt(turn, r.call, false, false, r.result);
      }
      if r.fate.Returns? && r.fate.mutating {
        blocked := {};
        progress.NoteMutationSuccess();
        return Attempt(turn, r.call, true, true, r.result);
      }
      a := Attempt(turn, r.call, true, false, r.result);
    }

    method AfterToolBatch(turn: int, calls: seq<Call>, results: seq<string>)
      requires progress.Valid()
      modifies this`blocked, this`toolsDisabled, progress`history, progress`seenResults, progress`newResultSeen,
               progress`log
      ensures progress.Valid() && progress.log == old(progress.log) + Zip(turn, calls, results)
      ensures var v := Judge(old(progress.log), Zip(turn, calls, results), calls != [], true);
              && blocked == AfterBatch(progress.blockAt, old(blocked), v)
              && toolsDisabled == (old(toolsDisabled) || (v.kind != NoRepeat && v.occurrences >= progress.stopAt))
    {
      hide Judge;
      var v := progress.ObserveTurn(turn, calls, results);
      if v.kind != NoRepeat {
        if v.occurrences >= progress.blockAt - 1 { blocked := blocked + {v.tool}; }
        if v.occurrences >= progress.stopAt { toolsDisabled := true; }
      }
    }

    /** One turn: the requested calls one after another, then one look at the whole batch. */
    method TakeTurn(t: Turn) returns (attempts: seq<Attempt>)
      requires progress.Valid()
      modifies this, progress
      ensures progress.Valid()
      ensures attempts == Attempts(old(blocked), t.number, t.requests).attempts
      ensures State(progress.log, blocked) == NextState(progress.blockAt, old(State(progress.log, blocked)), t)
    {
      hide Judge, Try, Unblock, AfterBatch;
      attempts := [];
      var calls: seq<Call>, results: seq<string> := [], [];
      var i := 0;
      ghost var start := State(progress.log, blocked);
      while i < |t.requests|
        invariant i <= |t.requests| && progress.Valid() && progress.log == start.log
        invariant Batch(attempts, blocked) == Attempts(start.blocked, t.number, t.requests[..i])
        invariant |calls| == |results| == |attempts| && Observed(attempts) == Zip(t.number, calls, results)
      {
        var a := ExecuteSingleTool(t.number, t.requests[i]);
        assert t.requests[..i + 1][..i] == t.requests[..i];
        AttemptKeepsCall(start.blocked, t, i);
        ObservedZip(attempts, calls, results, t.number, a);
        attempts, calls, results := attempts + [a], calls + [a.call], results + [a.result];
        i := i + 1;
      }
      assert t.requests[..i] == t.requests;
      AfterToolBatch(t.number, calls, results);
      assert calls != [] <==> t.requests != [];
    }
  }

  lemma AttemptKeepsCall(blocked: set<string>, t: Turn, i: nat)
    requires i < |t.requests|
    ensures var a := Try(Attempts(blocked, t.number, t.requests[..i]).blocked, t.number, t.requests[i]);
            a.call == t.requests[i].call && a.turn == t.number
  {
  }

  lemma ObservedZip(attempts: seq<Attempt>, calls: seq<Call>, results: seq<string>, turn: int, a: Attempt)
    requires |calls| == |results| == |attempts| && Observed(attempts) == Zip(turn, calls, results)
    requires a.turn == turn
    ensures Observed(attempts + [a]) == Zip(turn, calls + [a.call], results + [a.result])
  {
    var z := Zip(turn, calls + [a.call], results + [a.result]);
    forall k | 0 <= k < |attempts| ensures z[k] == Zip(turn, calls, results)[k] { }
    forall k | 0 <= k < |attempts| ensures Observed(attempts + [a])[k] == Observed(attempts)[k] { }
  }

  // ---------------------------------------------------------------- whole runs

  /** The state after a run of turns, counted from the user's request. */
  function RunState(blockAt: int, turns: seq<Turn>): State {
    if |turns| == 0 then State([], {})
    else NextState(blockAt, RunState(blockAt, turns[..|turns| - 1]), turns[|turns| - 1])
  }

  function Trace(blockAt: int, turns: seq<Turn>): seq<Attempt> {
    if |turns| == 0 then []
    else
      var n := |turns| - 1;
      Trace(blockAt, turns[..n])
      + Attempts(RunState(blockAt, turns[..n]).blocked, turns[n].number, turns[n].requests).attempts
  }

  ghost predicate OneCallEach(turns: seq<Turn>) {
    forall t | t in turns :: |t.requests| == 1
  }

  ghost predicate TurnsIncrease(turns: seq<Turn>) {
    forall i, j | 0 <= i < j < |turns| :: turns[i].number < turns[j].number
  }

  /** How often `c` actually ran. */
  function Executions(attempts: seq<Attempt>, c: Call): nat {
    if |attempts| == 0 then 0
    else
      var last := attempts[|attempts| - 1];
      Executions(attempts[..|attempts| - 1], c) + if last.ran && last.call == c then 1 else 0
  }

  lemma ObservedAppend(a: seq<Attempt>, b: seq<Attempt>)
    ensures Observed(a + b) == Observed(a) + Observed(b)
  {
    forall k | 0 <= k < |a| + |b| ensures Observed(a + b)[k] == (Observed(a) + Observed(b))[k] { }
  }

  lemma {:induction false} LogIsTrace(blockAt: int, turns: seq<Turn>)
    ensures RunState(blockAt, turns).log == Observed(Trace(blockAt, turns))
  {
    hide Observed, Attempts, Judge, AfterBatch;
    if |turns| == 0 {
      EmptyObserved();
    } else {
      var n := |turns| - 1;
      LogIsTrace(blockAt, turns[..n]);
      ObservedAppend(Trace(blockAt, turns[..n]),
                     Attempts(RunState(blockAt, turns[..n]).blocked, turns[n].number, turns[n].requests).attempts);
    }
  }

  lemma EmptyObserved()
    ensures Observed([]) == []
  {
  }

  lemma OneAttempt(blocked: set<string>, turn: int, requests: seq<Request>)
    requires |requests| == 1
    ensures var a := Try(blocked, turn, requests[0]);
            Attempts(blocked, turn, requests) == Batch([a], Unblock(blocked, a))
  {
    assert requests[..0] == [];
    assert Attempts(blocked, turn, requests[..0]) == Batch([], blocked);
  }

  lemma {:induction false} OneAttemptEach(blockAt: int, turns: seq<Turn>)
    requires OneCallEach(turns)
    ensures |Trace(blockAt, turns)| == |turns|
    ensures forall k | 0 <= k < |turns| :: Trace(blockAt, turns)[k].turn == turns[k].number
  {
    hide RunState, Try;
    if |turns| > 0 {
      var n := |turns| - 1;
      OneAttemptEach(blockAt, turns[..n]);
      assert turns[n] in turns;
      OneAttempt(RunState(blockAt, turns[..n]).blocked, turns[n].number, turns[n].requests);
      TryStamps(RunState(blockAt, turns[..n]).blocked, turns[n].number, turns[n].requests[0]);
    }
  }

  lemma TryStamps(blocked: set<string>, turn: int, r: Request)
    ensures Try(blocked, turn, r).turn == turn && Try(blocked, turn, r).call == r.call
  {
  }

  lemma {:induction false} TraceOfPrefix(blockAt: int, turns: seq<Turn>, j: nat)
    requires OneCallEach(turns) && j <= |turns|
    ensures |Trace(blockAt, turns)| == |turns| && Trace(blockAt, turns[..j]) == Trace(blockAt, turns)[..j]
  {
    hide RunState, Attempts;
    OneAttemptEach(blockAt, turns);
    if j == |turns| {
      assert turns[..j] == turns;
    } else {
      var n := |turns| - 1;
      TraceOfPrefix(blockAt, turns[..n], j);
      assert turns[..n][..j] == turns[..j];
    }
  }

  /** Each run of `c` in the window is among its prior observations. */
  lemma {:induction false} RunsAreObserved(attempts: seq<Attempt>, c: Call, now: int)
    requires forall a | a in attempts :: now - a.turn < REPEAT_WINDOW_TURNS
    ensures Executions(attempts, c) <= |Prior(Observed(attempts), c, now)|
  {
    if |attempts| > 0 {
      var n := |attempts| - 1;
      RunsAreObserved(attempts[..n], c, now);
      ObservedAppend(attempts[..n], [attempts[n]]);
      assert attempts == attempts[..n] + [attempts[n]];
      assert Observed(attempts)[..n] == Observed(attempts[..n]);
    }
  }

  /** A window of at most 32 observations at the end of the log is remembered in full. */
  lemma WindowIsRemembered(log: seq<Observation>, i: nat, c: Call, now: int)
    requires i <= |log| && |log| - i <= HISTORY
    ensures |Prior(log[i..], c, now)| <= |Prior(LastN(log, HISTORY), c, now)|
  {
    hide Prior;
    var recalled := LastN(log, HISTORY);
    var k := |recalled| - (|log| - i);
    assert recalled == recalled[..k] + log[i..];
    PriorAppend(recalled[..k], log[i..], c, now);
  }

  /** The window's executions of `c`, before the turn at its end, are counted as occurrences. */
  lemma WindowCounts(blockAt: int, turns: seq<Turn>, i: nat, now: int, c: Call)
    requires OneCallEach(turns) && TurnsIncrease(turns) && i < |turns|
    requires now > turns[|turns| - 1].number && now - turns[i].number < REPEAT_WINDOW_TURNS
    ensures |Trace(blockAt, turns)| == |turns|
    ensures Executions(Trace(blockAt, turns)[i..], c)
         <= |Prior(LastN(RunState(blockAt, turns).log, HISTORY), c, now)|
  {
    hide Executions, Prior, Trace, RunState;
    var trace := Trace(blockAt, turns);
    LogIsTrace(blockAt, turns);
    OneAttemptEach(blockAt, turns);
    SpreadOut(turns, i);
    RunsAreObserved(trace[i..], c, now);
    assert Observed(trace)[i..] == Observed(trace[i..]);
    WindowIsRemembered(Observed(trace), i, c, now);
  }

  lemma {:induction false} SpreadOut(turns: seq<Turn>, i: nat)
    requires TurnsIncrease(turns) && i < |turns|
    ensures turns[|turns| - 1].number - turns[i].number >= |turns| - 1 - i
  {
    var n := |turns| - 1;
    if i < n { SpreadOut(turns[..n], i); }
  }

  /** In a batch of one, a call seen often enough blocks its tool. */
  lemma SingleVerdict(log: seq<Observation>, o: Observation)
    ensures var v := Judge(log, [o], true, true);
            var prior := |Prior(LastN(log, HISTORY), o.call, o.turn)|;
            v.occurrences == prior + 1 && v.tool == o.call.name && (v.kind == NoRepeat <==> prior == 0)
  {
    hide Prior, LastN;
    assert [o][..0] == [];
    assert Judge(log, [], true, true) == Verdict(NoRepeat, "", 0, true);
    assert log + [] == log;
  }

  ghost predicate Quiet(attempts: seq<Attempt>) {
    forall k | 0 <= k < |attempts| :: !attempts[k].mutated
  }

  /** The last turn of a run of single calls, spelled out. */
  lemma LastTurn(blockAt: int, turns: seq<Turn>)
    requires |turns| > 0 && OneCallEach(turns)
    ensures var n := |turns| - 1;
            var s := RunState(blockAt, turns[..n]);
            var r := turns[n].requests[0];
            var a := Try(s.blocked, turns[n].number, r);
            var prior := |Prior(LastN(s.log, HISTORY), r.call, turns[n].number)|;
            && Trace(blockAt, turns) == Trace(blockAt, turns[..n]) + [a]
            && RunState(blockAt, turns).blocked
               == Unblock(s.blocked, a) + if prior > 0 && prior + 1 >= blockAt - 1 then {r.call.name} else {}
  {
    hide Prior, Judge, LastN, Try;
    var n := |turns| - 1;
    assert turns[n] in turns;
    var s, t := RunState(blockAt, turns[..n]), turns[n];
    var a := Try(s.blocked, t.number, t.requests[0]);
    OneAttempt(s.blocked, t.number, t.requests);
    TryStamps(s.blocked, t.number, t.requests[0]);
    SingleVerdict(s.log, Observation(a.call, a.result, a.turn));
    assert Observed([a]) == [Observation(a.call, a.result, a.turn)];
  }

  /** One more turn keeps the bound, and reaching it blocks the tool. */
  lemma WindowStep(blockAt: int, turns: seq<Turn>, i: nat, c: Call)
    requires blockAt >= 3 && OneCallEach(turns) && TurnsIncrease(turns) && i < |turns|
    requires turns[|turns| - 1].number - turns[i].number < REPEAT_WINDOW_TURNS
    requires |Trace(blockAt, turns)| == |turns| && Quiet(Trace(blockAt, turns)[i + 1..])
    requires var init := turns[..|turns| - 1];
             && |Trace(blockAt, init)| == |init|
             && Executions(Trace(blockAt, init)[i..], c) <= blockAt - 1
             && (Executions(Trace(blockAt, init)[i..], c) == blockAt - 1 ==> c.name in RunState(blockAt, init).blocked)
    ensures Executions(Trace(blockAt, turns)[i..], c) <= blockAt - 1
    ensures Executions(Trace(blockAt, turns)[i..], c) == blockAt - 1 ==> c.name in RunState(blockAt, turns).blocked
  {
    hide RunState, Trace, Prior, LastN, OneCallEach, TurnsIncrease, Executions, Quiet;
    var n := |turns| - 1;
    LastTurn(blockAt, turns);
    LastStepCounts(Trace(blockAt, turns[..n]), Trace(blockAt, turns)[n], i, c);
    if i < n {
      QuietEnd(Trace(blockAt, turns), i);
      OneCallInit(turns);
      assert TurnsIncrease(turns[..n]) && turns[n].number > turns[n - 1].number by { IncreaseInit(turns); }
      WindowCounts(blockAt, turns[..n], i, turns[n].number, c);
    }
  }

  lemma LastStepCounts(before: seq<Attempt>, a: Attempt, i: nat, c: Call)
    requires i <= |before|
    ensures Executions((before + [a])[i..], c) == Executions(before[i..], c) + if a.ran && a.call == c then 1 else 0
    ensures i == |before| ==> Executions(before[i..], c) == 0
  {
    assert (before + [a])[i..] == before[i..] + [a];
    assert (before[i..] + [a])[..|before| - i] == before[i..];
  }

  lemma QuietEnd(attempts: seq<Attempt>, i: nat)
    requires i + 1 < |attempts| && Quiet(attempts[i + 1..])
    ensures !attempts[|attempts| - 1].mutated
  {
    assert attempts[i + 1..][|attempts| - i - 2] == attempts[|attempts| - 1];
  }

  lemma IncreaseInit(turns: seq<Turn>)
    requires TurnsIncrease(turns) && |turns| > 1
    ensures TurnsIncrease(turns[..|turns| - 1]) && turns[|turns| - 1].number > turns[|turns| - 2].number
  {
  }

  lemma OneCallInit(turns: seq<Turn>)
    requires |turns| > 0 && OneCallEach(turns)
    ensures OneCallEach(turns[..|turns| - 1])
  {
  }

  lemma {:induction false} WindowBound(blockAt: int, turns: seq<Turn>, i: nat, c: Call)
    requires blockAt >= 3 && OneCallEach(turns) && TurnsIncrease(turns) && i <= |turns|
    requires i < |turns| ==> turns[|turns| - 1].number - turns[i].number < REPEAT_WINDOW_TURNS
    requires |Trace(blockAt, turns)| == |turns|
    requires i < |turns| ==> Quiet(Trace(blockAt, turns)[i + 1..])
    ensures Executions(Trace(blockAt, turns)[i..], c) <= blockAt - 1
    ensures Executions(Trace(blockAt, turns)[i..], c) == blockAt - 1 ==> c.name in RunState(blockAt, turns).blocked
  {
    hide RunState, Trace, Executions;
    if i == |turns| {
      assert Trace(blockAt, turns)[i..] == [];
      NoExecutions(c);
    } else {
      var n := |turns| - 1;
      TraceOfPrefix(blockAt, turns, n);
      var before, after := Trace(blockAt, turns[..n]), Trace(blockAt, turns);
      assert i < n ==> before[i + 1..] == after[i + 1..][..n - i - 1];
      OneCallInit(turns);
      WindowBound(blockAt, turns[..n], i, c);
      WindowStep(blockAt, turns, i, c);
    }
  }

  lemma NoExecutions(c: Call)
    ensures Executions([], c) == 0
  {
  }

  ghost predicate QuietBetween(attempts: seq<Attempt>, i: nat, j: nat) {
    forall k | i < k < j && k < |attempts| :: !attempts[k].mutated
  }

  /** With one call a turn, between successful mutations no call runs more than `blockAt - 1` times
      in any 12 turns, however often it is requested. */
  lemma RepeatBound(blockAt: int, turns: seq<Turn>, i: nat, j: nat, c: Call)
    requires blockAt >= 3 && OneCallEach(turns) && TurnsIncrease(turns) && i < j <= |turns|
    requires turns[j - 1].number - turns[i].number < REPEAT_WINDOW_TURNS
    requires QuietBetween(Trace(blockAt, turns), i, j)
    ensures |Trace(blockAt, turns)| == |turns|
    ensures Executions(Trace(blockAt, turns)[i..j], c) <= blockAt - 1
  {
    hide RunState, Trace, Executions;
    TraceOfPrefix(blockAt, turns, j);
    var part := turns[..j];
    assert Trace(blockAt, part)[i + 1..] == Trace(blockAt, turns)[i + 1..j];
    assert Trace(blockAt, part)[i..] == Trace(blockAt, turns)[i..j];
    WindowBound(blockAt, part, i, c);
  }

  /** The bound is reached: nothing is blocked before the turn that follows `blockAt - 1` turns. */
  lemma {:induction false} NothingBlockedEarly(blockAt: int, turns: seq<Turn>)
    requires OneCallEach(turns) && |turns| < blockAt - 1
    ensures RunState(blockAt, turns).blocked == {}
  {
    hide RunState, Trace, Prior, LastN;
    if |turns| == 0 {
      assert RunState(blockAt, []).blocked == {} by { NoTurns(blockAt); }
    } else {
      var n := |turns| - 1;
      NothingBlockedEarly(blockAt, turns[..n]);
      LastTurn(blockAt, turns);
      LogIsTrace(blockAt, turns[..n]);
      OneAttemptEach(blockAt, turns[..n]);
      var log := RunState(blockAt, turns[..n]).log;
      assert turns[n] in turns;
      PriorIsShort(LastN(log, HISTORY), turns[n].requests[0].call, turns[n].number);
    }
  }

  lemma NoTurns(blockAt: int)
    ensures RunState(blockAt, []) == State([], {})
  {
  }

  lemma {:induction false} PriorIsShort(past: seq<Observation>, c: Call, now: int)
    ensures |Prior(past, c, now)| <= |past|
  {
    if |past| > 0 { PriorIsShort(past[..|past| - 1], c, now); }
  }

  // ---------------------------------------------------------------- what a batch escapes

  /** Within a batch nothing new is blocked: a request runs exactly when no other gate denies it and
      its tool was free at the start of the batch or was freed by an earlier mutation in it. */
  lemma {:induction false} BatchGate(blocked: set<string>, turn: int, requests: seq<Request>, k: nat)
    requires k < |requests|
    ensures var attempts := Attempts(blocked, turn, requests).attempts;
            attempts[k].ran <==> && requests[k].fate != Denied
                                 && (requests[k].call.name !in blocked || exists m | 0 <= m < k :: attempts[m].mutated)
  {
    hide AnyMutation;
    var n := |requests| - 1;
    var before := Attempts(blocked, turn, requests[..n]);
    var after := Attempts(blocked, turn, requests);
    assert after.attempts == before.attempts + [Try(before.blocked, turn, requests[n])];
    if k < n {
      BatchGate(blocked, turn, requests[..n], k);
      MutationsBefore(before.attempts, after.attempts, k);
    } else {
      BlockedWithinBatch(blocked, turn, requests[..n]);
      MutationMeans(before.attempts, after.attempts);
    }
  }

  lemma MutationsBefore(before: seq<Attempt>, after: seq<Attempt>, k: nat)
    requires k < |before| && before <= after
    ensures after[k] == before[k]
    ensures (exists m | 0 <= m < k :: before[m].mutated) <==> (exists m | 0 <= m < k :: after[m].mutated)
  {
    assert forall m | 0 <= m < |before| :: after[m] == before[m];
  }

  lemma MutationMeans(before: seq<Attempt>, after: seq<Attempt>)
    requires before <= after
    ensures AnyMutation(before) <==> exists m | 0 <= m < |before| :: after[m].mutated
  {
    assert forall m | 0 <= m < |before| :: after[m] == before[m];
  }

  ghost predicate AnyMutation(attempts: seq<Attempt>) {
    exists m | 0 <= m < |attempts| :: attempts[m].mutated
  }

  lemma {:induction false} BlockedWithinBatch(blocked: set<string>, turn: int, requests: seq<Request>)
    ensures var b := Attempts(blocked, turn, requests);
            b.blocked == if AnyMutation(b.attempts) then {} else blocked
  {
    if |requests| > 0 {
      hide Try;
      var init := requests[..|requests| - 1];
      BlockedWithinBatch(blocked, turn, init);
      var before := Attempts(blocked, turn, init);
      MutationGrows(before.attempts, Try(before.blocked, turn, requests[|requests| - 1]));
    }
  }

  lemma MutationGrows(attempts: seq<Attempt>, a: Attempt)
    ensures AnyMutation(attempts + [a]) <==> AnyMutation(attempts) || a.mutated
  {
    if AnyMutation(attempts) {
      var m :| 0 <= m < |attempts| && attempts[m].mutated;
      assert (attempts + [a])[m].mutated;
    }
    if a.mutated { assert (attempts + [a])[|attempts|].mutated; }
  }

  /** So the bound needs one call a turn: a batch of identical calls all run, however many. */
  lemma WholeBatchRuns(turn: int, r: Request, n: nat)
    requires r.fate != Denied
    ensures Executions(Attempts({}, turn, seq(n, _ => r)).attempts, r.call) == n
  {
    hide Try, Attempts;
    var requests := seq(n, _ => r);
    var attempts := Attempts({}, turn, requests).attempts;
    forall k: nat | k < n ensures attempts[k].ran && attempts[k].call == r.call {
      BatchGate({}, turn, requests, k);
      AttemptIsOfRequest({}, turn, requests, k);
    }
    AllExecuted(attempts, r.call);
  }

  lemma {:induction false} AttemptIsOfRequest(blocked: set<string>, turn: int, requests: seq<Request>, k: nat)
    requires k < |requests|
    ensures var a := Attempts(blocked, turn, requests).attempts[k]; a.call == requests[k].call && a.turn == turn
  {
    if k < |requests| - 1 { AttemptIsOfRequest(blocked, turn, requests[..|requests| - 1], k); }
  }

  lemma {:induction false} AllExecuted(attempts: seq<Attempt>, c: Call)
    requires forall a | a in attempts :: a.ran && a.call == c
    ensures Executions(attempts, c) == |attempts|
  {
    if |attempts| > 0 { AllExecuted(attempts[..|attempts| - 1], c); }
  }

  // ---------------------------------------------------------------- what still bounds batches

  /** How many calls these turns make in all. */
  function Size(turns: seq<Turn>): nat {
    if |turns| == 0 then 0 else Size(turns[..|turns| - 1]) + |turns[|turns| - 1].requests|
  }

  function CountOf(requests: seq<Request>, c: Call): nat {
    if |requests| == 0 then 0
    else CountOf(requests[..|requests| - 1], c) + if requests[|requests| - 1].call == c then 1 else 0
  }

  /** What the k-th turn of a run did. */
  function TurnAttempts(blockAt: int, turns: seq<Turn>, k: nat): seq<Attempt>
    requires k < |turns|
  {
    Attempts(RunState(blockAt, turns[..k]).blocked, turns[k].number, turns[k].requests).attempts
  }

  /** The attempts from the i-th turn on. */
  function TraceFrom(blockAt: int, turns: seq<Turn>, i: nat): seq<Attempt>
    decreases |turns|
  {
    if |turns| <= i then []
    else TraceFrom(blockAt, turns[..|turns| - 1], i) + TurnAttempts(blockAt, turns, |turns| - 1)
  }

  /** If the batch holds `c`, its verdict is about `c`. */
  ghost predicate Reports(blockAt: int, turns: seq<Turn>, k: nat, c: Call)
    requires k < |turns|
  {
    var batch := Observed(TurnAttempts(blockAt, turns, k));
    CountOf(turns[k].requests, c) > 0 ==>
      forall w: nat | Worst(RunState(blockAt, turns[..k]).log, batch, true, w) :: batch[w].call == c
  }

  ghost predicate QuietTurn(blockAt: int, turns: seq<Turn>, k: nat)
    requires k < |turns|
  {
    Quiet(TurnAttempts(blockAt, turns, k))
  }

  lemma {:induction false} TraceFromIsEnd(blockAt: int, turns: seq<Turn>, i: nat)
    requires i <= |turns|
    ensures Trace(blockAt, turns) == Trace(blockAt, turns[..i]) + TraceFrom(blockAt, turns, i)
    ensures |TraceFrom(blockAt, turns, i)| == Size(turns) - Size(turns[..i])
  {
    hide RunState, Attempts;
    if i == |turns| {
      assert turns[..i] == turns;
    } else {
      var n := |turns| - 1;
      assert turns[..n][..i] == turns[..i];
      TraceFromIsEnd(blockAt, turns[..n], i);
    }
  }

  lemma {:induction false} TraceFromTurns(blockAt: int, turns: seq<Turn>, i: nat, low: int)
    requires i < |turns| ==> low <= turns[i].number
    requires TurnsIncrease(turns)
    ensures forall a | a in TraceFrom(blockAt, turns, i) :: low <= a.turn
  {
    hide RunState, Attempts;
    if i < |turns| {
      var n := |turns| - 1;
      TraceFromTurns(blockAt, turns[..n], i, low);
      forall k: nat | k < |turns[n].requests| ensures TurnAttempts(blockAt, turns, n)[k].turn == turns[n].number {
        AttemptIsOfRequest(RunState(blockAt, turns[..n]).blocked, turns[n].number, turns[n].requests, k);
      }
    }
  }

  lemma {:induction false} RunsAreRequests(attempts: seq<Attempt>, requests: seq<Request>, c: Call)
    requires |attempts| == |requests| && forall k | 0 <= k < |attempts| :: attempts[k].call == requests[k].call
    ensures Executions(attempts, c) <= CountOf(requests, c)
  {
    if |attempts| > 0 {
      var n := |attempts| - 1;
      RunsAreRequests(attempts[..n], requests[..n], c);
    }
  }

  /** The place of the last run of `c`, if it ran at all. */
  lemma {:induction false} LastRun(attempts: seq<Attempt>, c: Call) returns (p: nat)
    requires Executions(attempts, c) > 0
    ensures p < |attempts| && attempts[p].ran && attempts[p].call == c
    ensures Executions(attempts[..p], c) == Executions(attempts, c) - 1
  {
    var n := |attempts| - 1;
    if attempts[n].ran && attempts[n].call == c {
      p := n;
    } else {
      p := LastRun(attempts[..n], c);
      assert attempts[..n][..p] == attempts[..p];
    }
  }

  lemma {:induction false} ExecutionsJoin(a: seq<Attempt>, b: seq<Attempt>, c: Call)
    ensures Executions(a + b, c) == Executions(a, c) + Executions(b, c)
  {
    if |b| == 0 {
      assert a + b == a;
    } else {
      ExecutionsJoin(a, b[..|b| - 1], c);
      assert (a + b)[..|a + b| - 1] == a + b[..|b| - 1];
    }
  }

  ghost predicate EndsWith(log: seq<Observation>, window: seq<Attempt>) {
    |window| <= |log| && log[|log| - |window|..] == Observed(window)
  }

  /** Every run of `c` in a remembered window, up to the last one of the batch, counts as an occurrence there. */
  lemma WindowOccurrences(log: seq<Observation>, window: seq<Attempt>, attempts: seq<Attempt>, p: nat, now: int)
    requires |window| + |attempts| <= HISTORY && p < |attempts|
    requires EndsWith(log, window)
    requires forall a | a in window + attempts :: now - a.turn < REPEAT_WINDOW_TURNS
    requires attempts[p].turn == now
    ensures Executions(window, attempts[p].call) + Executions(attempts[..p], attempts[p].call) + 1
         <= OccurrencesAt(log, Observed(attempts), p, true)
  {
    hide Executions, Prior;
    var c := attempts[p].call;
    var seen := window + attempts[..p];
    ExecutionsJoin(window, attempts[..p], c);
    forall a | a in seen ensures a in window + attempts { }
    RunsAreObserved(seen, c, now);
    ObservedAppend(window, attempts[..p]);
    assert Observed(attempts)[..p] == Observed(attempts[..p]);
    var all := log + Observed(attempts)[..p];
    var i := |log| - |window|;
    assert all[i..] == Observed(seen);
    WindowIsRemembered(all, i, c, now);
  }

  /** A batch whose verdict is about a call with enough occurrences blocks its tool. */
  lemma ReportBlocks(blockAt: int, log: seq<Observation>, batch: seq<Observation>, blocked: set<string>, p: nat)
    requires blockAt >= 3 && p < |batch| && OccurrencesAt(log, batch, p, true) >= blockAt - 1
    requires forall w: nat | Worst(log, batch, true, w) :: batch[w].call == batch[p].call
    ensures batch[p].call.name in AfterBatch(blockAt, blocked, Judge(log, batch, true, true))
  {
    hide Judge, Prior, Recall;
    var w := VerdictNamesWorst(log, batch, true, true);
  }

  lemma QuietStays(blocked: set<string>, turn: int, requests: seq<Request>)
    requires Quiet(Attempts(blocked, turn, requests).attempts)
    ensures Attempts(blocked, turn, requests).blocked == blocked
  {
    hide Attempts;
    BlockedWithinBatch(blocked, turn, requests);
  }

  lemma BlockedNeverRuns(blocked: set<string>, turn: int, requests: seq<Request>, c: Call)
    requires c.name in blocked && Quiet(Attempts(blocked, turn, requests).attempts)
    ensures Executions(Attempts(blocked, turn, requests).attempts, c) == 0
  {
    hide Attempts;
    var attempts := Attempts(blocked, turn, requests).attempts;
    if Executions(attempts, c) > 0 {
      var p := LastRun(attempts, c);
      BatchGate(blocked, turn, requests, p);
      AttemptIsOfRequest(blocked, turn, requests, p);
      assert false;
    }
  }

  lemma LastTurnState(blockAt: int, turns: seq<Turn>)
    requires |turns| > 0 && QuietTurn(blockAt, turns, |turns| - 1)
    ensures var n := |turns| - 1;
            var s := RunState(blockAt, turns[..n]);
            RunState(blockAt, turns).blocked
              == AfterBatch(blockAt, s.blocked,
                  Judge(s.log, Observed(TurnAttempts(blockAt, turns, n)), turns[n].requests != [], true))
  {
    hide Judge, Attempts, AfterBatch;
    var n := |turns| - 1;
    QuietStays(RunState(blockAt, turns[..n]).blocked, turns[n].number, turns[n].requests);
  }

  /** The last batch, for a call it reports: reaching the threshold blocks the tool. */
  lemma BatchStep(blockAt: int, turns: seq<Turn>, i: nat, c: Call)
    requires blockAt >= 3 && TurnsIncrease(turns) && i < |turns|
    requires turns[|turns| - 1].number - turns[i].number < REPEAT_WINDOW_TURNS
    requires Size(turns) - Size(turns[..i]) <= HISTORY
    requires QuietTurn(blockAt, turns, |turns| - 1) && Reports(blockAt, turns, |turns| - 1, c)
    requires Executions(TurnAttempts(blockAt, turns, |turns| - 1), c) > 0
    requires Executions(TraceFrom(blockAt, turns, i), c) >= blockAt - 1
    ensures c.name in RunState(blockAt, turns).blocked
  {
    hide RunState, Attempts, Trace, Executions, Judge, Prior, AfterBatch, Quiet, CountOf, Observed, Worst,
         OccurrencesAt, EndsWith;
    var n := |turns| - 1;
    var s, t, attempts := RunState(blockAt, turns[..n]), turns[n], TurnAttempts(blockAt, turns, n);
    var window := TraceFrom(blockAt, turns[..n], i);
    forall k: nat | k < |t.requests| ensures attempts[k].call == t.requests[k].call && attempts[k].turn == t.number {
      AttemptIsOfRequest(s.blocked, t.number, t.requests, k);
    }
    RunsAreRequests(attempts, t.requests, c);
    var p := LastRun(attempts, c);
    WindowIsEnd(blockAt, turns, i);
    TraceFromTurns(blockAt, turns, i, turns[i].number);
    ExecutionsJoin(window, attempts, c);
    WindowOccurrences(s.log, window, attempts, p, t.number);
    ObservedAt(attempts, p);
    ReportBlocks(blockAt, s.log, Observed(attempts), s.blocked, p);
    LastTurnState(blockAt, turns);
  }

  lemma ObservedAt(attempts: seq<Attempt>, p: nat)
    requires p < |attempts|
    ensures |Observed(attempts)| == |attempts| && Observed(attempts)[p].call == attempts[p].call
  {
  }

  /** The window before the last turn, as the log has it. */
  lemma WindowIsEnd(blockAt: int, turns: seq<Turn>, i: nat)
    requires i < |turns|
    ensures var n := |turns| - 1;
            var window := TraceFrom(blockAt, turns[..n], i);
            && |window| + |turns[n].requests| == Size(turns) - Size(turns[..i])
            && EndsWith(RunState(blockAt, turns[..n]).log, window)
  {
    hide RunState, Attempts, Trace, Observed;
    var n := |turns| - 1;
    var init := turns[..n];
    assert init[..i] == turns[..i];
    TraceFromIsEnd(blockAt, init, i);
    LogIsTrace(blockAt, init);
    ObservedAppend(Trace(blockAt, init[..i]), TraceFrom(blockAt, init, i));
    ObservedLength(TraceFrom(blockAt, init, i));
  }

  lemma ObservedLength(attempts: seq<Attempt>)
    ensures |Observed(attempts)| == |attempts|
  {
  }

  ghost predicate QuietAndReported(blockAt: int, turns: seq<Turn>, i: nat, c: Call, m: nat) {
    forall k: nat | i <= k < |turns| ::
      QuietTurn(blockAt, turns, k) && Reports(blockAt, turns, k, c) && CountOf(turns[k].requests, c) <= m
  }

  lemma QuietAndReportedInit(blockAt: int, turns: seq<Turn>, i: nat, c: Call, m: nat)
    requires |turns| > 0 && QuietAndReported(blockAt, turns, i, c, m)
    ensures QuietAndReported(blockAt, turns[..|turns| - 1], i, c, m)
  {
    hide RunState, Attempts, Quiet, CountOf, Observed, Worst;
    var init := turns[..|turns| - 1];
    forall k: nat | i <= k < |init|
      ensures QuietTurn(blockAt, init, k) && Reports(blockAt, init, k, c) && CountOf(init[k].requests, c) <= m
    {
      assert init[..k] == turns[..k] && init[k] == turns[k];
      assert QuietTurn(blockAt, turns, k) && Reports(blockAt, turns, k, c);
    }
  }

  /** Batches of any size: between successful mutations, in any 12 turns whose calls fit the queue, a call that
      every batch holding it reports as its worst runs at most `blockAt - 2 + m` times, where no batch asks
      for it more than `m` times. */
  lemma {:induction false} BatchBound(blockAt: int, turns: seq<Turn>, i: nat, c: Call, m: nat)
    requires blockAt >= 3 && TurnsIncrease(turns)
    requires i < |turns| ==> turns[|turns| - 1].number - turns[i].number < REPEAT_WINDOW_TURNS
    requires i < |turns| ==> Size(turns) - Size(turns[..i]) <= HISTORY
    requires QuietAndReported(blockAt, turns, i, c, m)
    ensures Executions(TraceFrom(blockAt, turns, i), c) <= blockAt - 2 + m
    ensures Executions(TraceFrom(blockAt, turns, i), c) >= blockAt - 1 ==> c.name in RunState(blockAt, turns).blocked
    decreases |turns|
  {
    hide RunState, Attempts, Trace, Executions, Judge, AfterBatch, Quiet, CountOf, Reports;
    if |turns| <= i {
      NoExecutions(c);
    } else {
      var n := |turns| - 1;
      var init, s, t := turns[..n], RunState(blockAt, turns[..n]), turns[n];
      var attempts := TurnAttempts(blockAt, turns, n);
      QuietAndReportedInit(blockAt, turns, i, c, m);
      if i < n {
        assert init[..i] == turns[..i];
        assert init[n - 1].number < t.number;
      }
      BatchBound(blockAt, init, i, c, m);
      ExecutionsJoin(TraceFrom(blockAt, init, i), attempts, c);
      forall k: nat | k < |t.requests| ensures attempts[k].call == t.requests[k].call {
        AttemptIsOfRequest(s.blocked, t.number, t.requests, k);
      }
      RunsAreRequests(attempts, t.requests, c);
      assert QuietTurn(blockAt, turns, n) && Reports(blockAt, turns, n, c);
      if c.name in s.blocked {
        BlockedNeverRuns(s.blocked, t.number, t.requests, c);
        BlockStays(blockAt, turns, c.name);
      } else if Executions(attempts, c) > 0 && Executions(TraceFrom(blockAt, turns, i), c) >= blockAt - 1 {
        BatchStep(blockAt, turns, i, c);
      }
    }
  }

  lemma BlockStays(blockAt: int, turns: seq<Turn>, name: string)
    requires |turns| > 0 && QuietTurn(blockAt, turns, |turns| - 1)
    requires name in RunState(blockAt, turns[..|turns| - 1]).blocked
    ensures name in RunState(blockAt, turns).blocked
  {
    hide RunState, Judge, Attempts;
    LastTurnState(blockAt, turns);
  }

  // ---------------------------------------------------------------- when exactly a tool is blocked

  /** The k-th batch's verdict names this tool, for a call repeated often enough. */
  predicate BlocksTool(blockAt: int, turns: seq<Turn>, k: nat, name: string)
    requires k < |turns|
  {
    var batch := Observed(TurnAttempts(blockAt, turns, k));
    var v := Judge(RunState(blockAt, turns[..k]).log, batch, turns[k].requests != [], true);
    v.kind != NoRepeat && v.occurrences >= blockAt - 1 && v.tool == name
  }

  ghost predicate Mutates(blockAt: int, turns: seq<Turn>, k: nat)
    requires k < |turns|
  {
    AnyMutation(TurnAttempts(blockAt, turns, k))
  }

  ghost predicate BlockedSince(blockAt: int, turns: seq<Turn>, k: nat, name: string)
    requires k < |turns|
  {
    BlocksTool(blockAt, turns, k, name) && forall j: nat | k < j < |turns| :: !Mutates(blockAt, turns, j)
  }

  lemma BlockedAfter(blockAt: int, turns: seq<Turn>, name: string)
    requires |turns| > 0
    ensures var n := |turns| - 1;
            (name in RunState(blockAt, turns).blocked
             <==> BlocksTool(blockAt, turns, n, name)
                  || (name in RunState(blockAt, turns[..n]).blocked && !Mutates(blockAt, turns, n)))
  {
    hide Judge, Attempts;
    var n := |turns| - 1;
    BlockedWithinBatch(RunState(blockAt, turns[..n]).blocked, turns[n].number, turns[n].requests);
  }

  lemma SameTurn(blockAt: int, turns: seq<Turn>, k: nat, name: string)
    requires k < |turns| - 1
    ensures var init := turns[..|turns| - 1];
            && BlocksTool(blockAt, init, k, name) == BlocksTool(blockAt, turns, k, name)
            && Mutates(blockAt, init, k) == Mutates(blockAt, turns, k)
  {
    hide Judge, Attempts, RunState;
    var init := turns[..|turns| - 1];
    assert init[..k] == turns[..k] && init[k] == turns[k];
  }

  /** A tool is blocked exactly if the verdict of some batch named it, for a call repeated often enough, and no
      mutation has succeeded in a later batch. */
  lemma {:induction false} BlockedIff(blockAt: int, turns: seq<Turn>, name: string)
    ensures name in RunState(blockAt, turns).blocked
            <==> exists k: nat | k < |turns| :: BlockedSince(blockAt, turns, k, name)
  {
    hide RunState, BlocksTool, Mutates;
    if |turns| == 0 {
      assert turns == [];
      NoTurns(blockAt);
    } else {
      var n := |turns| - 1;
      var init := turns[..n];
      BlockedIff(blockAt, init, name);
      BlockedAfter(blockAt, turns, name);
      forall k: nat | k < n
        ensures BlockedSince(blockAt, turns, k, name)
                <==> BlockedSince(blockAt, init, k, name) && !Mutates(blockAt, turns, n)
      {
        SinceInit(blockAt, turns, k, name);
      }
      assert BlockedSince(blockAt, turns, n, name) <==> BlocksTool(blockAt, turns, n, name);
    }
  }

  lemma SinceInit(blockAt: int, turns: seq<Turn>, k: nat, name: string)
    requires k < |turns| - 1
    ensures BlockedSince(blockAt, turns, k, name)
       <==> BlockedSince(blockAt, turns[..|turns| - 1], k, name) && !Mutates(blockAt, turns, |turns| - 1)
  {
    hide RunState, BlocksTool, Mutates;
    var n := |turns| - 1;
    var init := turns[..n];
    SameTurn(blockAt, turns, k, name);
    forall j: nat | k < j < n ensures Mutates(blockAt, turns, j) == Mutates(blockAt, init, j) {
      SameTurn(blockAt, turns, j, name);
    }
    if BlockedSince(blockAt, turns, k, name) {
      forall j: nat | k < j < n ensures !Mutates(blockAt, init, j) { assert !Mutates(blockAt, turns, j); }
    }
    if BlockedSince(blockAt, init, k, name) && !Mutates(blockAt, turns, n) {
      forall j: nat | k < j < |turns| ensures !Mutates(blockAt, turns, j) {
        if j < n { assert !Mutates(blockAt, init, j); }
      }
    }
  }

  /** Among the calls of the k-th batch with the most occurrences, none that comes first is of this tool. */
  ghost predicate NeverWorst(blockAt: int, turns: seq<Turn>, k: nat, name: string)
    requires k < |turns|
  {
    var batch := Observed(TurnAttempts(blockAt, turns, k));
    forall w: nat | Worst(RunState(blockAt, turns[..k]).log, batch, true, w) :: batch[w].call.name != name
  }

  lemma NeverWorstNeverBlocks(blockAt: int, turns: seq<Turn>, k: nat, name: string)
    requires k < |turns| && NeverWorst(blockAt, turns, k, name)
    ensures !BlocksTool(blockAt, turns, k, name)
  {
    hide Judge, RunState, Recall, KindOf, Occurrences, Attempts;
    var log, batch := RunState(blockAt, turns[..k]).log, Observed(TurnAttempts(blockAt, turns, k));
    if batch == [] {
      EmptyJudged(log, turns[k].requests != []);
    } else {
      var w := VerdictNamesWorst(log, batch, turns[k].requests != [], true);
    }
  }

  lemma EmptyJudged(log: seq<Observation>, asked: bool)
    ensures Judge(log, [], asked, true).kind == NoRepeat
  {
  }

  /** A tool none of whose calls is ever the reported worst of its batch is never blocked, however often it is
      asked for the same: every request for it runs that no other gate denies. */
  lemma NeverWorstAlwaysRuns(blockAt: int, turns: seq<Turn>, k: nat, i: nat, name: string)
    requires k < |turns| && i < |turns[k].requests| && turns[k].requests[i].call.name == name
    requires forall j: nat | j < k :: NeverWorst(blockAt, turns, j, name)
    ensures name !in RunState(blockAt, turns[..k]).blocked
    ensures TurnAttempts(blockAt, turns, k)[i].ran <==> turns[k].requests[i].fate != Denied
  {
    hide RunState, Attempts, NeverWorst, BlocksTool;
    var before := turns[..k];
    BlockedIff(blockAt, before, name);
    forall j: nat | j < k ensures !BlocksTool(blockAt, before, j, name) {
      PrefixNeverWorst(blockAt, turns, k, j, name);
      NeverWorstNeverBlocks(blockAt, before, j, name);
    }
    BatchGate(RunState(blockAt, before).blocked, turns[k].number, turns[k].requests, i);
  }

  lemma PrefixNeverWorst(blockAt: int, turns: seq<Turn>, k: nat, j: nat, name: string)
    requires j < k < |turns|
    ensures NeverWorst(blockAt, turns[..k], j, name) == NeverWorst(blockAt, turns, j, name)
  {
    hide RunState, Attempts, Worst;
    assert turns[..k][..j] == turns[..j];
  }

  /** Turns 1 to n, each asking for the same two reads, `first` before `second`. */
  function Pairs(first: Request, second: Request, n: nat): seq<Turn> {
    if n == 0 then [] else Pairs(first, second, n - 1) + [Turn(n, [first, second])]
  }

  /** The calls alternate, two to a turn. */
  ghost predicate Alternates(log: seq<Observation>, c: Call, d: Call) {
    && |log| % 2 == 0
    && forall k | 0 <= k < |log| :: log[k].call == (if k % 2 == 0 then c else d) && log[k].turn == k / 2 + 1
  }

  lemma {:induction false} EquallyOften(log: seq<Observation>, c: Call, d: Call, now: int)
    requires Alternates(log, c, d) && c != d
    ensures |Prior(log, c, now)| == |Prior(log, d, now)|
  {
    if |log| > 0 {
      var n := |log| - 2;
      EquallyOften(log[..n], c, d, now);
      assert log[..n + 1][..n] == log[..n];
    }
  }

  lemma {:induction false} RecentOnlyFrom(log: seq<Observation>, now: int, k: nat)
    requires k <= |log| && forall i | 0 <= i < k :: !log[i].RecentAt(now)
    ensures RecentCount(log, now) <= |log| - k
  {
    if |log| > 0 {
      var n := |log| - 1;
      RecentOnlyFrom(log[..n], now, if k > n then n else k);
    }
  }

  lemma FewRecent(log: seq<Observation>, c: Call, d: Call, o: Observation)
    requires Alternates(log, c, d) && o.turn == |log| / 2 + 1
    ensures RecentCount(log + [o], o.turn) <= HISTORY
  {
    hide RecentCount;
    var n := |log| / 2;
    var k := if n > 11 then 2 * (n - 11) else 0;
    forall i | 0 <= i < k ensures !(log + [o])[i].RecentAt(o.turn) {
      assert (log + [o])[i] == log[i];
    }
    RecentOnlyFrom(log + [o], o.turn, k);
  }

  /** The second of two equally repeated calls never outweighs the first. */
  lemma FirstOfTheTie(log: seq<Observation>, o: Observation, p: Observation)
    requires o.call != p.call && Alternates(log, o.call, p.call) && o.turn == p.turn == |log| / 2 + 1
    ensures Judge(log, [o, p], true, true).tool == o.call.name
  {
    hide Prior, KindOf, LastN, RecentCount;
    var now := o.turn;
    FewRecent(log, o.call, p.call, o);
    RecentCountAppend(log, [o], now);
    EquallyOften(log, o.call, p.call, now);
    PriorAppend(log, [o], p.call, now);
    assert Prior([o], p.call, now) == [] by { NoneMatch([o], p.call, now); }
    ForgottenIsStale(log, o.call, now);
    ForgottenIsStale(log + [o], p.call, now);
    assert [o, p][..1] == [o] && [o][..0] == [] && log + [] == log;
    assert Judge(log, [], true, true) == Verdict(NoRepeat, "", 0, true);
    assert Judge(log, [o], true, true).tool == o.call.name;
  }

  lemma TwoAttempts(blocked: set<string>, turn: int, requests: seq<Request>)
    requires |requests| == 2 && forall r | r in requests :: r.fate == Returns(false)
    ensures var a, b := Try(blocked, turn, requests[0]), Try(blocked, turn, requests[1]);
            Attempts(blocked, turn, requests) == Batch([a, b], blocked)
  {
    OneAttempt(blocked, turn, requests[..1]);
    assert requests[..1][0] == requests[0] && requests[0] in requests && requests[1] in requests;
  }

  /** A call repeated beside an equally repeated one is never blocked: only the first of the tied calls is. */
  lemma {:induction false} SecondOfATieNeverBlocked(blockAt: int, first: Request, second: Request, n: nat)
    requires first.call.name != second.call.name && first.fate == second.fate == Returns(false)
    ensures var s := RunState(blockAt, Pairs(first, second, n));
            && second.call.name !in s.blocked
            && Alternates(s.log, first.call, second.call) && |s.log| == 2 * n
            && Try(s.blocked, n + 1, second).ran
  {
    if n == 0 {
      NoTurns(blockAt);
    } else {
      SecondOfATieNeverBlocked(blockAt, first, second, n - 1);
      var turns := Pairs(first, second, n);
      assert turns[..n - 1] == Pairs(first, second, n - 1) && turns[n - 1] == Turn(n, [first, second]) by {
        PairsLength(first, second, n - 1);
      }
      PairTurn(blockAt, RunState(blockAt, turns[..n - 1]), first, second, n);
      PairsLength(first, second, n);
    }
  }

  lemma {:induction false} PairsLength(first: Request, second: Request, n: nat)
    ensures |Pairs(first, second, n)| == n
  {
    if n > 0 { PairsLength(first, second, n - 1); }
  }

  lemma PairTurn(blockAt: int, s: State, first: Request, second: Request, n: nat)
    requires first.call.name != second.call.name && first.fate == second.fate == Returns(false) && n > 0
    requires second.call.name !in s.blocked && |s.log| == 2 * (n - 1) && Alternates(s.log, first.call, second.call)
    ensures var t := NextState(blockAt, s, Turn(n, [first, second]));
            second.call.name !in t.blocked && Alternates(t.log, first.call, second.call) && |t.log| == 2 * n
  {
    hide Judge, Attempts;
    TwoAttempts(s.blocked, n, [first, second]);
    var a, b := Try(s.blocked, n, first), Try(s.blocked, n, second);
    var o, p := Observation(a.call, a.result, n), Observation(b.call, b.result, n);
    assert Observed([a, b]) == [o, p];
    FirstOfTheTie(s.log, o, p);
  }
}
