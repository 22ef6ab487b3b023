/** Recognising repeated tool calls, and the ladder that blocks them. A call is known by its
    name and canonical arguments; only 32 observations are remembered and only the last
    12 turns count. */
module Progress {
  import opened Wrappers
  import opened Text

  const HISTORY: nat := 32
  const REPEAT_WINDOW_TURNS := 12

  datatype RepeatKind = NoRepeat | Repeat | IdenticalResult

  /** A tool call: `args` is the canonical rendering of its arguments. */
  datatype Call = Call(name: string, args: string)

  datatype Observation = Observation(call: Call, result: string, turn: int) {
    predicate RecentAt(now: int) { now - turn < REPEAT_WINDOW_TURNS }
    predicate Matches(c: Call, now: int) { call == c && RecentAt(now) }
  }

  datatype Verdict = Verdict(kind: RepeatKind, tool: string, occurrences: nat, noProgress: bool)

  // ---------------------------------------------------------------- one observation

  /** The remembered observations that count as the same call. */
  function Prior(past: seq<Observation>, c: Call, now: int): seq<Observation> {
    if |past| == 0 then []
    else
      var before, last := Prior(past[..|past| - 1], c, now), past[|past| - 1];
      if last.Matches(c, now) then before + [last] else before
  }

  function KindOf(past: seq<Observation>, o: Observation): RepeatKind {
    var prior := Prior(past, o.call, o.turn);
    if prior == [] then NoRepeat
    else if exists p | p in prior :: p.result == o.result then IdenticalResult
    else Repeat
  }

  function Occurrences(past: seq<Observation>, o: Observation): (n: nat)
    ensures n >= 1
  {
    |Prior(past, o.call, o.turn)| + 1
  }

  /** What is remembered of `past`: everything, or what the bounded queue holds. */
  function Recall(past: seq<Observation>, bounded: bool): seq<Observation> {
    if bounded then LastN(past, HISTORY) else past
  }

  /** The verdict on a batch: each call is compared with all that went before it. */
  function Judge(past: seq<Observation>, batch: seq<Observation>, asked: bool, bounded: bool): Verdict {
    if |batch| == 0 then Verdict(NoRepeat, "", 0, asked)
    else
      var n := |batch| - 1;
      Weigh(Judge(past, batch[..n], asked, bounded), Recall(past + batch[..n], bounded), batch[n])
  }

  function Weigh(best: Verdict, past: seq<Observation>, o: Observation): Verdict {
    var kind, occurrences := KindOf(past, o), Occurrences(past, o);
    var noProgress := best.noProgress && kind != NoRepeat;
    if occurrences > best.occurrences
    then Verdict(kind, o.call.name, occurrences, noProgress)
    else best.(noProgress := noProgress)
  }

  /** The observations a batch adds; surplus calls or results are ignored. */
  function Zip(turn: int, calls: seq<Call>, results: seq<string>): seq<Observation> {
    var n := if |calls| < |results| then |calls| else |results|;
    seq(n, i requires 0 <= i < n => Observation(calls[i], results[i], turn))
  }

  function ResultsOf(log: seq<Observation>): set<string> {
    set o | o in log :: o.result
  }

  lemma JudgeStep(past: seq<Observation>, batch: seq<Observation>, i: nat, asked: bool, bounded: bool)
    requires i < |batch|
    ensures Judge(past, batch[..i + 1], asked, bounded)
         == Weigh(Judge(past, batch[..i], asked, bounded), Recall(past + batch[..i], bounded), batch[i])
  {
    hide Weigh, Recall;
    assert batch[..i + 1][..i] == batch[..i];
  }

  // ---------------------------------------------------------------- the tracker

  class ProgressTracker {
    const warnAt: int
    const blockAt: int
    const stopAt: int
    var history: seq<Observation>
    var seenResults: set<string>
    var mutationSuccess: bool
    var newResultSeen: bool
    /** Every observation since the last reset. */
    ghost var log: seq<Observation>

    ghost predicate Valid()
      reads this
    {
      && 1 < warnAt < blockAt < stopAt
      && history == LastN(log, HISTORY)
      && seenResults == ResultsOf(log)
      && (newResultSeen <==> log != [])
    }

    constructor (warnAt: int, blockAt: int, stopAt: int)
      requires 1 < warnAt < blockAt < stopAt
      ensures Valid() && log == [] && !mutationSuccess
      ensures this.warnAt == warnAt && this.blockAt == blockAt && this.stopAt == stopAt
    {
      this.warnAt, this.blockAt, this.stopAt := warnAt, blockAt, stopAt;
      history, seenResults, mutationSuccess, newResultSeen, log := [], {}, false, false, [];
    }

    method ResetUserTurn()
      requires Valid()
      modifies this
      ensures Valid() && log == [] && !mutationSuccess
    {
      history, seenResults, mutationSuccess, newResultSeen, log := [], {}, false, false, [];
    }

    method NoteMutationSuccess()
      requires Valid()
      modifies this`mutationSuccess
      ensures Valid() && mutationSuccess
    {
      mutationSuccess := true;
    }

    /** The first result of a run is always new: any observed call counts as progress. */
    method RunMadeProgress() returns (r: bool)
      requires Valid()
      ensures r <==> mutationSuccess || log != []
    {
      r := mutationSuccess || newResultSeen;
    }

    method ObserveTurn(turn: int, calls: seq<Call>, results: seq<string>) returns (v: Verdict)
      requires Valid()
      modifies this`history, this`seenResults, this`newResultSeen, this`log
      ensures Valid()
      ensures log == old(log) + Zip(turn, calls, results)
      ensures v == Judge(old(log), Zip(turn, calls, results), calls != [], true)
    {
      hide KindOf, Occurrences, Judge, ResultsOf, LastN;
      ghost var start := log;
      ghost var batch := Zip(turn, calls, results);
      var bestKind, bestTool, bestOccurrences := NoRepeat, "", 0;
      var allRepeated := calls != [];
      var i := 0;
      StartOfBatch(start, batch, calls != []);
      while i < |calls| && i < |results|
        invariant i <= |batch| && log == start + batch[..i] && Valid()
        invariant Verdict(bestKind, bestTool, bestOccurrences, allRepeated)
                  == Judge(start, batch[..i], calls != [], true)
      {
        var o := Observation(calls[i], results[i], turn);
        JudgeStep(start, batch, i, calls != [], true);
        var kind, occurrences := KindOf(history, o), Occurrences(history, o);
        if kind == NoRepeat { allRepeated := false; }
        SeenGrows(log, o);
        LastNAppend(log, [o], HISTORY);
        LogGrows(start, batch, i);
        if o.result !in seenResults {
          seenResults := seenResults + {o.result};
          newResultSeen := true;
        }
        history, log := LastN(history + [o], HISTORY), log + [o];
        if occurrences > bestOccurrences {
          bestKind, bestTool, bestOccurrences := kind, o.call.name, occurrences;
        }
        i := i + 1;
      }
      assert batch[..i] == batch;
      v := Verdict(bestKind, bestTool, bestOccurrences, allRepeated);
    }
  }

  lemma StartOfBatch(start: seq<Observation>, batch: seq<Observation>, asked: bool)
    ensures start + batch[..0] == start
    ensures Judge(start, batch[..0], asked, true) == Verdict(NoRepeat, "", 0, asked)
  {
  }

  lemma LogGrows(start: seq<Observation>, batch: seq<Observation>, i: nat)
    requires i < |batch|
    ensures start + batch[..i] + [batch[i]] == start + batch[..i + 1]
  {
  }

  /** The checked construction: thresholds out of order are an error. */
  method NewTracker(warnAt: int, blockAt: int, stopAt: int) returns (r: Result<ProgressTracker, string>)
    ensures r.Success? <==> 1 < warnAt < blockAt < stopAt
    ensures r.Success? ==> fresh(r.value) && r.value.Valid() && r.value.log == [] && r.value.blockAt == blockAt
  {
    if 1 < warnAt < blockAt < stopAt {
      var t := new ProgressTracker(warnAt, blockAt, stopAt);
      r := Success(t);
    } else {
      r := Failure("progress thresholds must satisfy 1 < warn < block < stop");
    }
  }

  lemma SeenGrows(log: seq<Observation>, o: Observation)
    ensures ResultsOf(log + [o]) == ResultsOf(log) + {o.result}
    ensures o.result in ResultsOf(log) ==> log != []
  {
    assert o in log + [o];
    forall p | p in log ensures p in log + [o] { }
  }

  // ---------------------------------------------------------------- what a verdict means

  lemma {:induction false} PriorAppend(a: seq<Observation>, b: seq<Observation>, c: Call, now: int)
    ensures Prior(a + b, c, now) == Prior(a, c, now) + Prior(b, c, now)
  {
    if |b| == 0 {
      assert a + b == a;
    } else {
      var n := |b| - 1;
      PriorAppend(a, b[..n], c, now);
      assert (a + b)[..|a| + n] == a + b[..n];
    }
  }

  /** Exactly the matching observations are kept. */
  lemma {:induction false} PriorIsTheMatching(past: seq<Observation>, c: Call, now: int, o: Observation)
    ensures o in Prior(past, c, now) <==> o in past && o.Matches(c, now)
  {
    if |past| > 0 {
      var n := |past| - 1;
      PriorIsTheMatching(past[..n], c, now, o);
      assert o in past <==> o in past[..n] || o == past[n] by { assert past == past[..n] + [past[n]]; }
    }
  }

  ghost predicate SeenBefore(past: seq<Observation>, batch: seq<Observation>, i: nat, bounded: bool)
    requires i < |batch|
  {
    exists p | p in Recall(past + batch[..i], bounded) :: p.Matches(batch[i].call, batch[i].turn)
  }

  function OccurrencesAt(past: seq<Observation>, batch: seq<Observation>, i: nat, bounded: bool): nat
    requires i < |batch|
  {
    Occurrences(Recall(past + batch[..i], bounded), batch[i])
  }

  ghost predicate AllSeenBefore(past: seq<Observation>, batch: seq<Observation>, bounded: bool) {
    forall i: nat | i < |batch| :: SeenBefore(past, batch, i, bounded)
  }

  lemma AllSeenStep(past: seq<Observation>, batch: seq<Observation>, bounded: bool)
    requires |batch| > 0
    ensures AllSeenBefore(past, batch, bounded)
       <==> AllSeenBefore(past, batch[..|batch| - 1], bounded) && SeenBefore(past, batch, |batch| - 1, bounded)
  {
    hide Recall;
    var init := batch[..|batch| - 1];
    forall i: nat | i < |init| ensures SeenBefore(past, batch, i, bounded) <==> SeenBefore(past, init, i, bounded) {
      assert init[..i] == batch[..i];
    }
  }

  /** The turn learnt nothing exactly when each of its calls had been made before. */
  lemma {:induction false} NoProgressMeans(past: seq<Observation>, batch: seq<Observation>, asked: bool, bounded: bool)
    ensures Judge(past, batch, asked, bounded).noProgress <==> asked && AllSeenBefore(past, batch, bounded)
  {
    hide Recall, AllSeenBefore, KindOf, Observation.Matches;
    if |batch| == 0 {
      NothingToSee(past, batch, bounded);
    } else {
      var n := |batch| - 1;
      NoProgressMeans(past, batch[..n], asked, bounded);
      AllSeenStep(past, batch, bounded);
      RepeatMeans(Recall(past + batch[..n], bounded), batch[n]);
    }
  }

  lemma NothingToSee(past: seq<Observation>, batch: seq<Observation>, bounded: bool)
    requires |batch| == 0
    ensures AllSeenBefore(past, batch, bounded)
  {
  }

  lemma RepeatMeans(past: seq<Observation>, o: Observation)
    ensures KindOf(past, o) != NoRepeat <==> exists p | p in past :: p.Matches(o.call, o.turn)
    ensures KindOf(past, o) == IdenticalResult
            <==> exists p | p in past :: p.Matches(o.call, o.turn) && p.result == o.result
  {
    hide Prior, Observation.Matches;
    var prior := Prior(past, o.call, o.turn);
    forall p ensures p in prior <==> p in past && p.Matches(o.call, o.turn) {
      PriorIsTheMatching(past, o.call, o.turn, p);
    }
    if prior != [] { assert prior[0] in prior; }
  }

  /** `w` is the first of the batch's calls with the most occurrences. */
  ghost predicate Worst(past: seq<Observation>, batch: seq<Observation>, bounded: bool, w: nat) {
    && w < |batch|
    && (forall i: nat | i < |batch| ::
          OccurrencesAt(past, batch, i, bounded) <= OccurrencesAt(past, batch, w, bounded))
    && (forall i: nat | i < w ::
          OccurrencesAt(past, batch, i, bounded) < OccurrencesAt(past, batch, w, bounded))
  }

  function ReportOf(past: seq<Observation>, batch: seq<Observation>, bounded: bool, w: nat, noProgress: bool): Verdict
    requires w < |batch|
  {
    Verdict(KindOf(Recall(past + batch[..w], bounded), batch[w]), batch[w].call.name,
            OccurrencesAt(past, batch, w, bounded), noProgress)
  }

  lemma WorstStep(past: seq<Observation>, batch: seq<Observation>, bounded: bool, v: nat) returns (w: nat)
    requires |batch| > 1 && Worst(past, batch[..|batch| - 1], bounded, v)
    ensures Worst(past, batch, bounded, w)
    ensures var n := |batch| - 1;
            w == if OccurrencesAt(past, batch, n, bounded) > OccurrencesAt(past, batch[..n], v, bounded) then n else v
  {
    hide Recall, Occurrences;
    var n := |batch| - 1;
    var init := batch[..n];
    forall i: nat | i < n
      ensures OccurrencesAt(past, batch, i, bounded) == OccurrencesAt(past, init, i, bounded)
    {
      assert init[..i] == batch[..i];
    }
    w := if OccurrencesAt(past, batch, n, bounded) > OccurrencesAt(past, init, v, bounded) then n else v;
  }

  lemma ReportOfInit(past: seq<Observation>, batch: seq<Observation>, bounded: bool, w: nat, noProgress: bool)
    requires |batch| > 1 && w < |batch| - 1
    ensures ReportOf(past, batch[..|batch| - 1], bounded, w, noProgress)
            == ReportOf(past, batch, bounded, w, noProgress)
  {
    hide Recall, KindOf, Occurrences;
    assert batch[..|batch| - 1][..w] == batch[..w];
  }

  /** The verdict reports the first of the calls with the most occurrences. */
  lemma {:induction false} VerdictNamesWorst(past: seq<Observation>, batch: seq<Observation>, asked: bool,
      bounded: bool)
    returns (w: nat)
    requires batch != []
    ensures Worst(past, batch, bounded, w)
    ensures var v := Judge(past, batch, asked, bounded); v == ReportOf(past, batch, bounded, w, v.noProgress)
  {
    hide KindOf, Occurrences, Recall;
    var n := |batch| - 1;
    if n == 0 {
      assert batch[..0] == [];
      w := 0;
    } else {
      hide Worst;
      var v := VerdictNamesWorst(past, batch[..n], asked, bounded);
      w := WorstStep(past, batch, bounded, v);
      if w != n { ReportOfInit(past, batch, bounded, v, Judge(past, batch, asked, bounded).noProgress); }
    }
  }

  // ---------------------------------------------------------------- bounded memory

  ghost predicate TurnsInOrder(log: seq<Observation>) {
    forall i, j | 0 <= i < j < |log| :: log[i].turn <= log[j].turn
  }

  function RecentCount(log: seq<Observation>, now: int): nat {
    if |log| == 0 then 0
    else RecentCount(log[..|log| - 1], now) + if log[|log| - 1].RecentAt(now) then 1 else 0
  }

  /** In an ordered log the recent observations are its end. */
  lemma {:induction false} RecentIsASuffix(log: seq<Observation>, now: int, k: nat)
    requires TurnsInOrder(log) && k < |log| && log[k].RecentAt(now)
    ensures RecentCount(log, now) >= |log| - k
  {
    var n := |log| - 1;
    if k < n {
      RecentIsASuffix(log[..n], now, k);
    }
  }

  lemma {:induction false} NothingPrior(past: seq<Observation>, c: Call, now: int)
    requires forall o | o in past :: !o.RecentAt(now)
    ensures Prior(past, c, now) == []
  {
    if |past| > 0 {
      NothingPrior(past[..|past| - 1], c, now);
    }
  }

  /** What has left the queue is too old to count, if the window holds no more calls than the queue. */
  lemma ForgottenIsStale(log: seq<Observation>, c: Call, now: int)
    requires TurnsInOrder(log) && RecentCount(log, now) <= HISTORY
    ensures Prior(LastN(log, HISTORY), c, now) == Prior(log, c, now)
  {
    hide Prior;
    if |log| > HISTORY {
      var k := |log| - HISTORY;
      forall i | 0 <= i < k ensures !log[i].RecentAt(now) {
        if log[i].RecentAt(now) { RecentIsASuffix(log, now, i); }
      }
      NothingPrior(log[..k], c, now);
      PriorAppend(log[..k], log[k..], c, now);
      assert log[..k] + log[k..] == log;
    }
  }

  lemma {:induction false} RecentCountAppend(a: seq<Observation>, b: seq<Observation>, now: int)
    ensures RecentCount(a, now) <= RecentCount(a + b, now) <= RecentCount(a, now) + |b|
  {
    if |b| == 0 {
      assert a + b == a;
    } else {
      RecentCountAppend(a, b[..|b| - 1], now);
      assert (a + b)[..|a + b| - 1] == a + b[..|b| - 1];
    }
  }

  ghost predicate OneTurn(batch: seq<Observation>, now: int) {
    forall o | o in batch :: o.turn == now
  }

  /** The 32-entry queue gives the verdict of the whole run's calls, whenever the window with
      all but the newest of them holds at most 32. */
  lemma {:induction false} BoundedRefinesFull(past: seq<Observation>, batch: seq<Observation>, now: int, asked: bool)
    requires TurnsInOrder(past + batch) && OneTurn(batch, now)
    requires |batch| > 0 ==> RecentCount(past + batch[..|batch| - 1], now) <= HISTORY
    ensures Judge(past, batch, asked, true) == Judge(past, batch, asked, false)
  {
    hide Prior, RecentCount, KindOf, Occurrences;
    if |batch| > 0 {
      var n := |batch| - 1;
      var init := batch[..n];
      assert past + init == (past + batch)[..|past| + n];
      if n > 0 {
        RecentCountAppend(past + init[..n - 1], [init[n - 1]], now);
        assert past + init[..n - 1] + [init[n - 1]] == past + init;
      }
      BoundedRefinesFull(past, init, now, asked);
      ForgottenIsStale(past + init, batch[n].call, now);
      SamePriorSameWeight(Judge(past, init, asked, true), LastN(past + init, HISTORY), past + init, batch[n]);
    }
  }

  lemma SamePriorSameWeight(best: Verdict, past: seq<Observation>, other: seq<Observation>, o: Observation)
    requires Prior(past, o.call, o.turn) == Prior(other, o.call, o.turn)
    ensures Weigh(best, past, o) == Weigh(best, other, o)
  {
  }

  /** Before the first recent observation of an ordered log nothing is recent. */
  lemma {:induction false} RecentCountBehind(log: seq<Observation>, now: int, k: nat)
    requires TurnsInOrder(log) && k < |log| && !log[k].RecentAt(now)
    ensures RecentCount(log, now) < |log| - k
  {
    var n := |log| - 1;
    if k < n {
      RecentCountBehind(log[..n], now, k);
    } else {
      NoneRecent(log, now);
    }
  }

  lemma {:induction false} NoneRecent(log: seq<Observation>, now: int)
    requires forall o | o in log :: !o.RecentAt(now)
    ensures RecentCount(log, now) == 0
  {
    if |log| > 0 { NoneRecent(log[..|log| - 1], now); }
  }

  /** With more recent calls than the queue holds, one that counts has left it. */
  lemma SomeForgottenCounts(log: seq<Observation>, now: int) returns (c: Call)
    requires TurnsInOrder(log) && RecentCount(log, now) > HISTORY
    ensures |Prior(LastN(log, HISTORY), c, now)| < |Prior(log, c, now)|
  {
    hide Prior;
    assert |log| > HISTORY by { RecentCountAppend([], log, now); assert [] + log == log; }
    var k := |log| - HISTORY - 1;
    if !log[k].RecentAt(now) {
      RecentCountBehind(log, now, k);
      assert false;
    }
    c := log[k].call;
    var front, queue := log[..k + 1], log[k + 1..];
    assert front + queue == log;
    PriorAppend(front, queue, c, now);
    PriorIsTheMatching(front, c, now, log[k]);
    assert front[k] in front;
  }

  /** The queue recalls what the whole log does, for every call, exactly if it has room for all recent calls. */
  lemma QueueRecallsAllIff(log: seq<Observation>, now: int)
    requires TurnsInOrder(log)
    ensures (forall c :: Prior(LastN(log, HISTORY), c, now) == Prior(log, c, now)) <==> RecentCount(log, now) <= HISTORY
  {
    hide Prior, RecentCount;
    if RecentCount(log, now) <= HISTORY {
      forall c ensures Prior(LastN(log, HISTORY), c, now) == Prior(log, c, now) { ForgottenIsStale(log, c, now); }
    } else {
      var c := SomeForgottenCounts(log, now);
    }
  }

  lemma JudgeOne(log: seq<Observation>, o: Observation, bounded: bool)
    ensures Judge(log, [o], true, bounded) == Weigh(Verdict(NoRepeat, "", 0, true), Recall(log, bounded), o)
  {
    hide Weigh, Recall;
    assert [o][..0] == [] && log + [] == log;
  }

  /** So the verdict on every next call is that of the whole log exactly then. */
  lemma QueueVerdictIff(log: seq<Observation>, now: int)
    requires TurnsInOrder(log)
    ensures (forall c, result ::
            var o := [Observation(c, result, now)]; Judge(log, o, true, true) == Judge(log, o, true, false))
       <==> RecentCount(log, now) <= HISTORY
  {
    hide Prior, RecentCount, Judge;
    if RecentCount(log, now) <= HISTORY {
      forall c, result
        ensures var o := [Observation(c, result, now)]; Judge(log, o, true, true) == Judge(log, o, true, false)
      {
        var o := Observation(c, result, now);
        JudgeOne(log, o, true);
        JudgeOne(log, o, false);
        ForgottenIsStale(log, c, now);
        SamePriorSameWeight(Verdict(NoRepeat, "", 0, true), LastN(log, HISTORY), log, o);
      }
    } else {
      var c := SomeForgottenCounts(log, now);
      var o := Observation(c, "", now);
      JudgeOne(log, o, true);
      JudgeOne(log, o, false);
      assert Judge(log, [o], true, true) != Judge(log, [o], true, false);
    }
  }

  /** The smallest such case: with a 33rd call in between, the first is forgotten and its repetition unnoticed. */
  lemma OneCallTooMany(c: Call, others: seq<Observation>, now: int, result: string)
    requires |others| == HISTORY && OneTurn(others, now) && forall o | o in others :: o.call != c
    ensures var past := [Observation(c, result, now)] + others;
            var again := [Observation(c, result, now)];
            && RecentCount(past, now) == HISTORY + 1
            && Judge(past, again, true, true) == Verdict(NoRepeat, c.name, 1, false)
            && Judge(past, again, true, false) == Verdict(IdenticalResult, c.name, 2, true)
  {
    hide RecentCount, Prior;
    var o := Observation(c, result, now);
    var past := [o] + others;
    AllRecent(past, now);
    NoneMatch(others, c, now);
    assert LastN(past, HISTORY) == others;
    PriorAppend([o], others, c, now);
    PriorIsTheMatching([o], c, now, o);
    SinglePrior(o);
    assert past + [o][..0] == past;
    assert [o][..0] == [];
  }

  lemma SinglePrior(o: Observation)
    ensures Prior([o], o.call, o.turn) == [o]
  {
    assert [o][..0] == [];
  }

  lemma {:induction false} AllRecent(log: seq<Observation>, now: int)
    requires OneTurn(log, now)
    ensures RecentCount(log, now) == |log|
  {
    if |log| > 0 {
      AllRecent(log[..|log| - 1], now);
    }
  }

  lemma {:induction false} NoneMatch(past: seq<Observation>, c: Call, now: int)
    requires forall o | o in past :: o.call != c
    ensures Prior(past, c, now) == []
  {
    if |past| > 0 {
      NoneMatch(past[..|past| - 1], c, now);
    }
  }
}
