/** The undo stack: peek at the newest record, run its reverse outside the lock, and drop exactly that
    record once the reverse has succeeded. */
module Undo {
  import Database
  import Mutation

  /** A record is known by identity: equal-looking records are different entries. */
  class MutationRecord {
    const reversible: bool
    const reverse: Database.Tool

    constructor (reversible: bool, reverse: Database.Tool)
      ensures this.reversible == reversible && this.reverse == reverse
    {
      this.reversible, this.reverse := reversible, reverse;
    }
  }

  /** A reverse call either returns, with whatever it made of the database, or raises and changes nothing. */
  datatype Reply<D> = Returned(db: D) | Raised

  /** The registry: the n-th reverse call on a given database, and the records that reach the stack
      while it runs. */
  datatype World<!D> = World(execute: (nat, Database.Tool, D) -> Reply<D>, late: nat -> seq<MutationRecord>)

  datatype Stack<D> = Stack(log: seq<MutationRecord>, db: D, calls: nat)

  datatype Tally<D> = Tally(stack: Stack<D>, undone: nat, errors: nat)

  // ---------------------------------------------------------------- dropping a record

  /** Removes the last entry that is this record; a record already gone is no error. */
  function Drop(log: seq<MutationRecord>, record: MutationRecord): (r: seq<MutationRecord>) {
    if |log| == 0 then log
    else
      var n := |log| - 1;
      if log[n] == record then log[..n] else Drop(log[..n], record) + [log[n]]
  }

  lemma {:induction false} DropAppended(log: seq<MutationRecord>, late: seq<MutationRecord>, record: MutationRecord)
    requires record !in late
    ensures Drop(log + late, record) == Drop(log, record) + late
  {
    if |late| == 0 {
      assert log + late == log && Drop(log, record) + late == Drop(log, record);
    } else {
      var n := |late| - 1;
      DropAppended(log, late[..n], record);
      assert (log + late)[..|log| + n] == log + late[..n];
      assert Drop(log, record) + late == Drop(log, record) + late[..n] + [late[n]];
    }
  }

  /** Records that arrived during the reverse call survive, in order, and nothing else is lost. */
  lemma LateRecordsSurvive(log: seq<MutationRecord>, late: seq<MutationRecord>)
    requires |log| > 0 && log[|log| - 1] !in late
    ensures Drop(log + late, log[|log| - 1]) == log[..|log| - 1] + late
  {
    DropAppended(log, late, log[|log| - 1]);
  }

  lemma {:induction false} DropIsOneEntry(log: seq<MutationRecord>, record: MutationRecord)
    ensures record !in log ==> Drop(log, record) == log
    ensures record in log ==> multiset(Drop(log, record)) == multiset(log) - multiset{record}
    ensures |Drop(log, record)| >= |log| - 1
  {
    if |log| > 0 {
      var n := |log| - 1;
      assert log == log[..n] + [log[n]];
      DropIsOneEntry(log[..n], record);
    }
  }

  // ---------------------------------------------------------------- the undo loop

  /** One turn of the loop: peek, and drop unless the reverse raised. */
  function UndoOnce<D>(w: World<D>, t: Tally<D>): Tally<D> {
    var log := t.stack.log;
    if |log| == 0 then t
    else
      var record := log[|log| - 1];
      if !record.reversible then t.(stack := t.stack.(log := Drop(log, record)), errors := t.errors + 1)
      else
        var calls := t.stack.calls;
        var reply := w.execute(calls, record.reverse, t.stack.db);
        var grown := log + w.late(calls);
        if reply.Raised? then Tally(Stack(grown, t.stack.db, calls + 1), t.undone, t.errors + 1)
        else Tally(Stack(Drop(grown, record), reply.db, calls + 1), t.undone + 1, t.errors)
  }

  function UndoTimes<D>(w: World<D>, s: Stack<D>, times: nat): Tally<D> {
    if times == 0 then Tally(s, 0, 0) else UndoOnce(w, UndoTimes(w, s, times - 1))
  }

  datatype Argument = NoCount | Count(n: int) | Garbage

  datatype Report = InvalidCount | Empty | Finished(undone: nat, errors: nat)

  /** How often `/undo` tries: at most once per entry, and not at all for a count below one. */
  function Attempts(a: Argument, pending: nat): nat {
    var count := if a.Count? then a.n else 1;
    var capped := if count < pending then count else pending;
    if capped < 0 then 0 else capped
  }

  class Session<D> {
    const world: World<D>
    var log: seq<MutationRecord>
    var db: D
    var calls: nat

    constructor (world: World<D>, db: D)
      ensures this.world == world && Snapshot() == Stack([], db, 0)
    {
      this.world, this.log, this.db, this.calls := world, [], db, 0;
    }

    function Snapshot(): Stack<D>
      reads this`log, this`db, this`calls
    {
      Stack(log, db, calls)
    }

    method DropRecord(record: MutationRecord)
      modifies this`log
      ensures log == Drop(old(log), record)
    {
      var start := log;
      var i := |log| - 1;
      assert start[..i + 1] == start && start[i + 1..] == [];
      while i >= 0
        invariant -1 <= i < |start| && log == start
        invariant Drop(start, record) == Drop(start[..i + 1], record) + start[i + 1..]
      {
        assert start[..i + 1][..i] == start[..i];
        if log[i] == record {
          log := log[..i] + log[i + 1..];
          return;
        }
        assert start[i..] == [start[i]] + start[i + 1..];
        i := i - 1;
      }
    }

    /** A mutation that took effect: recorded only if verified and reversible. */
    method NoteMutation(after: D, record: MutationRecord, verified: bool)
      modifies this`log, this`db
      ensures db == after
      ensures log == if verified && record.reversible then old(log) + [record] else old(log)
    {
      db := after;
      if verified && record.reversible { log := log + [record]; }
    }

    /** Peek, run the reverse, and drop the record unless the reverse raised. */
    method UndoNewest(undone: nat, errors: nat) returns (undone': nat, errors': nat)
      requires log != []
      modifies this`log, this`db, this`calls
      ensures Tally(Snapshot(), undone', errors') == UndoOnce(world, Tally(old(Snapshot()), undone, errors))
      ensures |log| >= |old(log)| - 1
    {
      hide Drop;
      undone', errors' := undone, errors;
      var record := log[|log| - 1];
      if !record.reversible {
        errors' := errors + 1;
        DropIsOneEntry(log, record);
        DropRecord(record);
        return;
      }
      var reply := world.execute(calls, record.reverse, db);
      log, calls := log + world.late(calls), calls + 1;
      if reply.Raised? {
        errors' := errors + 1;
        return;
      }
      db := reply.db;
      DropIsOneEntry(log, record);
      DropRecord(record);
      undone' := undone + 1;
    }

    method HandleUndo(argument: Argument) returns (report: Report)
      modifies this`log, this`db, this`calls
      ensures argument == Garbage ==> report == InvalidCount && Snapshot() == old(Snapshot())
      ensures argument != Garbage && old(log) == [] ==> report == Empty && Snapshot() == old(Snapshot())
      ensures argument != Garbage && old(log) != [] ==>
                var t := UndoTimes(world, old(Snapshot()), Attempts(argument, |old(log)|));
                report == Finished(t.undone, t.errors) && Snapshot() == t.stack
    {
      hide UndoOnce;
      if argument == Garbage { return InvalidCount; }
      if log == [] { return Empty; }
      ghost var start := Snapshot();
      var count := if argument.Count? then argument.n else 1;
      count := if count < |log| then count else |log|;
      var undone, errors := 0, 0;
      var i := 0;
      while i < count
        invariant 0 <= i && (i <= count || i == 0)
        invariant |log| >= |start.log| - i
        invariant Tally(Snapshot(), undone, errors) == UndoTimes(world, start, i)
      {
        undone, errors := UndoNewest(undone, errors);
        i := i + 1;
      }
      report := Finished(undone, errors);
    }
  }

  // ---------------------------------------------------------------- what undo guarantees

  /** Every try is accounted for, and announces itself only if its reverse call returned. */
  lemma {:induction false} EveryTryCounts<D>(w: World<D>, s: Stack<D>, times: nat)
    requires times <= |s.log|
    ensures var t := UndoTimes(w, s, times);
            t.undone + t.errors == times && |t.stack.log| >= |s.log| - times
  {
    if times > 0 {
      EveryTryCounts(w, s, times - 1);
      var before := UndoTimes(w, s, times - 1).stack;
      var record := before.log[|before.log| - 1];
      DropIsOneEntry(before.log, record);
      DropIsOneEntry(before.log + w.late(before.calls), record);
    }
  }

  ghost predicate NothingLate<D>(w: World<D>) {
    forall n :: w.late(n) == []
  }

  ghost predicate AllReversible(log: seq<MutationRecord>) {
    forall r | r in log :: r.reversible
  }

  function ReplyTo<D>(w: World<D>, n: nat, record: MutationRecord, after: D): Reply<D> {
    w.execute(n, record.reverse, after)
  }

  /** Whenever it is tried, the record leads from `after` back to `before`, or raises. */
  ghost predicate LeadsBack<D>(w: World<D>, record: MutationRecord, after: D, before: D) {
    forall n :: ReplyTo(w, n, record, after) == Raised || ReplyTo(w, n, record, after) == Returned(before)
  }

  ghost predicate NeverRaises<D>(w: World<D>, record: MutationRecord, after: D) {
    forall n :: ReplyTo(w, n, record, after) != Raised
  }

  ghost predicate AlwaysRaises<D>(w: World<D>, record: MutationRecord, after: D) {
    forall n :: ReplyTo(w, n, record, after) == Raised
  }

  /** `states[i]` is the database as it was at depth i, and each record leads back to the depth below. */
  ghost predicate Chain<D>(w: World<D>, log: seq<MutationRecord>, states: seq<D>) {
    && |states| == |log| + 1
    && forall i | 0 <= i < |log| :: LeadsBack(w, log[i], states[i + 1], states[i])
  }

  lemma DropTop(log: seq<MutationRecord>)
    requires |log| > 0
    ensures Drop(log, log[|log| - 1]) == log[..|log| - 1]
  {
  }

  /** Undo keeps the simulation: the database is the state at the stack's depth, the stack is a prefix at
      most `times` shorter, and the announced count is how much shorter it got. */
  lemma {:induction false} UndoSimulates<D>(w: World<D>, s: Stack<D>, states: seq<D>, times: nat)
    requires NothingLate(w) && AllReversible(s.log) && Chain(w, s.log, states) && s.db == states[|s.log|]
    requires times <= |s.log|
    ensures var t := UndoTimes(w, s, times);
            && t.undone + t.errors == times
            && t.stack.log == s.log[..|s.log| - t.undone]
            && t.stack.db == states[|t.stack.log|]
  {
    hide UndoOnce;
    if times > 0 {
      UndoSimulates(w, s, states, times - 1);
      OneUndoSimulates(w, s.log, states, UndoTimes(w, s, times - 1));
    }
  }

  lemma OneUndoSimulates<D>(w: World<D>, log: seq<MutationRecord>, states: seq<D>, t: Tally<D>)
    requires NothingLate(w) && AllReversible(log) && Chain(w, log, states)
    requires t.undone < |log| && t.stack.log == log[..|log| - t.undone] && t.stack.db == states[|t.stack.log|]
    ensures var u := UndoOnce(w, t);
            && t.undone <= u.undone <= |log|
            && u.undone + u.errors == t.undone + t.errors + 1
            && u.stack.log == log[..|log| - u.undone]
            && u.stack.db == states[|u.stack.log|]
  {
    var top := |t.stack.log| - 1;
    var record := log[top];
    assert t.stack.log[top] == record;
    assert t.stack.log + w.late(t.stack.calls) == t.stack.log;
    DropTop(t.stack.log);
    assert LeadsBack(w, record, states[top + 1], states[top]);
    assert ReplyTo(w, t.stack.calls, record, states[top + 1]) == w.execute(t.stack.calls, record.reverse, t.stack.db);
  }

  lemma ChainPrefix<D>(w: World<D>, log: seq<MutationRecord>, states: seq<D>, k: nat)
    requires Chain(w, log, states) && k <= |log|
    ensures Chain(w, log[..k], states[..k + 1])
  {
    forall i | 0 <= i < k ensures LeadsBack(w, log[..k][i], states[..k + 1][i + 1], states[..k + 1][i]) {
      assert LeadsBack(w, log[i], states[i + 1], states[i]);
    }
  }

  lemma ChainExtended<D>(w: World<D>, log: seq<MutationRecord>, states: seq<D>, record: MutationRecord, after: D)
    requires Chain(w, log, states) && LeadsBack(w, record, after, states[|log|])
    ensures Chain(w, log + [record], states + [after])
  {
  }

  /** A reverse that keeps raising keeps its record on top and the whole stack as it is. */
  lemma {:induction false} FailedRecordStays<D>(w: World<D>, s: Stack<D>, times: nat)
    requires NothingLate(w) && |s.log| > 0 && s.log[|s.log| - 1].reversible
    requires AlwaysRaises(w, s.log[|s.log| - 1], s.db)
    ensures var t := UndoTimes(w, s, times);
            t.stack.log == s.log && t.stack.db == s.db && t.undone == 0 && t.errors == times
  {
    if times > 0 {
      FailedRecordStays(w, s, times - 1);
      var calls := UndoTimes(w, s, times - 1).stack.calls;
      assert ReplyTo(w, calls, s.log[|s.log| - 1], s.db) == Raised;
    }
  }

  lemma OneUndoSucceeds<D>(w: World<D>, log: seq<MutationRecord>, t: Tally<D>)
    requires t.stack.log != [] && t.stack.log <= log && AllReversible(log)
    requires NeverRaises(w, log[|t.stack.log| - 1], t.stack.db)
    ensures UndoOnce(w, t).undone == t.undone + 1
  {
    var top := |t.stack.log| - 1;
    assert t.stack.log[top] == log[top];
    assert ReplyTo(w, t.stack.calls, log[top], t.stack.db) != Raised;
  }

  /** If no reverse raises, `times` records are undone. */
  lemma {:induction false} AllSucceed<D>(w: World<D>, s: Stack<D>, states: seq<D>, times: nat)
    requires NothingLate(w) && AllReversible(s.log) && Chain(w, s.log, states) && s.db == states[|s.log|]
    requires forall i | 0 <= i < |s.log| :: NeverRaises(w, s.log[i], states[i + 1])
    requires times <= |s.log|
    ensures UndoTimes(w, s, times).undone == times
    ensures UndoTimes(w, s, times).stack.db == states[|s.log| - times]
  {
    hide UndoOnce, AllReversible, LeadsBack, NeverRaises, NothingLate;
    UndoSimulates(w, s, states, times);
    if times > 0 {
      AllSucceed(w, s, states, times - 1);
      UndoSimulates(w, s, states, times - 1);
      var before := UndoTimes(w, s, times - 1);
      assert NeverRaises(w, s.log[|before.stack.log| - 1], states[|before.stack.log| - 1 + 1]);
      OneUndoSucceeds(w, s.log, before);
    }
  }

  // ---------------------------------------------------------------- whole runs

  datatype Event<D> = Mutated(after: D, record: MutationRecord) | Command(argument: Argument)

  function Step<D>(w: World<D>, s: Stack<D>, e: Event<D>): Stack<D> {
    match e
    case Mutated(after, record) => s.(log := s.log + [record], db := after)
    case Command(a) => if a == Garbage then s else UndoTimes(w, s, Attempts(a, |s.log|)).stack
  }

  function RunOf<D>(w: World<D>, db: D, events: seq<Event<D>>): Stack<D> {
    if |events| == 0 then Stack([], db, 0)
    else Step(w, RunOf(w, db, events[..|events| - 1]), events[|events| - 1])
  }

  /** Every mutation of the run was recorded with a reverse that leads back to where it started. */
  ghost predicate WellRecorded<D>(w: World<D>, db: D, events: seq<Event<D>>) {
    |events| == 0 || (
      var before, e := events[..|events| - 1], events[|events| - 1];
      && WellRecorded(w, db, before)
      && (e.Mutated? ==> e.record.reversible && LeadsBack(w, e.record, e.after, RunOf(w, db, before).db)))
  }

  ghost predicate Simulates<D>(w: World<D>, s: Stack<D>, states: seq<D>) {
    AllReversible(s.log) && Chain(w, s.log, states) && s.db == states[|s.log|]
  }

  /** In any run of recorded mutations and undo commands, the database is the state of the stack's depth:
      undoing everything that is left leads back to the very first state. */
  lemma {:induction false} RunSimulates<D>(w: World<D>, db: D, events: seq<Event<D>>) returns (states: seq<D>)
    requires NothingLate(w) && WellRecorded(w, db, events)
    ensures Simulates(w, RunOf(w, db, events), states) && states[0] == db
  {
    hide NothingLate, LeadsBack, UndoTimes;
    if |events| == 0 {
      states := [db];
    } else {
      var n := |events| - 1;
      var before := RunSimulates(w, db, events[..n]);
      states := StepSimulates(w, RunOf(w, db, events[..n]), before, events[n]);
    }
  }

  lemma StepSimulates<D>(w: World<D>, s: Stack<D>, before: seq<D>, e: Event<D>) returns (states: seq<D>)
    requires NothingLate(w) && Simulates(w, s, before)
    requires e.Mutated? ==> e.record.reversible && LeadsBack(w, e.record, e.after, s.db)
    ensures Simulates(w, Step(w, s, e), states) && states[0] == before[0]
  {
    hide NothingLate, LeadsBack, UndoTimes;
    match e
    case Mutated(after, record) =>
      ChainExtended(w, s.log, before, record, after);
      states := before + [after];
    case Command(a) =>
      states := before;
      if a != Garbage {
        var times := Attempts(a, |s.log|);
        UndoSimulates(w, s, before, times);
        var t := UndoTimes(w, s, times);
        ChainPrefix(w, s.log, before, |t.stack.log|);
        states := before[..|t.stack.log| + 1];
      }
  }

  // ---------------------------------------------------------------- with the real reverse records

  /** A registry that runs the modelled tools, or fails by raising. */
  ghost predicate RunsTools(w: World<Database.Db>, h: Database.Host) {
    forall n: nat, tool: Database.Tool, db: Database.Db ::
      var reply := w.execute(n, tool, db);
      reply == Raised || (!Database.Exec(h, db, tool).Raised?
          && reply == Returned(Database.Exec(h, db, tool).After(db)))
  }

  /** A faithful mutation's record leads back: the simulation applies to it. */
  lemma FaithfulLeadsBack(w: World<Database.Db>, h: Database.Host, db: Database.Db, tool: Database.Tool,
      r: MutationRecord)
    requires RunsTools(w, h) && Mutation.Recordable(h, db, tool, r.reverse) && Mutation.Faithful(h, db, tool)
    requires !(tool.ModifyStruct? && tool.structAction.Resize?)
    ensures LeadsBack(w, r, Database.Exec(h, db, tool).db, db)
  {
    hide Database.Exec, Mutation.Faithful, Mutation.Reverse, Mutation.Capture;
    Mutation.ReverseRecordsInvert(h, db, tool, r.reverse);
  }

  // ---------------------------------------------------------------- what the announced count counts

  /** The next try runs a reverse, and the call returns. */
  ghost predicate Returns(w: World<Database.Db>, t: Tally<Database.Db>) {
    && t.stack.log != [] && t.stack.log[|t.stack.log| - 1].reversible
    && w.execute(t.stack.calls, t.stack.log[|t.stack.log| - 1].reverse, t.stack.db).Returned?
  }

  ghost function NextOutcome(h: Database.Host, t: Tally<Database.Db>): Database.Outcome
    requires t.stack.log != []
  {
    Database.Exec(h, t.stack.db, t.stack.log[|t.stack.log| - 1].reverse)
  }

  ghost predicate TakesEffect(w: World<Database.Db>, h: Database.Host, t: Tally<Database.Db>) {
    Returns(w, t) && NextOutcome(h, t).Done?
  }

  /** The tool answers with a text that it did nothing, and does nothing. */
  ghost predicate IsRefused(w: World<Database.Db>, h: Database.Host, t: Tally<Database.Db>) {
    Returns(w, t) && NextOutcome(h, t).Refused?
  }

  /** How many of the first `times` tries took effect, and how many were refused. */
  ghost function Effects(w: World<Database.Db>, h: Database.Host, s: Stack<Database.Db>, times: nat): nat {
    if times == 0 then 0
    else Effects(w, h, s, times - 1) + if TakesEffect(w, h, UndoTimes(w, s, times - 1)) then 1 else 0
  }

  ghost function Refusals(w: World<Database.Db>, h: Database.Host, s: Stack<Database.Db>, times: nat): nat {
    if times == 0 then 0
    else Refusals(w, h, s, times - 1) + if IsRefused(w, h, UndoTimes(w, s, times - 1)) then 1 else 0
  }

  lemma {:induction false} CountIsEffectsAndRefusals(w: World<Database.Db>, h: Database.Host, s: Stack<Database.Db>,
      times: nat)
    requires RunsTools(w, h)
    ensures UndoTimes(w, s, times).undone == Effects(w, h, s, times) + Refusals(w, h, s, times)
  {
    hide RunsTools, IsRefused, TakesEffect, UndoOnce;
    if times > 0 {
      CountIsEffectsAndRefusals(w, h, s, times - 1);
      OneTryCounts(w, h, UndoTimes(w, s, times - 1));
    }
  }

  lemma {:induction false} NoRefusals(w: World<Database.Db>, h: Database.Host, s: Stack<Database.Db>, times: nat)
    ensures Refusals(w, h, s, times) == 0 <==> forall k: nat | k < times :: !IsRefused(w, h, UndoTimes(w, s, k))
  {
    hide IsRefused, UndoTimes;
    if times > 0 {
      NoRefusals(w, h, s, times - 1);
      var last: nat := times - 1;
      if Refusals(w, h, s, times) == 0 {
        forall k: nat | k < times ensures !IsRefused(w, h, UndoTimes(w, s, k)) { assert k == last || k < last; }
      } else if Refusals(w, h, s, last) == 0 {
        assert last < times && IsRefused(w, h, UndoTimes(w, s, last));
      }
    }
  }

  lemma OneTryCounts(w: World<Database.Db>, h: Database.Host, t: Tally<Database.Db>)
    requires RunsTools(w, h)
    ensures UndoOnce(w, t).undone
            == t.undone + (if TakesEffect(w, h, t) then 1 else 0) + (if IsRefused(w, h, t) then 1 else 0)
  {
    hide Database.Exec, Drop;
    if t.stack.log != [] {
      var reverse := t.stack.log[|t.stack.log| - 1].reverse;
      assert w.execute(t.stack.calls, reverse, t.stack.db) == Raised
             || !Database.Exec(h, t.stack.db, reverse).Raised?;
    }
  }

  /** The number of undone mutations that is announced is the number of reverses that took effect exactly if
      none that was tried was refused with a plain text. */
  lemma AnnouncedCountIsTrueIff(w: World<Database.Db>, h: Database.Host, s: Stack<Database.Db>, times: nat)
    requires RunsTools(w, h)
    ensures UndoTimes(w, s, times).undone == Effects(w, h, s, times)
       <==> forall k: nat | k < times :: !IsRefused(w, h, UndoTimes(w, s, k))
  {
    hide UndoTimes, IsRefused, RunsTools, Effects, Refusals;
    CountIsEffectsAndRefusals(w, h, s, times);
    NoRefusals(w, h, s, times);
  }

  /** A reverse that is refused with a plain text counts as undone: the record is gone, the success is
      announced, and the database has not moved. */
  lemma RefusalCountsAsUndone(w: World<Database.Db>, h: Database.Host, s: Stack<Database.Db>)
    requires s.log != [] && s.log[|s.log| - 1].reversible && w.late(s.calls) == []
    requires Database.Exec(h, s.db, s.log[|s.log| - 1].reverse).Refused?
    requires w.execute(s.calls, s.log[|s.log| - 1].reverse, s.db)
          == Returned(Database.Exec(h, s.db, s.log[|s.log| - 1].reverse).After(s.db))
    ensures UndoTimes(w, s, 1) == Tally(Stack(s.log[..|s.log| - 1], s.db, s.calls + 1), 1, 0)
  {
    hide Database.Exec;
    assert s.log + [] == s.log;
    DropTop(s.log);
    assert UndoTimes(w, s, 0) == Tally(s, 0, 0);
  }
}
