/** The control server's event log: a ring of numbered events per run, pollers that follow it, and the
    life of a run from prompt to finalisation. Each region under the state lock is one step. */
module EventLog {
  import opened Text

  const EVENT_RING_SIZE: nat := 4096
  const DRAIN_MAX_ITERATIONS: nat := 200

  datatype Kind = Error | TextDone | TextDelta | Cancelled | Other

  datatype Event = Event(kind: Kind, text: string)

  datatype Numbered = Numbered(seqNo: nat, event: Event)

  /** The fields of a run that clients can see. */
  datatype Run = Run(
    ring: seq<Numbered>, nextSeq: nat, finished: bool, errors: seq<string>, finalText: string, exitCode: int)

  const FRESH_RUN := Run([], 0, false, [], "", 0)

  // ---------------------------------------------------------------- one lock region each

  function Push(r: Run, e: Event): Run {
    r.(ring := LastN(r.ring + [Numbered(r.nextSeq, e)], EVENT_RING_SIZE), nextSeq := r.nextSeq + 1)
  }

  /** An error or a final text that is not empty is taken note of. */
  function Heed(r: Run, e: Event): Run {
    if e.text == "" then r
    else match e.kind
      case Error => r.(errors := r.errors + [e.text])
      case TextDone => r.(finalText := e.text)
      case _ => r
  }

  function HeedAll(r: Run, events: seq<Event>): Run {
    if |events| == 0 then r else Heed(HeedAll(r, events[..|events| - 1]), events[|events| - 1])
  }

  /** The last error or cancellation still in the ring decides the exit code. */
  function CodeOf(ring: seq<Numbered>): int {
    if |ring| == 0 then 0
    else match ring[|ring| - 1].event.kind
      case Error => 5
      case Cancelled => 6
      case _ => CodeOf(ring[..|ring| - 1])
  }

  function DeltasOf(ring: seq<Numbered>): string {
    if |ring| == 0 then ""
    else
      var e := ring[|ring| - 1].event;
      DeltasOf(ring[..|ring| - 1]) + if e.kind == TextDelta then e.text else ""
  }

  function Conclude(r: Run, drained: seq<Event>): Run {
    var heeded := HeedAll(r, drained);
    var code := if heeded.exitCode == 0 then CodeOf(heeded.ring) else heeded.exitCode;
    var text := if heeded.finalText == "" then Strip(DeltasOf(heeded.ring)) else heeded.finalText;
    heeded.(exitCode := code, finalText := text, finished := true)
  }

  class RunState {
    var ring: seq<Numbered>
    var nextSeq: nat
    var finished: bool
    var errors: seq<string>
    var finalText: string
    var exitCode: int

    constructor ()
      ensures Snapshot() == FRESH_RUN
    {
      ring, nextSeq, finished, errors, finalText, exitCode := [], 0, false, [], "", 0;
    }

    function Snapshot(): Run
      reads this
    {
      Run(ring, nextSeq, finished, errors, finalText, exitCode)
    }

    method Append(e: Event)
      modifies this`ring, this`nextSeq
      ensures Snapshot() == Push(old(Snapshot()), e)
    {
      ring := LastN(ring + [Numbered(nextSeq, e)], EVENT_RING_SIZE);
      nextSeq := nextSeq + 1;
    }

    method DrainOne(e: Event)
      modifies this
      ensures Snapshot() == Heed(Push(old(Snapshot()), e), e)
    {
      Append(e);
      TakeNote(e);
    }

    method TakeNote(e: Event)
      modifies this`errors, this`finalText
      ensures Snapshot() == Heed(old(Snapshot()), e)
    {
      if e.text != "" {
        if e.kind == Error { errors := errors + [e.text]; }
        else if e.kind == TextDone { finalText := e.text; }
      }
    }

    method DeriveExitCode()
      requires exitCode == 0
      modifies this`exitCode
      ensures exitCode == CodeOf(ring)
    {
      var i := 0;
      while i < |ring|
        invariant i <= |ring| && exitCode == CodeOf(ring[..i])
      {
        assert ring[..i + 1][..i] == ring[..i];
        if ring[i].event.kind == Error { exitCode := 5; }
        else if ring[i].event.kind == Cancelled { exitCode := 6; }
        i := i + 1;
      }
      assert ring[..i] == ring;
    }

    method JoinDeltas() returns (deltas: string)
      ensures deltas == DeltasOf(ring)
    {
      deltas := "";
      var i := 0;
      while i < |ring|
        invariant i <= |ring| && deltas == DeltasOf(ring[..i])
      {
        assert ring[..i + 1][..i] == ring[..i];
        if ring[i].event.kind == TextDelta && ring[i].event.text != "" { deltas := deltas + ring[i].event.text; }
        i := i + 1;
      }
      assert ring[..i] == ring;
    }

    method Finalise(drained: seq<Event>)
      modifies this
      ensures Snapshot() == Conclude(old(Snapshot()), drained)
    {
      hide Heed, CodeOf, DeltasOf, Strip;
      ghost var start := Snapshot();
      var i := 0;
      while i < |drained|
        invariant i <= |drained| && Snapshot() == HeedAll(start, drained[..i])
      {
        assert drained[..i + 1][..i] == drained[..i];
        TakeNote(drained[i]);
        i := i + 1;
      }
      assert drained[..i] == drained;
      if exitCode == 0 { DeriveExitCode(); }
      if finalText == "" {
        var deltas := JoinDeltas();
        finalText := Strip(deltas);
      }
      finished := true;
    }

    /** The events a poll from `index` receives, and the index to poll from next. */
    method Poll(index: nat) returns (events: seq<Numbered>, next: nat)
      ensures events == From(ring, index) && next == nextSeq
    {
      events := [];
      var i := 0;
      while i < |ring|
        invariant i <= |ring| && events == From(ring[..i], index)
      {
        assert ring[..i + 1][..i] == ring[..i];
        if ring[i].seqNo >= index { events := events + [ring[i]]; }
        i := i + 1;
      }
      assert ring[..i] == ring;
      next := nextSeq;
    }
  }

  function From(ring: seq<Numbered>, index: nat): seq<Numbered> {
    if |ring| == 0 then []
    else
      var before, last := From(ring[..|ring| - 1], index), ring[|ring| - 1];
      if last.seqNo >= index then before + [last] else before
  }

  // ---------------------------------------------------------------- the ring and the whole log

  function NumberFrom(log: seq<Event>, start: nat): (r: seq<Numbered>)
    ensures |r| == |log|
  {
    seq(|log|, i requires 0 <= i < |log| => Numbered(start + i, log[i]))
  }

  /** The ring holds exactly the numbers from nextSeq - |ring| up, with the events of the log. */
  predicate HoldsEnd(r: Run, log: seq<Event>) {
    r.nextSeq == |log| && r.ring == LastN(NumberFrom(log, 0), EVENT_RING_SIZE)
  }

  lemma PushHoldsEnd(r: Run, log: seq<Event>, e: Event)
    requires HoldsEnd(r, log)
    ensures HoldsEnd(Push(r, e), log + [e])
  {
    hide LastN;
    assert NumberFrom(log + [e], 0) == NumberFrom(log, 0) + [Numbered(|log|, e)];
    LastNAppend(NumberFrom(log, 0), [Numbered(|log|, e)], EVENT_RING_SIZE);
  }

  lemma HeedHoldsEnd(r: Run, log: seq<Event>, e: Event)
    requires HoldsEnd(r, log)
    ensures HoldsEnd(Heed(r, e), log)
  {
  }

  lemma {:induction false} FromNumbered(log: seq<Event>, start: nat, index: nat)
    ensures var skip := if index <= start then 0 else if index - start < |log| then index - start else |log|;
            From(NumberFrom(log, start), index) == NumberFrom(log, start)[skip..]
  {
    var ring := NumberFrom(log, start);
    if |log| > 0 {
      var n := |log| - 1;
      assert ring[..n] == NumberFrom(log[..n], start);
      FromNumbered(log[..n], start, index);
      assert ring == ring[..n] + [ring[n]];
    }
  }

  /** A poll receives the log from `index` on, less what has left the ring. */
  lemma PollReceives(r: Run, log: seq<Event>, index: nat)
    requires HoldsEnd(r, log) && index <= |log|
    ensures var lost := |log| - |r.ring|;
            From(r.ring, index) == NumberFrom(log, 0)[if index < lost then lost else index..]
  {
    hide From;
    var lost := |log| - |r.ring|;
    NumberSuffix(log, lost);
    FromNumbered(log[lost..], lost, index);
    var skip := if index <= lost then 0 else index - lost;
    assert NumberFrom(log, 0)[lost..][skip..] == NumberFrom(log, 0)[lost + skip..];
  }

  lemma NumberSuffix(log: seq<Event>, k: nat)
    requires k <= |log|
    ensures NumberFrom(log[k..], k) == NumberFrom(log, 0)[k..]
  {
  }

  predicate Within(log: seq<Event>, lengths: seq<nat>) {
    forall i | 0 <= i < |lengths| :: lengths[i] <= |log|
  }

  /** What a follower has who polls whenever the log has one of the given lengths, from index 0 on. */
  function Followed(log: seq<Event>, lengths: seq<nat>): (received: seq<Numbered>)
    requires Within(log, lengths)
  {
    if |lengths| == 0 then []
    else
      var before := lengths[..|lengths| - 1];
      var index := if |before| == 0 then 0 else before[|before| - 1];
      Followed(log, before) + PollAt(log[..lengths[|lengths| - 1]], index)
  }

  /** The reply to a poll of a run with this log. */
  function PollAt(log: seq<Event>, index: nat): seq<Numbered> {
    From(LastN(NumberFrom(log, 0), EVENT_RING_SIZE), index)
  }

  ghost predicate Rising(lengths: seq<nat>) {
    forall i, j | 0 <= i < j < |lengths| :: lengths[i] <= lengths[j]
  }

  /** At most a ringful of events is appended from one poll to the next. */
  predicate KeepsUp(lengths: seq<nat>) {
    |lengths| == 0 || (
      var before := lengths[..|lengths| - 1];
      var index := if |before| == 0 then 0 else before[|before| - 1];
      KeepsUp(before) && lengths[|lengths| - 1] <= index + EVENT_RING_SIZE)
  }

  lemma PollAtLength(log: seq<Event>, index: nat)
    requires index <= |log|
    ensures |log| <= index + EVENT_RING_SIZE ==> PollAt(log, index) == NumberFrom(log, 0)[index..]
    ensures |log| > index + EVENT_RING_SIZE ==> |PollAt(log, index)| == EVENT_RING_SIZE
  {
    PollReceives(Run(LastN(NumberFrom(log, 0), EVENT_RING_SIZE), |log|, false, [], "", 0), log, index);
  }

  lemma {:induction false} FollowedAtMost(log: seq<Event>, lengths: seq<nat>)
    requires Within(log, lengths) && Rising(lengths) && |lengths| > 0
    ensures |Followed(log, lengths)| <= lengths[|lengths| - 1]
  {
    hide PollAt;
    var n := |lengths| - 1;
    var index := if n == 0 then 0 else lengths[n - 1];
    if n > 0 { FollowedAtMost(log, lengths[..n]); }
    PollAtLength(log[..lengths[n]], index);
  }

  /** A follower has every event once, in order and numbered, exactly if it never falls more than a
      ringful behind. */
  lemma {:induction false} FollowerSeesAllOnce(log: seq<Event>, lengths: seq<nat>)
    requires Within(log, lengths) && Rising(lengths) && |lengths| > 0
    ensures Followed(log, lengths) == NumberFrom(log[..lengths[|lengths| - 1]], 0) <==> KeepsUp(lengths)
  {
    hide PollAt, NumberFrom;
    var n := |lengths| - 1;
    var before, last := lengths[..n], lengths[n];
    var index := if n == 0 then 0 else lengths[n - 1];
    assert n > 0 ==> before[n - 1] == index;
    PollAtLength(log[..last], index);
    NumberPrefix(log[..last], index);
    if n > 0 {
      FollowedAtMost(log, before);
      FollowerSeesAllOnce(log, before);
      assert log[..last][..index] == log[..index];
    } else {
      assert before == [];
      assert NumberFrom(log[..last][..0], 0) == [];
    }
    var got := PollAt(log[..last], index);
    if last <= index + EVENT_RING_SIZE {
      SameTail(Followed(log, before), got, NumberFrom(log[..last], 0), index);
    }
  }

  lemma NumberPrefix(log: seq<Event>, k: nat)
    requires k <= |log|
    ensures NumberFrom(log, 0)[..k] == NumberFrom(log[..k], 0)
  {
  }

  lemma SameTail<T>(head: seq<T>, tail: seq<T>, whole: seq<T>, k: nat)
    requires k <= |whole| && tail == whole[k..]
    ensures head + tail == whole <==> head == whole[..k]
  {
    if head + tail == whole {
      assert |head| == k;
      assert (head + tail)[..k] == head;
    }
    assert whole[..k] + whole[k..] == whole;
  }

  // ---------------------------------------------------------------- what the exit code remembers

  predicate Decisive(e: Event) {
    e.kind == Error || e.kind == Cancelled
  }

  /** The exit code is that of the last decisive event still in the ring. */
  lemma {:induction false} CodeIsOfLastDecisive(ring: seq<Numbered>)
    ensures CodeOf(ring) == 0 <==> forall i | 0 <= i < |ring| :: !Decisive(ring[i].event)
    ensures CodeOf(ring) != 0 ==>
              exists i | 0 <= i < |ring| ::
                && CodeOf(ring) == (if ring[i].event.kind == Error then 5 else 6)
                && Decisive(ring[i].event) && forall j | i < j < |ring| :: !Decisive(ring[j].event)
  {
    if |ring| > 0 {
      var n := |ring| - 1;
      CodeIsOfLastDecisive(ring[..n]);
      if Decisive(ring[n].event) { assert CodeOf(ring) != 0; }
    }
  }

  /** A run ends with exit code 0 exactly if its last 4096 events hold no error and no cancellation:
      an earlier error no longer counts, though its message is still listed. */
  lemma SuccessMeans(r: Run, log: seq<Event>)
    requires HoldsEnd(r, log)
    ensures CodeOf(r.ring) == 0 <==> forall i | 0 <= i < |log| && |log| <= i + EVENT_RING_SIZE :: !Decisive(log[i])
  {
    CodeIsOfLastDecisive(r.ring);
    var lost := |log| - |r.ring|;
    forall k | 0 <= k < |r.ring| ensures r.ring[k].event == log[lost + k] { }
    forall i | lost <= i < |log| ensures r.ring[i - lost].event == log[i] { }
  }
}
