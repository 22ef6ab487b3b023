/** The streaming loop guard: bounded state that stays equal to a function of
    everything streamed so far, and one latched trigger. */
module LoopGuard {
  import opened Wrappers
  import opened Text
  import opened ThinkTags
  import opened Routes
  import opened Segments
  import opened Titles
  import opened Detectors
  import opened GuardPolicy

  /** Python's `deque(maxlen=n)`: the last `n` items appended. */
  function Push(ring: seq<string>, s: string): seq<string> {
    LastN(ring + [s], SEGMENT_CAPACITY)
  }

  /** Length of the longest segment ever emitted, starting from `best`. */
  function Longest(best: nat, segments: seq<string>): nat
    decreases |segments|
  {
    if |segments| == 0 then best
    else Longest(if |segments[0]| > best then |segments[0]| else best, segments[1..])
  }

  lemma {:induction false} LongestAppend(best: nat, a: seq<string>, b: seq<string>)
    ensures Longest(best, a + b) == Longest(Longest(best, a), b)
    decreases |a|
  {
    if |a| == 0 {
      assert a + b == b;
    } else {
      LongestAppend(if |a[0]| > best then |a[0]| else best, a[1..], b);
      CutInFirst(a, b, 1);
    }
  }

  /** A kept trigger was true of a history that the present one extends, and no budget is
      left exceeded without a trigger. */
  ghost predicate Latched(c: Config, t: Trigger, toolStarted: bool, at: History, v: View, h: History) {
    && Holds(c, t, at)
    && (t != NoTrigger ==> at.cut <= h.cut && at.visible <= h.visible)
    && (t == NoTrigger && !toolStarted ==>
      && (c.profile.ceiling ==> Tokens(v.bytes) < c.ceiling)
      && (c.profile.visibleCeiling ==> Tokens(v.visibleBytes) < c.visibleCeiling)
      && (c.profile.headerRunaway ==> v.headers < HEADER_THRESHOLD))
  }

  lemma LatchedGrows(c: Config, t: Trigger, toolStarted: bool, at: History, v: View, h: History, v': View, h': History)
    requires Latched(c, t, toolStarted, at, v, h)
    requires t != NoTrigger || toolStarted
    requires h.cut <= h'.cut && h.visible <= h'.visible
    ensures Latched(c, t, toolStarted, at, v', h')
  {
    hide Holds;
    if t != NoTrigger {
      PrefixTrans(at.cut, h.cut, h'.cut);
      PrefixTrans(at.visible, h.visible, h'.visible);
    }
  }

  lemma PrefixTrans<T>(a: seq<T>, b: seq<T>, c: seq<T>)
    requires a <= b <= c
    ensures a <= c
  {
  }

  class StreamLoopGuard {
    const config: Config

    // What has been counted and cut so far.
    var bytes: nat
    var visibleInk: nat
    var visibleBytes: nat
    var toolStarted: bool
    var buffer: string
    var segments: seq<string>
    var totalSegments: nat
    var maxSegmentChars: nat
    var trigger: Trigger
    // What the throttled and counting detectors need.
    var tail: string
    var headerLines: nat
    var visibleTail: string
    var growth: Growth
    // Where the text is between tags, and what of it waits.
    var thinkMode: bool
    var thinkPending: string

    // Everything each channel received, the reasoning also delta by delta, and the history at which
    // the trigger latched.
    ghost var cut: seq<string>
    ghost var reasoning: string
    ghost var visible: string
    ghost var latchedAt: History

    ghost function Seen(): History
      reads this`cut, this`visible
    {
      History(cut, visible)
    }

    /** The channels as the spans and deltas so far have filled them. */
    ghost function Now(): Channels
      reads this`reasoning, this`visible, this`thinkMode, this`thinkPending
    {
      Channels(reasoning, visible, thinkMode, thinkPending)
    }

    function Retained(): View
      reads this`bytes, this`visibleInk, this`visibleBytes, this`headerLines, this`segments, this`totalSegments,
            this`tail, this`visibleTail
    {
      View(bytes, visibleBytes, visibleInk, headerLines, segments, totalSegments, tail, visibleTail)
    }

    ghost predicate Streams()
      reads this`bytes, this`visibleInk, this`visibleBytes, this`headerLines, this`segments, this`totalSegments,
            this`tail, this`visibleTail
      reads this`cut, this`reasoning, this`visible, this`buffer, this`maxSegmentChars
    {
      && reasoning == Concat(cut)
      && Sees(config, Retained(), Seen())
      && buffer == Pending(reasoning)
      && maxSegmentChars == Longest(0, HistorySegments(config, Seen()))
    }

    ghost predicate Valid()
      reads this`bytes, this`visibleInk, this`visibleBytes, this`headerLines, this`segments, this`totalSegments,
            this`tail, this`visibleTail
      reads this`cut, this`reasoning, this`visible, this`buffer, this`maxSegmentChars
      reads this`trigger, this`toolStarted, this`latchedAt
    {
      && config.ceiling > 0 && config.visibleCeiling > 0
      && Streams()
      && Latched(config, trigger, toolStarted, latchedAt, Retained(), Seen())
    }

    constructor (config: Config)
      requires config.ceiling > 0 && config.visibleCeiling > 0
      ensures Valid()
      ensures this.config == config
      ensures cut == [] && reasoning == "" && visible == "" && trigger == NoTrigger && !toolStarted
      ensures !thinkMode && thinkPending == "" && growth == Growth(0, 0, 0) && headerLines == 0
    {
      this.config := config;
      bytes, visibleInk, visibleBytes, toolStarted := 0, 0, 0, false;
      buffer, segments, totalSegments, maxSegmentChars := "", [], 0, 0;
      trigger, tail, headerLines, visibleTail := NoTrigger, "", 0, "";
      growth, thinkMode, thinkPending := Growth(0, 0, 0), false, "";
      cut, reasoning, visible, latchedAt := [], "", "", History([], "");
      new;
      OpenLine("");
      NoTitles(config);
    }

    /** The guard has an abort to report. */
    predicate ShouldAbort()
      reads this`trigger
    {
      trigger != NoTrigger
    }

    // -------------------------------------------------------------- segments

    method IngestLine(line: string)
      modifies this`segments, this`totalSegments, this`maxSegmentChars, this`headerLines
      ensures var out := Normalized(config.ops.normalize, Chunks(line));
              && segments == PushAll(old(segments), out)
              && totalSegments == old(totalSegments) + |out|
              && maxSegmentChars == Longest(old(maxSegmentChars), out)
      ensures headerLines == old(headerLines) + HeadersIn(config, [line])
    {
      hide HeadersIn, HeaderCount, SegmentsOf, Lines;
      HeadersOfOne(config, line);
      if line == "" {
        NormalizedOfNothing(config.ops.normalize);
        PushAllNothing(segments);
        return;
      }
      if config.profile.headerRunaway && config.ops.isHeader(line) {
        headerLines := headerLines + 1;
      }
      ghost var done: seq<string> := [];
      var rest := line;
      PushAllNothing(segments);
      while rest != ""
        invariant headerLines == old(headerLines) + HeadersIn(config, [line])
        invariant Chunks(line) == done + Chunks(rest)
        invariant var out := Normalized(config.ops.normalize, done);
                  && segments == PushAll(old(segments), out)
                  && totalSegments == old(totalSegments) + |out|
                  && maxSegmentChars == Longest(old(maxSegmentChars), out)
        decreases |rest|
      {
        hide PushAll, Normalized, Longest, Push;
        var n := if |rest| < MAX_SEGMENT_CHARS then |rest| else MAX_SEGMENT_CHARS;
        var chunk := rest[..n];
        ChunksStep(rest, n, done);
        var normalized := config.ops.normalize(chunk);
        NormalizedSnoc(config.ops.normalize, done, chunk);
        if normalized != "" {
          PushAllSnoc(old(segments), Normalized(config.ops.normalize, done), normalized);
          LongestSnoc(old(maxSegmentChars), Normalized(config.ops.normalize, done), normalized);
          segments := Push(segments, normalized);
          totalSegments := totalSegments + 1;
          if |normalized| > maxSegmentChars { maxSegmentChars := |normalized|; }
        }
        rest := rest[n..];
        done := done + [chunk];
      }
      assert done + [] == done;
    }

    /** Drain finished lines, then full pieces of the open line. */
    method FlushBuffer()
      modifies this`buffer, this`segments, this`totalSegments, this`maxSegmentChars, this`headerLines
      ensures var out := SegmentsOf(config.ops.normalize, old(buffer));
              && segments == PushAll(old(segments), out)
              && totalSegments == old(totalSegments) + |out|
              && maxSegmentChars == Longest(old(maxSegmentChars), out)
      ensures buffer == Pending(old(buffer))
      ensures headerLines == old(headerLines) + HeadersFlushed(config, old(buffer))
    {
      hide PushAll, Longest, SegmentsOf, Normalized, Pending, HeadersFlushed, HeadersIn, RawSegments, Lines;
      ghost var out: seq<string> := [];
      PushAllNothing(segments);
      LongestNothing(maxSegmentChars);
      AppendNothing(SegmentsOf(config.ops.normalize, buffer));
      var i := NewlineAt(buffer);
      while i < |buffer|
        invariant i == NewlineAt(buffer) <= |buffer|
        invariant segments == PushAll(old(segments), out)
        invariant totalSegments == old(totalSegments) + |out|
        invariant maxSegmentChars == Longest(old(maxSegmentChars), out)
        invariant SegmentsOf(config.ops.normalize, old(buffer)) == out + SegmentsOf(config.ops.normalize, buffer)
        invariant Pending(old(buffer)) == Pending(buffer)
        invariant headerLines + HeadersFlushed(config, buffer) == old(headerLines) + HeadersFlushed(config, old(buffer))
        decreases |buffer|
      {
        var line := buffer[..i];
        FlushLineSegments(config, buffer, i, out);
        ghost var more := Normalized(config.ops.normalize, Chunks(line));
        PushAllAppend(old(segments), out, more);
        LongestAppend(old(maxSegmentChars), out, more);
        buffer := buffer[i + 1..];
        IngestLine(line);
        out := out + more;
        i := NewlineAt(buffer);
      }
      while |buffer| >= MAX_SEGMENT_CHARS
        invariant '\n' !in buffer
        invariant segments == PushAll(old(segments), out)
        invariant totalSegments == old(totalSegments) + |out|
        invariant maxSegmentChars == Longest(old(maxSegmentChars), out)
        invariant SegmentsOf(config.ops.normalize, old(buffer)) == out + SegmentsOf(config.ops.normalize, buffer)
        invariant Pending(old(buffer)) == Pending(buffer)
        invariant headerLines + HeadersFlushed(config, buffer) == old(headerLines) + HeadersFlushed(config, old(buffer))
        decreases |buffer|
      {
        var chunk := buffer[..MAX_SEGMENT_CHARS];
        FlushPieceSegments(config, buffer, out);
        ghost var more := Normalized(config.ops.normalize, Chunks(chunk));
        PushAllAppend(old(segments), out, more);
        LongestAppend(old(maxSegmentChars), out, more);
        buffer := buffer[MAX_SEGMENT_CHARS..];
        IngestLine(chunk);
        out := out + more;
      }
      ShortOpenLine(config, buffer);
      AppendNothing(out);
    }

    // -------------------------------------------------------------- decision

    method VisibleRepeated() returns (fired: bool)
      modifies this`growth
      ensures fired == (|visibleTail| >= TAIL_WINDOW && old(growth).visibleTail >= REPEAT_CHARS
                        && RepeatsVisibly(visibleTail))
      ensures growth == if |visibleTail| >= TAIL_WINDOW && old(growth).visibleTail >= REPEAT_CHARS
                        then old(growth).(visibleTail := 0) else old(growth)
    {
      if |visibleTail| < TAIL_WINDOW || growth.visibleTail < REPEAT_CHARS { return false; }
      growth := growth.(visibleTail := 0);
      var block := visibleTail[|visibleTail| - REPEAT_CHARS..];
      return Count(visibleTail, block) >= VISIBLE_MIN_OCCURRENCES;
    }

    method VisibleTrigramSimilar() returns (fired: bool)
      modifies this`growth
      ensures fired == (old(growth).visibleTrigram >= VISIBLE_TRIGRAM_MIN_GROWTH
                        && NearDuplicates(VisibleWindow(config.ops, visibleTail), 9, 10))
      ensures growth == if old(growth).visibleTrigram >= VISIBLE_TRIGRAM_MIN_GROWTH
                        then old(growth).(visibleTrigram := 0) else old(growth)
    {
      if growth.visibleTrigram < VISIBLE_TRIGRAM_MIN_GROWTH { return false; }
      growth := growth.(visibleTrigram := 0);
      var window := VisibleWindow(config.ops, visibleTail);
      if |window| < TRIGRAM_WINDOW { return false; }
      return NearDuplicates(window, 9, 10);
    }

    method VerbatimRepeated() returns (fired: bool)
      modifies this`growth
      ensures fired == (|tail| >= TAIL_WINDOW && old(growth).tail >= REPEAT_CHARS && RepeatsVerbatim(tail))
      ensures growth == if |tail| >= TAIL_WINDOW && old(growth).tail >= REPEAT_CHARS
                        then old(growth).(tail := 0) else old(growth)
    {
      if |tail| < TAIL_WINDOW || growth.tail < REPEAT_CHARS { return false; }
      growth := growth.(tail := 0);
      var block := tail[|tail| - REPEAT_CHARS..];
      return Contains(tail[..|tail| - REPEAT_CHARS], block);
    }

    /** The detectors on the segment ring. */
    method EvaluateSegments() returns (fired: Trigger)
      ensures fired == DecideSegments(config, Retained())
    {
      hide NearDuplicates, NarratesInCircles, Stalled;
      if totalSegments < REPETITION_EVAL_THRESHOLD { return NoTrigger; }
      if config.profile.progressStall {
        var stalled := ProgressStalled(config.ops.hasAnchor, LastN(segments, STALL_WINDOW));
        if stalled { return ProgressStall; }
      }
      if config.profile.trigramJaccard && NearDuplicates(LastN(segments, TRIGRAM_WINDOW), 4, 5) {
        return TrigramJaccard;
      }
      if visibleInk >= VISIBLE_DISABLE_THRESHOLD { return NoTrigger; }
      if !config.profile.metaIntent { return NoTrigger; }
      if NarratesInCircles(config.toolNames, LastN(segments, RepetitionWindow(totalSegments))) {
        return RepetitionMetaIntent;
      }
      return NoTrigger;
    }

    /** The throttled detectors on the two tails. */
    method EvaluateTails() returns (fired: Trigger)
      modifies this`growth
      ensures (fired, growth) == DecideTails(config, Retained(), old(growth))
    {
      hide RepeatsVisibly, RepeatsVerbatim, NearDuplicates, VisibleWindow;
      var hit := false;
      if config.profile.visibleVerbatim { hit := VisibleRepeated(); }
      if hit { return VisibleVerbatimTail; }
      if config.profile.visibleTrigram { hit := VisibleTrigramSimilar(); }
      if hit { return VisibleTrigramJaccard; }
      if config.profile.verbatimTail { hit := VerbatimRepeated(); }
      if hit { return VerbatimTail; }
      return NoTrigger;
    }

    /** Re-evaluate, and keep the first trigger that fires. */
    method MaybeLatchTrigger()
      modifies this`trigger, this`growth
      ensures (trigger, growth) == Latch(old(trigger), toolStarted, config, Retained(), old(growth))
    {
      hide DecideSegments, DecideTails;
      if trigger != NoTrigger { return; }
      if toolStarted { return; }
      if config.profile.ceiling && Tokens(bytes) >= config.ceiling { trigger := ReasoningCeiling; return; }
      if config.profile.visibleCeiling && Tokens(visibleBytes) >= config.visibleCeiling {
        trigger := VisibleCeiling;
        return;
      }
      if config.profile.headerRunaway && headerLines >= HEADER_THRESHOLD { trigger := HeaderRunaway; return; }
      trigger := EvaluateTails();
      if trigger != NoTrigger { return; }
      trigger := EvaluateSegments();
    }

    /** Latching restores the invariant after the view has grown with the history. */
    method LatchAfterGrowth(ghost before: View, ghost was: History)
      requires config.ceiling > 0 && config.visibleCeiling > 0 && Streams()
      requires Latched(config, trigger, toolStarted, latchedAt, before, was)
      requires was.cut <= cut && was.visible <= visible
      modifies this`trigger, this`growth, this`latchedAt
      ensures Valid()
      ensures (trigger, growth) == Latch(old(trigger), toolStarted, config, Retained(), old(growth))
    {
      hide Decide, Holds, Sees, SegmentsOf, Pending, Longest;
      ghost var undecided := trigger == NoTrigger && !toolStarted;
      ghost var g := growth;
      if undecided {
        DecideIsTrue(config, Retained(), growth, Seen());
      } else {
        LatchedGrows(config, trigger, toolStarted, latchedAt, before, was, Retained(), Seen());
      }
      MaybeLatchTrigger();
      if undecided {
        if trigger == NoTrigger { NothingLatchedWithinBudget(config, Retained(), g); }
        latchedAt := Seen();
      }
    }

    // -------------------------------------------------------------- channels

    /** Count, cut and keep the tail of new reasoning text. */
    method RetainReasoning(text: string)
      requires Streams()
      modifies this`bytes, this`buffer, this`segments, this`totalSegments, this`maxSegmentChars, this`headerLines,
               this`tail, this`growth, this`cut, this`reasoning
      ensures Streams()
      ensures reasoning == old(reasoning) + text && cut == old(cut) + [text]
      ensures growth == GrownReasoning(config, old(growth), |text|)
    {
      hide Sees, SegmentsOf, Pending, Longest, PushAll, HeadersFlushed, Concat, HistorySegments;
      ghost var before, was, best, pending := Retained(), Seen(), maxSegmentChars, buffer;
      CountAndCut(text);
      KeepTail(text);
      reasoning, cut := reasoning + text, cut + [text];
      ReasoningGrows(config, before, was, pending, best, text, Retained(), Seen());
    }

    method CountAndCut(text: string)
      modifies this`bytes, this`buffer, this`segments, this`totalSegments, this`maxSegmentChars, this`headerLines
      ensures var out := SegmentsOf(config.ops.normalize, old(buffer) + text);
              && bytes == old(bytes) + Utf8Bytes(text)
              && segments == PushAll(old(segments), out)
              && totalSegments == old(totalSegments) + |out|
              && maxSegmentChars == Longest(old(maxSegmentChars), out)
      ensures buffer == Pending(old(buffer) + text)
      ensures headerLines == old(headerLines) + HeadersFlushed(config, old(buffer) + text)
    {
      hide SegmentsOf, Pending, Longest, PushAll, HeadersFlushed;
      bytes := bytes + Utf8Bytes(text);
      buffer := buffer + text;
      FlushBuffer();
    }

    method KeepTail(text: string)
      modifies this`tail, this`growth
      ensures tail == if config.profile.verbatimTail then LastN(old(tail) + text, TAIL_WINDOW) else old(tail)
      ensures growth == GrownReasoning(config, old(growth), |text|)
    {
      if config.profile.verbatimTail {
        tail := LastN(tail + text, TAIL_WINDOW);
        growth := growth.(tail := growth.tail + |text|);
      }
    }

    /** Reasoning text arrives. */
    method OnReasoningDelta(text: string)
      requires Valid()
      modifies this`bytes, this`buffer, this`segments, this`totalSegments, this`maxSegmentChars, this`headerLines,
               this`tail, this`growth, this`trigger, this`cut, this`reasoning, this`latchedAt
      ensures Valid()
      ensures reasoning == old(reasoning) + text && cut == old(cut) + if text == "" then [] else [text]
      ensures (trigger, growth) ==
              if text == "" then (old(trigger), old(growth))
              else Latch(old(trigger), toolStarted, config, Retained(), GrownReasoning(config, old(growth), |text|))
    {
      hide Streams, Latched, Latch;
      AppendNothing(reasoning);
      if text == "" { return; }
      ghost var before, was := Retained(), Seen();
      RetainReasoning(text);
      LatchAfterGrowth(before, was);
    }

    /** Visible answer text arrives. */
    method OnVisibleDelta(text: string)
      requires Valid()
      modifies this`visibleInk, this`visibleBytes, this`visibleTail, this`growth, this`trigger, this`visible,
               this`latchedAt
      ensures Valid()
      ensures visible == old(visible) + text
      ensures (trigger, growth) ==
              if text == "" then (old(trigger), old(growth))
              else Latch(old(trigger), toolStarted, config, Retained(), GrownVisible(config, old(growth), |text|))
    {
      hide Sees, Latched, Latch, Utf8Bytes, SegmentsOf, Pending, Longest, LastN, InkCount, Holds;
      AppendNothing(visible);
      if text == "" { return; }
      ghost var before, was := Retained(), Seen();
      visibleInk := visibleInk + InkCount(text);
      visibleBytes := visibleBytes + Utf8Bytes(text);
      if config.profile.TracksVisible() {
        visibleTail := LastN(visibleTail + text, TAIL_WINDOW);
        growth := growth.(visibleTail := growth.visibleTail + |text|, visibleTrigram := growth.visibleTrigram + |text|);
      }
      visible := visible + text;
      VisibleGrows(config, before, was, text, Retained(), Seen());
      LatchAfterGrowth(before, was);
    }

    /** Text goes to the channel of the current mode. */
    method EmitChannel(text: string)
      requires Valid()
      modifies this
      ensures Valid() && StepKeeps(old(trigger), old(toolStarted), trigger, toolStarted)
      ensures Now() == old(Now()).Emit(text)
    {
      hide Valid;
      AppendNothing(reasoning);
      AppendNothing(visible);
      if text == "" { return; }
      if thinkMode { OnReasoningDelta(text); } else { OnVisibleDelta(text); }
    }

    /** Send one span, and go on with `after`. */
    method EmitAndContinue(span: string, after: string, thinking: bool, ghost rest: Routing)
      requires Valid()
      modifies this
      ensures Valid() && StepKeeps(old(trigger), old(toolStarted), trigger, toolStarted)
      ensures thinkPending == after && thinkMode == thinking
      ensures Sent(Now(), rest) == old(Sent(Now(), rest.Prepend(thinkMode, span)))
    {
      hide Valid, Sent;
      EmitThenSend(Now(), span, rest);
      EmitChannel(span);
      SentIgnoresHeld(Now(), after, thinking, rest);
      thinkPending, thinkMode := after, thinking;
    }

    /** Route buffered text; unless `final`, hold back what may still become a tag. */
    method DrainThinkPending(final: bool)
      requires Valid()
      modifies this
      ensures Valid() && StepKeeps(old(trigger), old(toolStarted), trigger, toolStarted)
      ensures Now() == old(Sent(Now(), Route(final, thinkMode, thinkPending)))
    {
      hide Valid, Scan, Drain, Find, Tag, MatchesAt, Sent, Route, HoldLength, PartialTag, FoldAll;
      ghost var all := Sent(Now(), Route(final, thinkMode, thinkPending));
      while thinkPending != ""
        invariant Valid() && StepKeeps(old(trigger), old(toolStarted), trigger, toolStarted)
        invariant Sent(Now(), Route(final, thinkMode, thinkPending)) == all
        decreases |thinkPending|
      {
        var tag := Tag(thinkMode);
        var m := Find(thinkPending, tag, 0);
        if m.Some? {
          var before, after := thinkPending[..m.value], thinkPending[m.value + |tag|..];
          RouteAtTag(final, thinkMode, thinkPending, m.value);
          EmitAndContinue(before, after, !thinkMode, Route(final, !thinkMode, after));
        } else if final {
          RouteRestFinal(thinkMode, thinkPending);
          EmitAndContinue(thinkPending, "", thinkMode, Routing("", "", thinkMode, ""));
          NothingSent(Now());
          return;
        } else {
          var hold := PartialTagSuffix(thinkPending, tag);
          var before := thinkPending[..|thinkPending| - |hold|];
          RouteRestHeld(thinkMode, thinkPending);
          EmitAndContinue(before, hold, thinkMode, Routing("", "", thinkMode, hold));
          NothingSent(Now());
          return;
        }
      }
      RouteNothing(final, thinkMode);
      NothingSent(Now());
    }

    /** Provider text arrives; its `<think>` spans are reasoning. */
    method OnTextDelta(text: string)
      requires Valid()
      modifies this
      ensures Valid() && StepKeeps(old(trigger), old(toolStarted), trigger, toolStarted)
      ensures Now() == Receive(old(Now()), TextDelta(text))
    {
      hide Valid, Drain, Sent;
      if text == "" { return; }
      SentIgnoresHeld(Now(), thinkPending + text, thinkMode, Drain(thinkMode, thinkPending + text));
      thinkPending := thinkPending + text;
      DrainThinkPending(false);
    }

    /** The stream ended: nothing stays held. */
    method Flush()
      requires Valid()
      modifies this
      ensures Valid() && StepKeeps(old(trigger), old(toolStarted), trigger, toolStarted)
      ensures Now() == Ended(old(Now())) && thinkPending == ""
    {
      hide Valid, Scan;
      ScanHoldsNothing(thinkMode, thinkPending);
      DrainThinkPending(true);
    }

    /** The model committed to a tool call: no detector fires any more. */
    method OnToolCallStart()
      requires Valid()
      modifies this`toolStarted, this`trigger, this`growth
      ensures Valid() && toolStarted && trigger == old(trigger) && growth == old(growth)
    {
      toolStarted := true;
      MaybeLatchTrigger();
    }

    // -------------------------------------------------------------- a whole turn

    /** One turn of a provider's chunks: stop at the first look that finds a trigger, then flush what is held.
        No look before the last one is passed with a ceiling exceeded, unless a tool call had started. */
    method FeedTurn(signals: seq<Signal>) returns (consumed: nat, aborted: bool)
      requires Valid()
      modifies this
      ensures Valid() && consumed <= |signals|
      ensures Now() == Ended(ReceiveAll(old(Now()), signals[..consumed])) && thinkPending == ""
      ensures toolStarted == (old(toolStarted) || ToolCallStart in signals[..consumed])
      ensures consumed < |signals| ==> consumed > 0 && signals[consumed - 1] == Checked && aborted
      ensures !old(toolStarted) ==> LooksWithin(config, old(Now()), signals, consumed - 1)
      ensures aborted == ShouldAbort()
      ensures old(trigger) != NoTrigger ==> trigger == old(trigger)
    {
      hide Valid, Receive, ReceiveAll, Ended, Drain, Scan, WithinBudget, StepKeeps, LooksWithin;
      consumed, aborted := 0, false;
      ReceiveNothing(Now(), signals);
      NoLooks(config, Now(), signals);
      while consumed < |signals| && !aborted
        invariant consumed <= |signals| && Valid()
        invariant Now() == ReceiveAll(old(Now()), signals[..consumed])
        invariant toolStarted == (old(toolStarted) || ToolCallStart in signals[..consumed])
        invariant old(trigger) != NoTrigger ==> trigger == old(trigger)
        invariant aborted ==> consumed > 0 && signals[consumed - 1] == Checked && ShouldAbort()
        invariant !old(toolStarted) ==>
                    LooksWithin(config, old(Now()), signals, if aborted then consumed - 1 else consumed)
        decreases |signals| - consumed, !aborted
      {
        TakeOneMore(signals, consumed);
        ReceiveOneMore(old(Now()), signals[..consumed], signals[consumed]);
        aborted := Notice(signals[consumed]);
        consumed := consumed + 1;
        if !aborted && !old(toolStarted) {
          if !toolStarted && signals[consumed - 1] == Checked { QuietIsWithinBudget(); }
          OneMoreLook(config, old(Now()), signals, consumed);
        }
      }
      if !aborted && !old(toolStarted) { FewerLooks(config, old(Now()), signals, consumed); }
      ghost var t, tool := trigger, toolStarted;
      Flush();
      StepKeepsMeans(t, tool, trigger, toolStarted);
      aborted := ShouldAbort();
    }

    /** One signal; `hit` tells a look that found a trigger. */
    method Notice(s: Signal) returns (hit: bool)
      requires Valid()
      modifies this
      ensures Valid() && Now() == Receive(old(Now()), s)
      ensures toolStarted == (old(toolStarted) || s == ToolCallStart)
      ensures old(trigger) != NoTrigger ==> trigger == old(trigger)
      ensures hit == (s == Checked && ShouldAbort())
    {
      hide Valid, Decide;
      hit := false;
      match s
      case TextDelta(text) => OnTextDelta(text);
      case ReasoningDelta(text) => OnReasoningDelta(text);
      case ToolCallStart => OnToolCallStart();
      case Checked => hit := ShouldAbort();
    }

    // -------------------------------------------------------------- what Valid() means

    /** Bounded state, and each part the function of the whole stream it stands for. */
    lemma Bounded()
      requires Valid()
      ensures |buffer| < MAX_SEGMENT_CHARS && '\n' !in buffer
      ensures |segments| <= SEGMENT_CAPACITY && |tail| <= TAIL_WINDOW && |visibleTail| <= TAIL_WINDOW
      ensures |buffer| <= |reasoning| && buffer == reasoning[|reasoning| - |buffer|..]
    {
      hide SegmentsOf, Pending, Latched, Longest;
      PendingIsSuffix(reasoning);
    }

    /** Without a tool call, an exceeded budget always shows a trigger: either ceiling, or the titled lines. */
    lemma BudgetIsNeverMissed(t: Trigger)
      requires Valid() && !toolStarted
      requires t == ReasoningCeiling || t == VisibleCeiling || t == HeaderRunaway
      requires Holds(config, t, Seen())
      ensures ShouldAbort()
    {
      hide SegmentsOf, Pending, Longest, Utf8Bytes, LastN, InkCount, Concat, TitledPieces, HistorySegments;
    }

    lemma QuietIsWithinBudget()
      requires Valid() && !ShouldAbort() && !toolStarted
      ensures WithinBudget(config, Now())
    {
      hide SegmentsOf, Pending, Longest, Utf8Bytes, LastN, InkCount, Concat, TitledPieces, HistorySegments, Holds;
    }

    /** A trigger was true of a prefix of what has been streamed. */
    lemma TriggerWasTrue()
      requires Valid() && ShouldAbort()
      ensures Holds(config, trigger, latchedAt)
      ensures latchedAt.cut <= cut && latchedAt.Reasoning() <= reasoning && latchedAt.visible <= visible
    {
      hide Sees, Holds, Concat;
      var more := cut[|latchedAt.cut|..];
      assert cut == latchedAt.cut + more;
      ConcatAppend(latchedAt.cut, more);
    }
  }

  /** Non-positive ceilings are refused. */
  method NewGuard(config: Config) returns (r: Result<StreamLoopGuard, string>)
    ensures r.Success? <==> config.ceiling > 0 && config.visibleCeiling > 0
    ensures r.Success? ==> fresh(r.value) && r.value.Valid() && r.value.config == config && !r.value.ShouldAbort()
  {
    if config.ceiling <= 0 { return Failure("ceiling_tokens must be positive"); }
    if config.visibleCeiling <= 0 { return Failure("visible_ceiling_tokens must be positive"); }
    var g := new StreamLoopGuard(config);
    return Success(g);
  }

  /** However two streams were cut into deltas, the same channels leave the same counters,
      partial line, segment ring and tails. */
  lemma SameHistorySameState(a: StreamLoopGuard, b: StreamLoopGuard)
    requires a.Valid() && b.Valid() && a.config == b.config
    requires a.reasoning == b.reasoning && a.visible == b.visible
    ensures a.buffer == b.buffer && a.segments == b.segments && a.totalSegments == b.totalSegments
    ensures a.bytes == b.bytes && a.visibleBytes == b.visibleBytes && a.visibleInk == b.visibleInk
    ensures a.tail == b.tail && a.visibleTail == b.visibleTail && a.maxSegmentChars == b.maxSegmentChars
  {
    hide SegmentsOf, Pending, Latched, Longest, LastN, Utf8Bytes, InkCount;
  }

  /** The titled-line count is the exception: it agrees for all deltas exactly if no finished line
      counts differently when full pieces of it were flushed early. */
  lemma HeadersAgree(a: StreamLoopGuard, b: StreamLoopGuard)
    requires a.Valid() && b.Valid() && a.config == b.config && a.reasoning == b.reasoning
    requires a.config.profile.headerRunaway ==> LinesAgree(a.config.ops.isHeader, a.reasoning)
    ensures a.headerLines == b.headerLines == HeadersFlushed(a.config, a.reasoning)
  {
    hide SegmentsOf, Pending, Latched, Longest, LastN, Utf8Bytes, InkCount, Concat, TitledPieces, LinesAgree, Flushed;
    if a.config.profile.headerRunaway {
      AgreeingCuts(a.config.ops.isHeader, a.cut);
      AgreeingCuts(a.config.ops.isHeader, b.cut);
    }
  }

  // ---------------------------------------------------------------- specification functions

  lemma TakeOneMore<T>(s: seq<T>, n: nat)
    requires n < |s|
    ensures s[..n + 1] == s[..n] + [s[n]]
  {
  }

  /** Neither channel has reached its ceiling. */
  predicate WithinBudget(c: Config, now: Channels) {
    && (c.profile.ceiling ==> Tokens(Utf8Bytes(now.reasoning)) < c.ceiling)
    && (c.profile.visibleCeiling ==> Tokens(Utf8Bytes(now.visible)) < c.visibleCeiling)
  }

  /** No look among the first `n` signals and before any tool call came with a ceiling exceeded. */
  ghost predicate LooksWithin(c: Config, start: Channels, signals: seq<Signal>, n: int) {
    forall k | 0 <= k < n && k < |signals| && signals[k] == Checked && ToolCallStart !in signals[..k + 1] ::
      WithinBudget(c, ReceiveAll(start, signals[..k + 1]))
  }

  lemma NoLooks(c: Config, start: Channels, signals: seq<Signal>)
    ensures LooksWithin(c, start, signals, 0)
  {
  }

  lemma OneMoreLook(c: Config, start: Channels, signals: seq<Signal>, n: nat)
    requires 0 < n <= |signals| && LooksWithin(c, start, signals, n - 1)
    requires signals[n - 1] == Checked && ToolCallStart !in signals[..n] ==>
               WithinBudget(c, ReceiveAll(start, signals[..n]))
    ensures LooksWithin(c, start, signals, n)
  {
    hide WithinBudget, ReceiveAll;
  }

  lemma FewerLooks(c: Config, start: Channels, signals: seq<Signal>, n: nat)
    requires LooksWithin(c, start, signals, n)
    ensures LooksWithin(c, start, signals, n - 1)
  {
    hide WithinBudget, ReceiveAll;
  }

  lemma SentIgnoresHeld(c: Channels, held: string, thinking: bool, r: Routing)
    ensures Sent(c.(held := held, thinking := thinking), r) == Sent(c, r)
  {
  }

  /** A later trigger keeps a latched one, and nothing latches once a tool call started. */
  ghost predicate StepKeeps(t: Trigger, tool: bool, t': Trigger, tool': bool) {
    tool' == tool && (t != NoTrigger || tool ==> t' == t)
  }

  lemma StepKeepsMeans(t: Trigger, tool: bool, t': Trigger, tool': bool)
    requires StepKeeps(t, tool, t', tool')
    ensures tool' == tool && (t != NoTrigger ==> t' == t)
  {
  }

  /** Appending `out` one by one to a bounded ring; nothing to append leaves any ring alone. */
  function PushAll(ring: seq<string>, out: seq<string>): seq<string> {
    LastN(ring + out, if |out| == 0 && |ring| > SEGMENT_CAPACITY then |ring| else SEGMENT_CAPACITY)
  }

  lemma PushAllNothing(ring: seq<string>)
    ensures PushAll(ring, []) == ring
  {
    assert ring + [] == ring;
  }

  lemma PushAllSnoc(ring: seq<string>, out: seq<string>, s: string)
    ensures PushAll(ring, out + [s]) == Push(PushAll(ring, out), s)
  {
    AppendAssociative(ring, out, [s]);
    LastNOfLonger(ring + out, [s], if |out| == 0 && |ring| > SEGMENT_CAPACITY then |ring| else SEGMENT_CAPACITY);
  }

  lemma LastNOfLonger(s: seq<string>, t: seq<string>, n: nat)
    requires n >= SEGMENT_CAPACITY
    ensures LastN(LastN(s, n) + t, SEGMENT_CAPACITY) == LastN(s + t, SEGMENT_CAPACITY)
  {
  }

  lemma PushAllAppend(ring: seq<string>, a: seq<string>, b: seq<string>)
    ensures PushAll(ring, a + b) == PushAll(PushAll(ring, a), b)
  {
    if |b| == 0 {
      assert a + b == a;
      PushAllNothing(PushAll(ring, a));
    } else {
      AppendAssociative(ring, a, b);
      LastNOfLonger(ring + a, b, if |a| == 0 && |ring| > SEGMENT_CAPACITY then |ring| else SEGMENT_CAPACITY);
    }
  }

  lemma LongestNothing(best: nat)
    ensures Longest(best, []) == best
  {
  }

  lemma LongestSnoc(best: nat, a: seq<string>, s: string)
    ensures Longest(best, a + [s]) == var m := Longest(best, a); if |s| > m then |s| else m
  {
    LongestAppend(best, a, [s]);
  }

  lemma NormalizedOfNothing(normalize: string -> string)
    ensures Normalized(normalize, Chunks("")) == []
  {
  }

  lemma NormalizedSnoc(normalize: string -> string, done: seq<string>, chunk: string)
    ensures Normalized(normalize, done + [chunk])
         == if normalize(chunk) == "" then Normalized(normalize, done)
            else Normalized(normalize, done) + [normalize(chunk)]
  {
    NormalizedAppend(normalize, done, [chunk]);
    AppendNothing(Normalized(normalize, done));
  }

  lemma ChunksStep(rest: string, n: nat, done: seq<string>)
    requires rest != "" && n == if |rest| < MAX_SEGMENT_CHARS then |rest| else MAX_SEGMENT_CHARS
    ensures done + Chunks(rest) == done + [rest[..n]] + Chunks(rest[n..])
  {
    if |rest| <= MAX_SEGMENT_CHARS {
      assert rest[..n] == rest && rest[n..] == "";
    }
    AppendAssociative(done, [rest[..n]], Chunks(rest[n..]));
  }

  /** Titled lines among pieces that are handed over, when that detector is on. */
  function HeadersIn(c: Config, lines: seq<string>): nat {
    if c.profile.headerRunaway then HeaderCount(c.ops.isHeader, lines) else 0
  }

  function HeadersFlushed(c: Config, buffer: string): nat {
    if c.profile.headerRunaway then Flushed(c.ops.isHeader, buffer) else 0
  }

  lemma NoTitles(c: Config)
    ensures HeadersFlushed(c, "") == 0 && Headers(c, History([], "")) == 0 && Concat<char>([]) == ""
  {
    hide Lines;
    NoDeltas([]);
    FlushedOpen(c.ops.isHeader, "");
    HeaderCountOne(c.ops.isHeader, "");
  }

  lemma FlushLineSegments(c: Config, buffer: string, i: nat, out: seq<string>)
    requires i < |buffer| && NewlineAt(buffer) == i
    ensures var more := Normalized(c.ops.normalize, Chunks(buffer[..i]));
            out + SegmentsOf(c.ops.normalize, buffer) == out + more + SegmentsOf(c.ops.normalize, buffer[i + 1..])
    ensures Pending(buffer) == Pending(buffer[i + 1..])
    ensures HeadersFlushed(c, buffer) == HeadersIn(c, [buffer[..i]]) + HeadersFlushed(c, buffer[i + 1..])
  {
    hide RawSegments, Pending, Chunks, Normalized, Lines, Flushed, HeaderCount;
    FlushLine(buffer, i);
    FlushedLine(c.ops.isHeader, buffer, i);
    var line, rest := buffer[..i], buffer[i + 1..];
    NormalizedAppend(c.ops.normalize, Chunks(line), RawSegments(rest));
    AppendAssociative(out, Normalized(c.ops.normalize, Chunks(line)), SegmentsOf(c.ops.normalize, rest));
  }

  lemma FlushPieceSegments(c: Config, buffer: string, out: seq<string>)
    requires '\n' !in buffer && |buffer| >= MAX_SEGMENT_CHARS
    ensures var chunk, rest := buffer[..MAX_SEGMENT_CHARS], buffer[MAX_SEGMENT_CHARS..];
            var more := Normalized(c.ops.normalize, Chunks(chunk));
            && out + SegmentsOf(c.ops.normalize, buffer) == out + more + SegmentsOf(c.ops.normalize, rest)
            && Pending(buffer) == Pending(rest)
            && HeadersFlushed(c, buffer) == HeadersIn(c, [chunk]) + HeadersFlushed(c, rest)
            && '\n' !in rest
  {
    hide Normalized, Lines, RawSegments, Pending, Flushed, HeaderCount;
    var chunk, rest := buffer[..MAX_SEGMENT_CHARS], buffer[MAX_SEGMENT_CHARS..];
    NoNewlineInPart(buffer, MAX_SEGMENT_CHARS);
    OpenLine(buffer);
    OpenLine(rest);
    FlushedPiece(c.ops.isHeader, buffer);
    assert Chunks(chunk) == [chunk];
    NormalizedAppend(c.ops.normalize, [chunk], FullChunks(rest));
    AppendAssociative(out, Normalized(c.ops.normalize, [chunk]), SegmentsOf(c.ops.normalize, rest));
  }

  lemma HeadersOfOne(c: Config, line: string)
    ensures HeadersIn(c, [line]) == if c.profile.headerRunaway && line != "" && c.ops.isHeader(line) then 1 else 0
  {
    HeaderCountOne(c.ops.isHeader, line);
  }

  lemma ShortOpenLine(c: Config, buffer: string)
    requires '\n' !in buffer && |buffer| < MAX_SEGMENT_CHARS
    ensures SegmentsOf(c.ops.normalize, buffer) == [] && Pending(buffer) == buffer && HeadersFlushed(c, buffer) == 0
  {
    hide Lines, RawSegments, Pending, Flushed;
    OpenLine(buffer);
    ShortHasNoChunk(buffer);
    FlushedOpen(c.ops.isHeader, buffer);
  }

  function GrownReasoning(c: Config, g: Growth, n: nat): Growth {
    if c.profile.verbatimTail then g.(tail := g.tail + n) else g
  }

  function GrownVisible(c: Config, g: Growth, n: nat): Growth {
    if c.profile.TracksVisible() then g.(visibleTail := g.visibleTail + n, visibleTrigram := g.visibleTrigram + n)
    else g
  }

  /** One reasoning delta, seen from the whole history. */
  lemma ReasoningGrows(c: Config, v: View, h: History, buffer: string, best: nat, text: string, v': View, h': History)
    requires Sees(c, v, h) && buffer == Pending(h.Reasoning()) && best == Longest(0, HistorySegments(c, h))
    requires h' == h.(cut := h.cut + [text])
    requires var out := SegmentsOf(c.ops.normalize, buffer + text);
             v' == v.(bytes := v.bytes + Utf8Bytes(text), headers := v.headers + HeadersFlushed(c, buffer + text),
                      segments := PushAll(v.segments, out), total := v.total + |out|,
                      tail := if c.profile.verbatimTail then LastN(v.tail + text, TAIL_WINDOW) else v.tail)
    ensures Sees(c, v', h')
    ensures Pending(buffer + text) == Pending(h'.Reasoning()) && h'.Reasoning() == h.Reasoning() + text
    ensures Longest(best, SegmentsOf(c.ops.normalize, buffer + text)) == Longest(0, HistorySegments(c, h'))
  {
    hide Utf8Bytes, InkCount, SegmentsOf, RawSegments, Pending, Longest, LastN, PushAll, Concat, TitledPieces, Flushed;
    ConcatSnoc(h.cut, text);
    TitledStream(c.ops.isHeader, h.cut, text);
    var out := SegmentsOf(c.ops.normalize, buffer + text);
    SegmentsStream(c.ops.normalize, h.Reasoning(), text);
    RawSegmentsStream(h.Reasoning(), text);
    Utf8BytesAppend(h.Reasoning(), text);
    LastNAppend(h.Reasoning(), text, TAIL_WINDOW);
    PushAllOnRing(HistorySegments(c, h), out);
    LongestAppend(0, HistorySegments(c, h), out);
  }

  lemma PushAllOnRing(all: seq<string>, out: seq<string>)
    ensures PushAll(LastN(all, SEGMENT_CAPACITY), out) == LastN(all + out, SEGMENT_CAPACITY)
  {
    LastNAppend(all, out, SEGMENT_CAPACITY);
  }

  /** One visible delta, seen from the whole history. */
  lemma VisibleGrows(c: Config, v: View, h: History, text: string, v': View, h': History)
    requires Sees(c, v, h) && h' == h.(visible := h.visible + text)
    requires v' == v.(visibleBytes := v.visibleBytes + Utf8Bytes(text), visibleInk := v.visibleInk + InkCount(text),
                      visibleTail := if c.profile.TracksVisible() then LastN(v.visibleTail + text, TAIL_WINDOW)
                                     else v.visibleTail)
    ensures Sees(c, v', h')
  {
    hide Utf8Bytes, InkCount, SegmentsOf, LastN, Concat, TitledPieces;
    Utf8BytesAppend(h.visible, text);
    InkCountAppend(h.visible, text);
    LastNAppend(h.visible, text, TAIL_WINDOW);
  }
}
