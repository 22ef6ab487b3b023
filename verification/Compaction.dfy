/** Keeping a conversation inside the context window: usage tracking and the compaction of older
    messages into one summary. */
module Compaction {
  import opened Text

  datatype Role = System | User | Assistant | Tool

  datatype Call = Call(id: string, name: string)

  datatype Answer = Answer(callId: string, name: string, isError: bool)

  /** `rest` stands for the fields compaction never looks at. */
  datatype Message = Message(
    role: Role, content: string, calls: seq<Call>, answers: seq<Answer>, reasoning: string, rest: string)

  const MAX_UNCOMPACTED: nat := 6
  const KEEP_TAIL: nat := 4

  // ---------------------------------------------------------------- usage

  /** The provider's context figure, or its total when there is none. */
  datatype Usage = Usage(contextTokens: int, totalTokens: int) {
    function Effective(): int {
      if contextTokens != 0 then contextTokens else totalTokens
    }
  }

  /** The largest usage reported since the last reset. */
  function Peak(reports: seq<Usage>): int {
    if |reports| == 0 then 0
    else
      var before, last := Peak(reports[..|reports| - 1]), reports[|reports| - 1].Effective();
      if last > before then last else before
  }

  class ContextWindowManager {
    const maxTokens: int
    const threshold: real
    var totalTokens: int
    ghost var reports: seq<Usage>

    ghost predicate Valid()
      reads this
    {
      totalTokens == Peak(reports)
    }

    constructor (maxTokens: int, threshold: real)
      ensures Valid() && reports == [] && this.maxTokens == maxTokens && this.threshold == threshold
    {
      this.maxTokens, this.threshold, totalTokens, reports := maxTokens, threshold, 0, [];
    }

    method UpdateUsage(usage: Usage)
      requires Valid()
      modifies this`totalTokens, this`reports
      ensures Valid() && reports == old(reports) + [usage]
      ensures totalTokens >= old(totalTokens)
    {
      var effective := if usage.contextTokens != 0 then usage.contextTokens else usage.totalTokens;
      assert (reports + [usage])[..|reports|] == reports;
      if effective > totalTokens { totalTokens := effective; }
      reports := reports + [usage];
    }

    method Reset()
      modifies this`totalTokens, this`reports
      ensures Valid() && reports == []
    {
      totalTokens, reports := 0, [];
    }

    method ShouldCompact() returns (near: bool)
      requires Valid()
      ensures maxTokens > 0 ==> (near <==> Peak(reports) as real >= threshold * maxTokens as real)
      ensures maxTokens <= 0 ==> (near <==> threshold <= 0.0)
    {
      if maxTokens <= 0 {
        near := 0.0 >= threshold;
      } else {
        near := totalTokens as real / maxTokens as real >= threshold;
        RatioReaches(totalTokens as real, maxTokens as real, threshold);
      }
    }
  }

  lemma RatioReaches(total: real, max: real, threshold: real)
    requires max > 0.0
    ensures total / max >= threshold <==> total >= threshold * max
  {
    assert total == total / max * max;
    if total / max >= threshold {
      assert total / max * max >= threshold * max;
    } else {
      assert total / max * max < threshold * max;
    }
  }

  /** The tracked total is never below any report since the reset, and one of them unless it is zero. */
  lemma {:induction false} PeakIsLargest(reports: seq<Usage>)
    ensures Peak(reports) >= 0 && forall u | u in reports :: u.Effective() <= Peak(reports)
    ensures Peak(reports) != 0 ==> exists u | u in reports :: u.Effective() == Peak(reports)
  {
    if |reports| > 0 {
      var init, last := reports[..|reports| - 1], reports[|reports| - 1];
      PeakIsLargest(init);
      assert reports == init + [last];
      if Peak(reports) == Peak(init) && Peak(init) != 0 {
        var u :| u in init && u.Effective() == Peak(init);
        assert u in reports;
      }
    }
  }

  // ---------------------------------------------------------------- the summary

  const SUMMARY_HEADING := "[Context summary of earlier conversation:]"

  function Prefix(s: string, n: nat): string {
    if |s| <= n then s else s[..n]
  }

  function NamesOf(calls: seq<Call>): seq<string> {
    seq(|calls|, i requires 0 <= i < |calls| => calls[i].name)
  }

  function JoinNames(names: seq<string>): string {
    if |names| == 0 then "" else if |names| == 1 then names[0] else names[0] + ", " + JoinNames(names[1..])
  }

  function AnswerLines(answers: seq<Answer>): seq<string> {
    seq(|answers|, i requires 0 <= i < |answers| =>
      "Tool " + answers[i].name + ": " + if answers[i].isError then "error" else "success")
  }

  /** The summary lines of one message; `clean` removes injection markers. */
  function LinesOf(clean: string -> string, m: Message): seq<string> {
    match m.role
    case User => ["User asked: " + clean(Prefix(m.content, 100)) + "..."]
    case Assistant =>
      var text := if m.content != "" then clean(Prefix(m.content, 150)) else "";
      (if m.calls != [] then ["Assistant used tools: " + JoinNames(NamesOf(m.calls))] else [])
      + (if text != "" then ["Assistant said: " + text + "..."] else [])
    case Tool => AnswerLines(m.answers)
    case System => []
  }

  function SummaryLines(clean: string -> string, middle: seq<Message>): seq<string> {
    if |middle| == 0 then [SUMMARY_HEADING]
    else SummaryLines(clean, middle[..|middle| - 1]) + LinesOf(clean, middle[|middle| - 1])
  }

  function Summary(clean: string -> string, middle: seq<Message>): Message {
    Message(User, JoinLines(SummaryLines(clean, middle)), [], [], "", "")
  }

  // ---------------------------------------------------------------- compaction

  /** From `start` on, the first message that is no tool result. */
  function SkipTools(messages: seq<Message>, start: nat): (i: nat)
    requires start <= |messages|
    ensures start <= i <= |messages|
    ensures i < |messages| ==> messages[i].role != Tool
    ensures forall k | start <= k < i :: messages[k].role == Tool
    decreases |messages| - start
  {
    if start < |messages| && messages[start].role == Tool then SkipTools(messages, start + 1) else start
  }

  function TailStart(messages: seq<Message>): nat
    requires |messages| > MAX_UNCOMPACTED
  {
    SkipTools(messages, |messages| - KEEP_TAIL)
  }

  function Compacted(clean: string -> string, messages: seq<Message>): seq<Message> {
    if |messages| <= MAX_UNCOMPACTED then messages
    else
      var t := TailStart(messages);
      [messages[0], Summary(clean, messages[1..t])] + messages[t..]
  }

  method CompactMessages(clean: string -> string, messages: seq<Message>) returns (compacted: seq<Message>)
    ensures compacted == Compacted(clean, messages)
  {
    hide LinesOf, JoinLines, SkipTools, SummaryLines;
    if |messages| <= 6 { return messages; }
    var tailStart := if |messages| - 4 > 1 then |messages| - 4 else 1;
    while tailStart < |messages| && messages[tailStart].role == Tool
      invariant |messages| - 4 <= tailStart <= |messages|
      invariant SkipTools(messages, |messages| - 4) == SkipTools(messages, tailStart)
    {
      SkipOne(messages, tailStart);
      tailStart := tailStart + 1;
    }
    SkipNone(messages, tailStart);
    var middle := messages[1..tailStart];
    if middle == [] { return messages; }
    var parts := SummarizeAll(clean, middle);
    compacted := [messages[0], Message(User, JoinLines(parts), [], [], "", "")] + messages[tailStart..];
  }

  method SummarizeAll(clean: string -> string, middle: seq<Message>) returns (parts: seq<string>)
    ensures parts == SummaryLines(clean, middle)
  {
    hide LinesOf;
    parts := [SUMMARY_HEADING];
    var i := 0;
    while i < |middle|
      invariant i <= |middle| && parts == SummaryLines(clean, middle[..i])
    {
      assert middle[..i + 1][..i] == middle[..i];
      var added := SummarizeOne(clean, middle[i]);
      parts := parts + added;
      i := i + 1;
    }
    assert middle[..i] == middle;
  }

  lemma SkipOne(messages: seq<Message>, i: nat)
    requires i < |messages| && messages[i].role == Tool
    ensures SkipTools(messages, i) == SkipTools(messages, i + 1)
  {
  }

  lemma SkipNone(messages: seq<Message>, i: nat)
    requires i <= |messages| && (i < |messages| ==> messages[i].role != Tool)
    ensures SkipTools(messages, i) == i
  {
  }

  method SummarizeOne(clean: string -> string, m: Message) returns (lines: seq<string>)
    ensures lines == LinesOf(clean, m)
  {
    lines := [];
    match m.role {
      case User => lines := ["User asked: " + clean(Prefix(m.content, 100)) + "..."];
      case Assistant =>
        var text := if m.content != "" then clean(Prefix(m.content, 150)) else "";
        if m.calls != [] { lines := lines + ["Assistant used tools: " + JoinNames(NamesOf(m.calls))]; }
        if text != "" { lines := lines + ["Assistant said: " + text + "..."]; }
      case Tool =>
        var i := 0;
        while i < |m.answers|
          invariant i <= |m.answers| && lines == AnswerLines(m.answers[..i])
        {
          var status := if m.answers[i].isError then "error" else "success";
          AnswerLinesStep(m.answers, i);
          lines := lines + ["Tool " + m.answers[i].name + ": " + status];
          i := i + 1;
        }
        assert m.answers[..i] == m.answers;
      case System =>
    }
  }

  lemma AnswerLinesStep(answers: seq<Answer>, i: nat)
    requires i < |answers|
    ensures AnswerLines(answers[..i + 1]) == AnswerLines(answers[..i]) + AnswerLines([answers[i]])
    ensures AnswerLines([answers[i]])
            == ["Tool " + answers[i].name + ": " + if answers[i].isError then "error" else "success"]
  {
    var a, b := AnswerLines(answers[..i + 1]), AnswerLines(answers[..i]) + AnswerLines([answers[i]]);
    forall k | 0 <= k <= i ensures a[k] == b[k] { }
  }

  // ---------------------------------------------------------------- size and contents

  /** A compacted conversation has at most six messages and is shorter; its first and its recent messages
      are untouched; compacting again changes nothing. */
  lemma CompactedIsSmall(clean: string -> string, messages: seq<Message>)
    ensures |Compacted(clean, messages)| <= MAX_UNCOMPACTED
    ensures |messages| > MAX_UNCOMPACTED ==>
              var c := Compacted(clean, messages);
              && |c| < |messages| && c[0] == messages[0]
              && c[2..] == messages[TailStart(messages)..] && |c[2..]| <= KEEP_TAIL
    ensures Compacted(clean, Compacted(clean, messages)) == Compacted(clean, messages)
  {
    hide Summary;
    if |messages| > MAX_UNCOMPACTED {
      var t := TailStart(messages);
      assert Compacted(clean, messages)[2..] == messages[t..];
    }
  }

  ghost predicate SameButReasoning(ms: seq<Message>, ns: seq<Message>) {
    |ms| == |ns| && forall i | 0 <= i < |ms| :: ms[i].(reasoning := ns[i].reasoning) == ns[i]
  }

  /** Reasoning never enters the summary. */
  lemma {:induction false} SummaryIgnoresReasoning(clean: string -> string, ms: seq<Message>, ns: seq<Message>)
    requires SameButReasoning(ms, ns)
    ensures SummaryLines(clean, ms) == SummaryLines(clean, ns)
  {
    hide LinesOf;
    if |ms| > 0 {
      var n := |ms| - 1;
      SummaryIgnoresReasoning(clean, ms[..n], ns[..n]);
      assert ms[n].(reasoning := ns[n].reasoning) == ns[n];
      LinesIgnoreReasoning(clean, ms[n], ns[n].reasoning);
    }
  }

  lemma LinesIgnoreReasoning(clean: string -> string, m: Message, reasoning: string)
    ensures LinesOf(clean, m) == LinesOf(clean, m.(reasoning := reasoning))
  {
    hide JoinNames, Prefix;
  }

  // ---------------------------------------------------------------- tool pairing

  function CallIds(m: Message): set<string> {
    set c | c in m.calls :: c.id
  }

  function AnswerIds(m: Message): set<string> {
    set a | a in m.answers :: a.callId
  }

  /** Everything after o, up to and including i, is a tool message. */
  predicate RunAfter(ms: seq<Message>, o: int, i: int) {
    0 <= o < i < |ms| && forall k | o < k <= i :: ms[k].role == Tool
  }

  /** A tool message answers calls of the assistant message its run follows. */
  ghost predicate Owned(ms: seq<Message>, i: int)
    requires 0 <= i < |ms|
  {
    exists o | 0 <= o < |ms| :: ms[o].role == Assistant && RunAfter(ms, o, i) && AnswerIds(ms[i]) <= CallIds(ms[o])
  }

  /** The call is answered in the run directly after its message. */
  ghost predicate Answered(ms: seq<Message>, o: int, id: string) {
    exists i | 0 <= i < |ms| :: RunAfter(ms, o, i) && id in AnswerIds(ms[i])
  }

  ghost predicate AllAnswered(ms: seq<Message>, o: int)
    requires 0 <= o < |ms|
  {
    forall id | id in CallIds(ms[o]) :: Answered(ms, o, id)
  }

  /** What providers demand: no tool result without its call, no call without its result. */
  ghost predicate Paired(ms: seq<Message>) {
    && (forall i | 0 <= i < |ms| :: ms[i].role == Tool ==> Owned(ms, i))
    && (forall o | 0 <= o < |ms| :: AllAnswered(ms, o))
  }

  /** The positions of the tail: two in front, then the kept messages. */
  ghost predicate TailAt(ms: seq<Message>, c: seq<Message>, t: nat) {
    && 2 <= t <= |ms| && |c| == 2 + |ms| - t
    && (forall j | 2 <= j < |c| :: c[j] == ms[j - 2 + t])
    && c[1].role != Tool && (t < |ms| ==> ms[t].role != Tool)
  }

  lemma RunMoves(ms: seq<Message>, c: seq<Message>, t: nat, o: int, i: int)
    requires TailAt(ms, c, t) && o >= 2
    ensures RunAfter(c, o, i) <==> i < |c| && o < i && RunAfter(ms, o - 2 + t, i - 2 + t)
  {
    if o < i < |c| {
      forall k | o < k <= i ensures c[k] == ms[k - 2 + t] { }
      if RunAfter(c, o, i) {
        forall k | o - 2 + t < k <= i - 2 + t ensures ms[k].role == Tool { assert c[k + 2 - t] == ms[k]; }
      }
    }
  }

  lemma OwnedInTail(ms: seq<Message>, c: seq<Message>, t: nat, j: int)
    requires TailAt(ms, c, t) && 2 <= j < |c| && c[j].role == Tool && Owned(ms, j - 2 + t)
    ensures Owned(c, j)
  {
    var i := j - 2 + t;
    var o :| 0 <= o < |ms| && ms[o].role == Assistant && RunAfter(ms, o, i) && AnswerIds(ms[i]) <= CallIds(ms[o]);
    assert o >= t;
    RunMoves(ms, c, t, o + 2 - t, j);
    assert c[o + 2 - t] == ms[o];
  }

  lemma AnsweredInTail(ms: seq<Message>, c: seq<Message>, t: nat, j: int)
    requires TailAt(ms, c, t) && 2 <= j < |c| && AllAnswered(ms, j - 2 + t)
    ensures AllAnswered(c, j)
  {
    var o := j - 2 + t;
    forall id | id in CallIds(c[j]) ensures Answered(c, j, id) {
      assert Answered(ms, o, id);
      var i :| 0 <= i < |ms| && RunAfter(ms, o, i) && id in AnswerIds(ms[i]);
      RunMoves(ms, c, t, j, i + 2 - t);
      assert c[i + 2 - t] == ms[i];
    }
  }

  lemma CompactedIsTail(clean: string -> string, messages: seq<Message>)
    requires |messages| > MAX_UNCOMPACTED
    ensures var c, t := Compacted(clean, messages), TailStart(messages);
            TailAt(messages, c, t) && c[0] == messages[0] && c[1].role == User && c[1].calls == []
  {
    hide SummaryLines;
  }

  lemma NeverOwned(ms: seq<Message>)
    requires |ms| > 0
    ensures !Owned(ms, 0)
  {
  }

  lemma NoRunAcross(c: seq<Message>)
    requires |c| > 1 && c[1].role != Tool
    ensures forall i :: !RunAfter(c, 0, i)
  {
  }

  lemma OwnedAfter(ms: seq<Message>, c: seq<Message>, t: nat, j: int)
    requires Paired(ms) && TailAt(ms, c, t) && 0 <= j < |c| && c[0] == ms[0] && c[j].role == Tool
    ensures Owned(c, j)
  {
    hide Owned, AllAnswered;
    NeverOwned(ms);
    assert ms[0].role != Tool;
    assert j >= 2;
    assert ms[j - 2 + t] == c[j];
    OwnedInTail(ms, c, t, j);
  }

  lemma AnsweredAfter(ms: seq<Message>, c: seq<Message>, t: nat, j: int)
    requires Paired(ms) && TailAt(ms, c, t) && 1 <= j < |c| && c[1].calls == []
    ensures AllAnswered(c, j)
  {
    hide Owned, AllAnswered;
    if j == 1 { NoCallsAnswered(c, 1); } else { AnsweredInTail(ms, c, t, j); }
  }

  /** Compaction of a paired conversation leaves it paired exactly if its first message makes no calls. */
  lemma CompactionKeepsPairing(clean: string -> string, messages: seq<Message>)
    requires Paired(messages) && |messages| > MAX_UNCOMPACTED
    ensures Paired(Compacted(clean, messages)) <==> messages[0].calls == []
  {
    hide Compacted, Owned, AllAnswered, TailAt;
    var c, t := Compacted(clean, messages), TailStart(messages);
    CompactedIsTail(clean, messages);
    assert |c| > 1 by { CompactedLength(messages, c, t); }
    forall j | 0 <= j < |c| && c[j].role == Tool ensures Owned(c, j) { OwnedAfter(messages, c, t, j); }
    forall j | 1 <= j < |c| ensures AllAnswered(c, j) { AnsweredAfter(messages, c, t, j); }
    FirstAnswered(c);
  }

  lemma CompactedLength(ms: seq<Message>, c: seq<Message>, t: nat)
    requires TailAt(ms, c, t)
    ensures |c| > 1
  {
  }

  lemma NoCallsAnswered(ms: seq<Message>, o: int)
    requires 0 <= o < |ms| && ms[o].calls == []
    ensures AllAnswered(ms, o)
  {
  }

  lemma FirstAnswered(c: seq<Message>)
    requires |c| > 1 && c[1].role != Tool
    ensures AllAnswered(c, 0) <==> c[0].calls == []
  {
    hide RunAfter;
    NoRunAcross(c);
    if c[0].calls != [] {
      assert c[0].calls[0] in c[0].calls;
      assert !Answered(c, 0, c[0].calls[0].id);
    }
  }
}
