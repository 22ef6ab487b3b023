/** The loop guard's decision: what each trigger means about the whole history,
    and the decision the bounded state takes. */
module GuardPolicy {
  import opened Text
  import opened Segments
  import opened Titles
  import opened Detectors

  const SEGMENT_CAPACITY: nat := 128
  const REPETITION_EVAL_THRESHOLD: nat := 32
  const VISIBLE_DISABLE_THRESHOLD: nat := 256
  const HEADER_THRESHOLD: nat := 24
  const VISIBLE_TRIGRAM_MIN_GROWTH: nat := 256

  /** Which detectors run. */
  datatype Profile = Profile(
    ceiling: bool, metaIntent: bool, verbatimTail: bool, trigramJaccard: bool, progressStall: bool,
    headerRunaway: bool, visibleVerbatim: bool, visibleTrigram: bool, visibleCeiling: bool)
  {
    predicate TracksVisible() { visibleVerbatim || visibleTrigram }
  }

  /** The regular expressions and Unicode tables of the program, left arbitrary. */
  datatype TextOps = TextOps(
    normalize: string -> string, isHeader: string -> bool, hasAnchor: string -> bool,
    splitLines: string -> seq<string>)

  datatype Config = Config(
    profile: Profile, ceiling: int, visibleCeiling: int, toolNames: seq<string>, ops: TextOps)

  datatype Trigger =
    | NoTrigger
    | ReasoningCeiling
    | VisibleCeiling
    | HeaderRunaway
    | VisibleVerbatimTail
    | VisibleTrigramJaccard
    | VerbatimTail
    | ProgressStall
    | TrigramJaccard
    | RepetitionMetaIntent

  /** Everything a turn has streamed so far: the reasoning deltas one by one, and the visible text. */
  datatype History = History(cut: seq<string>, visible: string)
  {
    function Reasoning(): string { Concat(cut) }
  }

  /** What the guard retains of it. */
  datatype View = View(
    bytes: nat, visibleBytes: nat, visibleInk: nat, headers: nat,
    segments: seq<string>, total: nat, tail: string, visibleTail: string)

  /** Characters seen since each throttled detector last ran. */
  datatype Growth = Growth(tail: nat, visibleTail: nat, visibleTrigram: nat)

  function Tokens(bytes: nat): nat { (bytes + 2) / 3 }

  function HistorySegments(c: Config, h: History): seq<string> {
    SegmentsOf(c.ops.normalize, h.Reasoning())
  }

  /** Titled lines among the pieces the reasoning was looked at in, when that detector is on. */
  function Headers(c: Config, h: History): nat {
    if c.profile.headerRunaway then TitledPieces(c.ops.isHeader, h.cut) else 0
  }

  /** The retained view is a window on the whole history. */
  ghost predicate Sees(c: Config, v: View, h: History) {
    && v.bytes == Utf8Bytes(h.Reasoning())
    && v.visibleBytes == Utf8Bytes(h.visible)
    && v.visibleInk == InkCount(h.visible)
    && v.headers == Headers(c, h)
    && v.segments == LastN(HistorySegments(c, h), SEGMENT_CAPACITY)
    && v.total == |HistorySegments(c, h)|
    && v.tail == (if c.profile.verbatimTail then LastN(h.Reasoning(), TAIL_WINDOW) else "")
    && v.visibleTail == (if c.profile.TracksVisible() then LastN(h.visible, TAIL_WINDOW) else "")
  }

  /** Lines that are not blank. */
  function InkLines(lines: seq<string>): seq<string> {
    if |lines| == 0 then []
    else (if Strip(lines[0]) == "" then [] else [lines[0]]) + InkLines(lines[1..])
  }

  /** The last non-blank visible lines, normalized. */
  function VisibleWindow(ops: TextOps, tail: string): seq<string> {
    Normalized(ops.normalize, LastN(InkLines(ops.splitLines(tail)), TRIGRAM_WINDOW))
  }

  // ---------------------------------------------------------------- what a trigger means

  /** The claim a trigger makes about the unbounded history. */
  ghost predicate Holds(c: Config, t: Trigger, h: History) {
    var segments := HistorySegments(c, h);
    match t
    case NoTrigger => true
    case ReasoningCeiling => c.profile.ceiling && Tokens(Utf8Bytes(h.Reasoning())) >= c.ceiling
    case VisibleCeiling => c.profile.visibleCeiling && Tokens(Utf8Bytes(h.visible)) >= c.visibleCeiling
    case HeaderRunaway => c.profile.headerRunaway && TitledPieces(c.ops.isHeader, h.cut) >= HEADER_THRESHOLD
    case VisibleVerbatimTail => c.profile.visibleVerbatim && RepeatsVisibly(LastN(h.visible, TAIL_WINDOW))
    case VisibleTrigramJaccard =>
      c.profile.visibleTrigram && NearDuplicates(VisibleWindow(c.ops, LastN(h.visible, TAIL_WINDOW)), 9, 10)
    case VerbatimTail => c.profile.verbatimTail && RepeatsVerbatim(LastN(h.Reasoning(), TAIL_WINDOW))
    case ProgressStall =>
      && c.profile.progressStall && |segments| >= REPETITION_EVAL_THRESHOLD
      && Stalled(c.ops.hasAnchor, LastN(segments, STALL_WINDOW))
    case TrigramJaccard =>
      && c.profile.trigramJaccard && |segments| >= REPETITION_EVAL_THRESHOLD
      && NearDuplicates(LastN(segments, TRIGRAM_WINDOW), 4, 5)
    case RepetitionMetaIntent =>
      && c.profile.metaIntent && |segments| >= REPETITION_EVAL_THRESHOLD
      && InkCount(h.visible) < VISIBLE_DISABLE_THRESHOLD
      && NarratesInCircles(c.toolNames, LastN(segments, RepetitionWindow(|segments|)))
  }

  // ---------------------------------------------------------------- the decision

  predicate VisibleVerbatimDue(c: Config, v: View, g: Growth) {
    c.profile.visibleVerbatim && |v.visibleTail| >= TAIL_WINDOW && g.visibleTail >= REPEAT_CHARS
  }

  predicate VisibleTrigramDue(c: Config, g: Growth) {
    c.profile.visibleTrigram && g.visibleTrigram >= VISIBLE_TRIGRAM_MIN_GROWTH
  }

  predicate VerbatimDue(c: Config, v: View, g: Growth) {
    c.profile.verbatimTail && |v.tail| >= TAIL_WINDOW && g.tail >= REPEAT_CHARS
  }

  /** The ceilings and the header count need no window. */
  function DecideBudget(c: Config, v: View): Trigger {
    if c.profile.ceiling && Tokens(v.bytes) >= c.ceiling then ReasoningCeiling
    else if c.profile.visibleCeiling && Tokens(v.visibleBytes) >= c.visibleCeiling then VisibleCeiling
    else if c.profile.headerRunaway && v.headers >= HEADER_THRESHOLD then HeaderRunaway
    else NoTrigger
  }

  /** The detectors on the segment ring; they run from 32 segments on. */
  function DecideSegments(c: Config, v: View): Trigger {
    if v.total < REPETITION_EVAL_THRESHOLD then NoTrigger
    else if c.profile.progressStall && Stalled(c.ops.hasAnchor, LastN(v.segments, STALL_WINDOW)) then ProgressStall
    else if c.profile.trigramJaccard && NearDuplicates(LastN(v.segments, TRIGRAM_WINDOW), 4, 5) then TrigramJaccard
    else if v.visibleInk >= VISIBLE_DISABLE_THRESHOLD || !c.profile.metaIntent then NoTrigger
    else if NarratesInCircles(c.toolNames, LastN(v.segments, RepetitionWindow(v.total))) then RepetitionMetaIntent
    else NoTrigger
  }

  /** The detectors on the two tails. A throttled detector restarts its count whenever it runs. */
  function DecideTails(c: Config, v: View, g: Growth): (Trigger, Growth) {
    var g1 := if VisibleVerbatimDue(c, v, g) then g.(visibleTail := 0) else g;
    if VisibleVerbatimDue(c, v, g) && RepeatsVisibly(v.visibleTail) then (VisibleVerbatimTail, g1)
    else
      var g2 := if VisibleTrigramDue(c, g1) then g1.(visibleTrigram := 0) else g1;
      if VisibleTrigramDue(c, g1) && NearDuplicates(VisibleWindow(c.ops, v.visibleTail), 9, 10)
      then (VisibleTrigramJaccard, g2)
      else
        var g3 := if VerbatimDue(c, v, g2) then g2.(tail := 0) else g2;
        if VerbatimDue(c, v, g2) && RepeatsVerbatim(v.tail) then (VerbatimTail, g3) else (NoTrigger, g3)
  }

  /** The whole evaluation order. */
  function Decide(c: Config, v: View, g: Growth): (Trigger, Growth) {
    if DecideBudget(c, v) != NoTrigger then (DecideBudget(c, v), g)
    else
      var tails := DecideTails(c, v, g);
      if tails.0 != NoTrigger then tails else (DecideSegments(c, v), tails.1)
  }

  /** Latching: a set trigger stays, and a started tool call stops every evaluation. */
  function Latch(latched: Trigger, toolStarted: bool, c: Config, v: View, g: Growth): (Trigger, Growth) {
    if latched != NoTrigger || toolStarted then (latched, g) else Decide(c, v, g)
  }

  // ---------------------------------------------------------------- bounded decision, unbounded truth

  lemma DecideBudgetIsTrue(c: Config, v: View, h: History)
    requires Sees(c, v, h)
    ensures Holds(c, DecideBudget(c, v), h)
  {
    hide SegmentsOf, Utf8Bytes, InkCount, LastN, Concat, TitledPieces;
  }

  lemma DecideSegmentsIsTrue(c: Config, v: View, h: History)
    requires Sees(c, v, h)
    ensures Holds(c, DecideSegments(c, v), h)
  {
    hide SegmentsOf, Stalled, NearDuplicates, NarratesInCircles, LastN, Utf8Bytes, InkCount, Concat, TitledPieces;
    var segments := HistorySegments(c, h);
    LastNLastN(segments, STALL_WINDOW, SEGMENT_CAPACITY);
    LastNLastN(segments, TRIGRAM_WINDOW, SEGMENT_CAPACITY);
    LastNLastN(segments, RepetitionWindow(|segments|), SEGMENT_CAPACITY);
  }

  lemma DecideTailsIsTrue(c: Config, v: View, g: Growth, h: History)
    requires Sees(c, v, h)
    ensures Holds(c, DecideTails(c, v, g).0, h)
  {
    hide SegmentsOf, RepeatsVisibly, RepeatsVerbatim, NearDuplicates, VisibleWindow, LastN, Utf8Bytes, InkCount,
         Concat, TitledPieces;
  }

  /** The 128-segment ring and the two 4096-character tails never mislead a detector. */
  lemma DecideIsTrue(c: Config, v: View, g: Growth, h: History)
    requires Sees(c, v, h)
    ensures Holds(c, Decide(c, v, g).0, h)
  {
    hide DecideSegments, DecideBudget, DecideTails, Holds, Sees;
    DecideBudgetIsTrue(c, v, h);
    DecideTailsIsTrue(c, v, g, h);
    DecideSegmentsIsTrue(c, v, h);
  }

  /** The throttled detectors look only at full windows, and not at every delta. */
  predicate Due(c: Config, v: View, g: Growth, t: Trigger) {
    match t
    case NoTrigger => false
    case VisibleVerbatimTail => VisibleVerbatimDue(c, v, g)
    case VisibleTrigramJaccard => VisibleTrigramDue(c, g)
    case VerbatimTail => VerbatimDue(c, v, g)
    case _ => true
  }

  lemma TailsMissNothing(c: Config, v: View, g: Growth, h: History, t: Trigger)
    requires Sees(c, v, h) && DecideTails(c, v, g).0 == NoTrigger
    requires t == VisibleVerbatimTail || t == VisibleTrigramJaccard || t == VerbatimTail
    ensures Due(c, v, g, t) ==> !Holds(c, t, h)
  {
    hide SegmentsOf, RepeatsVisibly, RepeatsVerbatim, NearDuplicates, VisibleWindow, LastN, Utf8Bytes, InkCount,
         Concat, TitledPieces;
  }

  lemma SegmentsMissNothing(c: Config, v: View, h: History, t: Trigger)
    requires Sees(c, v, h) && DecideSegments(c, v) == NoTrigger
    requires t == ProgressStall || t == TrigramJaccard || t == RepetitionMetaIntent
    ensures !Holds(c, t, h)
  {
    hide SegmentsOf, Stalled, NearDuplicates, NarratesInCircles, LastN, Utf8Bytes, InkCount, Concat, TitledPieces;
    var segments := HistorySegments(c, h);
    LastNLastN(segments, STALL_WINDOW, SEGMENT_CAPACITY);
    LastNLastN(segments, TRIGRAM_WINDOW, SEGMENT_CAPACITY);
    LastNLastN(segments, RepetitionWindow(|segments|), SEGMENT_CAPACITY);
  }

  lemma BudgetMissesNothing(c: Config, v: View, h: History, t: Trigger)
    requires Sees(c, v, h) && DecideBudget(c, v) == NoTrigger
    requires t == ReasoningCeiling || t == VisibleCeiling || t == HeaderRunaway
    ensures !Holds(c, t, h)
  {
    hide SegmentsOf, Utf8Bytes, InkCount, LastN, Concat, TitledPieces;
  }

  /** The evaluation fires exactly if some trigger that is due is true of the whole history: the bounded
      state neither misleads a detector nor makes one miss. */
  lemma FiresExactlyWhenTrue(c: Config, v: View, g: Growth, h: History)
    requires Sees(c, v, h)
    ensures Decide(c, v, g).0 != NoTrigger <==> exists t :: Due(c, v, g, t) && Holds(c, t, h)
  {
    hide DecideSegments, DecideBudget, Holds, Sees, VisibleVerbatimDue, VisibleTrigramDue, VerbatimDue;
    var fired := Decide(c, v, g).0;
    if fired != NoTrigger {
      DecideIsTrue(c, v, g, h);
      FiredIsDue(c, v, g);
    } else {
      forall t | Due(c, v, g, t) ensures !Holds(c, t, h) {
        match t
        case VisibleVerbatimTail => TailsMissNothing(c, v, g, h, t);
        case VisibleTrigramJaccard => TailsMissNothing(c, v, g, h, t);
        case VerbatimTail => TailsMissNothing(c, v, g, h, t);
        case ProgressStall => SegmentsMissNothing(c, v, h, t);
        case TrigramJaccard => SegmentsMissNothing(c, v, h, t);
        case RepetitionMetaIntent => SegmentsMissNothing(c, v, h, t);
        case _ => BudgetMissesNothing(c, v, h, t);
      }
    }
  }

  lemma FiredIsDue(c: Config, v: View, g: Growth)
    ensures Decide(c, v, g).0 != NoTrigger ==> Due(c, v, g, Decide(c, v, g).0)
  {
    hide RepeatsVisibly, RepeatsVerbatim, NearDuplicates, VisibleWindow, Stalled, NarratesInCircles, LastN;
  }

  /** No budget is left exceeded by an evaluation that latches nothing. */
  lemma NothingLatchedWithinBudget(c: Config, v: View, g: Growth)
    requires Decide(c, v, g).0 == NoTrigger
    ensures c.profile.ceiling ==> Tokens(v.bytes) < c.ceiling
    ensures c.profile.visibleCeiling ==> Tokens(v.visibleBytes) < c.visibleCeiling
    ensures c.profile.headerRunaway ==> v.headers < HEADER_THRESHOLD
  {
    hide DecideSegments, DecideTails;
  }

  /** A verbatim trigger exhibits an earlier copy of the last 180 characters. */
  lemma VerbatimTailMeans(c: Config, h: History)
    requires Holds(c, VerbatimTail, h)
    ensures |h.Reasoning()| >= TAIL_WINDOW
    ensures exists i ::
              && |h.Reasoning()| - TAIL_WINDOW <= i && i + 2 * REPEAT_CHARS <= |h.Reasoning()|
              && OccursAt(h.Reasoning(), LastN(h.Reasoning(), REPEAT_CHARS), i)
  {
    hide SegmentsOf, Stalled, NearDuplicates, NarratesInCircles, VisibleWindow, RepeatsVisibly, Utf8Bytes, Concat,
         TitledPieces;
    var r := h.Reasoning();
    var tail := LastN(r, TAIL_WINDOW);
    var front, block := tail[..|tail| - REPEAT_CHARS], tail[|tail| - REPEAT_CHARS..];
    assert RepeatsVerbatim(tail);
    var i :| 0 <= i <= |front| && OccursAt(front, block, i);
    CutOfTail(r, i);
  }

  /** Where all finished lines count the same in every cut, a header trigger speaks of the text alone; and
      without lines of 240 characters it says that so many finished lines look like titles. */
  lemma HeaderRunawayMeans(c: Config, h: History)
    requires c.profile.headerRunaway
    ensures LinesAgree(c.ops.isHeader, h.Reasoning()) ==>
            (Holds(c, HeaderRunaway, h) <==> Flushed(c.ops.isHeader, h.Reasoning()) >= HEADER_THRESHOLD)
    ensures ShortLines(h.Reasoning()) ==>
            (Holds(c, HeaderRunaway, h) <==> HeaderCount(c.ops.isHeader, Finished(h.Reasoning())) >= HEADER_THRESHOLD)
  {
    hide SegmentsOf, Concat, TitledPieces, LinesAgree, Flushed, Finished, ShortLines, HeaderCount;
    if LinesAgree(c.ops.isHeader, h.Reasoning()) { AgreeingCuts(c.ops.isHeader, h.cut); }
    if ShortLines(h.Reasoning()) { ShortLinesAgree(c.ops.isHeader, h.cut); }
  }

  lemma CutOfTail(r: string, i: nat)
    requires |r| >= TAIL_WINDOW && i + 2 * REPEAT_CHARS <= TAIL_WINDOW
    requires var tail := r[|r| - TAIL_WINDOW..];
             OccursAt(tail[..|tail| - REPEAT_CHARS], tail[|tail| - REPEAT_CHARS..], i)
    ensures OccursAt(r, LastN(r, REPEAT_CHARS), |r| - TAIL_WINDOW + i)
  {
    CutOfSuffix(r, |r| - TAIL_WINDOW, TAIL_WINDOW - REPEAT_CHARS, i, REPEAT_CHARS);
  }

  lemma CutOfSuffix(r: string, from: nat, n: nat, i: nat, m: nat)
    requires from + n <= |r| && i + m <= n
    ensures r[from..][..n][i..i + m] == r[from + i..from + i + m]
    ensures r[from..][n..] == r[from + n..]
  {
  }

  /** A visible verbatim trigger exhibits three disjoint copies in the last 4096 characters. */
  lemma VisibleVerbatimTailMeans(c: Config, h: History) returns (starts: seq<nat>)
    requires Holds(c, VisibleVerbatimTail, h)
    ensures |h.visible| >= TAIL_WINDOW && |starts| >= VISIBLE_MIN_OCCURRENCES
    ensures var tail := LastN(h.visible, TAIL_WINDOW);
            Disjoint(tail, tail[|tail| - REPEAT_CHARS..], starts, 0)
  {
    hide SegmentsOf, Stalled, NearDuplicates, NarratesInCircles, VisibleWindow, RepeatsVerbatim, Utf8Bytes, Count,
         Concat, TitledPieces;
    var tail := LastN(h.visible, TAIL_WINDOW);
    assert RepeatsVisibly(tail);
    starts := CountIsDisjoint(tail, tail[|tail| - REPEAT_CHARS..]);
  }
}
