/** The pure detectors of the loop guard, on a window of segments or a tail. */
module Detectors {
  import opened Text

  const TRIGRAM_WINDOW: nat := 16
  const STALL_WINDOW: nat := 8
  const TAIL_WINDOW: nat := 4096
  const REPEAT_CHARS: nat := 180
  const VISIBLE_MIN_OCCURRENCES: nat := 3
  const REPETITION_WINDOW_CAP: nat := 64
  const META_INTENT_MIN_COUNT: nat := 8

  const ACTION_TERMS: set<string> := {"call", "calling", "execute", "executing", "emit", "output", "outputting"}
  const TOOL_TERMS: set<string> := {"tool", "invoke", "function", "parallel"}

  predicate OccursAt(s: string, block: string, i: nat) {
    i + |block| <= |s| && s[i..i + |block|] == block
  }

  predicate Contains(s: string, block: string) {
    exists i | 0 <= i <= |s| :: OccursAt(s, block, i)
  }

  // ---------------------------------------------------------------- near-duplicates

  function Trigrams(s: string): set<string> {
    set i | 0 <= i < |s| - 2 :: TrigramAt(s, i)
  }

  function TrigramAt(s: string, i: nat): string
    requires i + 3 <= |s|
  {
    s[i..i + 3]
  }

  /** Jaccard similarity of at least num/den; an empty side is never similar. */
  predicate Similar(a: set<string>, b: set<string>, num: nat, den: nat) {
    a != {} && b != {} && den * |a * b| >= num * |a + b|
  }

  /** Adjacent pairs of the window that are near-duplicates. */
  function PairsMatched(window: seq<string>, num: nat, den: nat): nat {
    if |window| < 2 then 0
    else
      (if Similar(Trigrams(window[0]), Trigrams(window[1]), num, den) then 1 else 0)
      + PairsMatched(window[1..], num, den)
  }

  /** A window of 16 in which at least num/den of the adjacent pairs are near-duplicates to num/den. */
  predicate NearDuplicates(window: seq<string>, num: nat, den: nat) {
    |window| == TRIGRAM_WINDOW && den * PairsMatched(window, num, den) >= num * (TRIGRAM_WINDOW - 1)
  }

  // ---------------------------------------------------------------- verbatim repeats

  /** The last block of the tail already occurs before it. */
  predicate RepeatsVerbatim(tail: string) {
    |tail| >= TAIL_WINDOW
    && Contains(tail[..|tail| - REPEAT_CHARS], tail[|tail| - REPEAT_CHARS..])
  }

  /** Python's `str.count`: occurrences taken left to right without overlap. */
  function Count(s: string, block: string): nat
    requires |block| > 0
    decreases |s|
  {
    if |s| < |block| then 0
    else if s[..|block|] == block then 1 + Count(s[|block|..], block)
    else Count(s[1..], block)
  }

  predicate RepeatsVisibly(tail: string) {
    |tail| >= TAIL_WINDOW
    && Count(tail, tail[|tail| - REPEAT_CHARS..]) >= VISIBLE_MIN_OCCURRENCES
  }

  /** Starts of occurrences that do not overlap, in order, all at or after `from`. */
  ghost predicate Disjoint(s: string, block: string, starts: seq<nat>, from: nat) {
    |starts| > 0 ==>
      && from <= starts[0] && OccursAt(s, block, starts[0])
      && Disjoint(s, block, starts[1..], starts[0] + |block|)
  }

  lemma {:induction false} DisjointShift(p: string, s: string, block: string, starts: seq<nat>, shifted: seq<nat>,
      from: nat)
    requires Disjoint(s, block, starts, from)
    requires |shifted| == |starts| && forall k | 0 <= k < |starts| :: shifted[k] == starts[k] + |p|
    ensures Disjoint(p + s, block, shifted, from + |p|)
    decreases |starts|
  {
    if |starts| > 0 {
      var i := starts[0];
      assert (p + s)[i + |p|..i + |p| + |block|] == s[i..i + |block|];
      DisjointShift(p, s, block, starts[1..], shifted[1..], i + |block|);
    }
  }

  /** A count is backed by that many disjoint occurrences. */
  lemma {:induction false} CountIsDisjoint(s: string, block: string) returns (starts: seq<nat>)
    requires |block| > 0
    ensures |starts| == Count(s, block) && Disjoint(s, block, starts, 0)
    decreases |s|
  {
    if |s| < |block| {
      starts := [];
    } else {
      var step := if s[..|block|] == block then |block| else 1;
      var rest := CountIsDisjoint(s[step..], block);
      var moved: seq<nat> := seq(|rest|, k requires 0 <= k < |rest| => rest[k] + step);
      CutAndJoin(s, step);
      DisjointShift(s[..step], s[step..], block, rest, moved, 0);
      if step == |block| && s[..|block|] == block {
        starts := [0] + moved;
        assert starts[1..] == moved;
      } else {
        starts := moved;
        DisjointFromEarlier(s, block, moved, 1, 0);
      }
    }
  }

  lemma DisjointFromEarlier(s: string, block: string, starts: seq<nat>, from: nat, earlier: nat)
    requires Disjoint(s, block, starts, from) && earlier <= from
    ensures Disjoint(s, block, starts, earlier)
  {
  }

  /** Taking occurrences left to right finds as many as any disjoint choice. */
  lemma {:induction false} CountIsMaximal(s: string, block: string, starts: seq<nat>)
    requires |block| > 0 && Disjoint(s, block, starts, 0)
    ensures |starts| <= Count(s, block)
    decreases |s|
  {
    if |starts| > 0 {
      var step := if s[..|block|] == block then |block| else 1;
      if step == |block| && s[..|block|] == block {
        var tail := starts[1..];
        DisjointFromEarlier(s, block, tail, starts[0] + |block|, step);
        DisjointDrop(s, block, tail, step);
        var moved := Moved(tail, step);
        CountIsMaximal(s[step..], block, moved);
      } else {
        assert starts[0] != 0;
        DisjointFromEarlierStart(s, block, starts);
        DisjointDrop(s, block, starts, 1);
        CountIsMaximal(s[1..], block, Moved(starts, 1));
      }
    }
  }

  lemma DisjointFromEarlierStart(s: string, block: string, starts: seq<nat>)
    requires Disjoint(s, block, starts, 0) && |starts| > 0 && starts[0] != 0
    ensures Disjoint(s, block, starts, 1)
  {
  }

  /** Starts counted from `step` characters later. */
  ghost function Moved(starts: seq<nat>, step: nat): (r: seq<nat>)
    ensures |r| == |starts|
  {
    seq(|starts|, k requires 0 <= k < |starts| => if starts[k] < step then 0 else starts[k] - step)
  }

  lemma {:induction false} DisjointDropFrom(s: string, block: string, starts: seq<nat>, step: nat, from: nat)
    requires step <= |s| && step <= from && Disjoint(s, block, starts, from)
    ensures Disjoint(s[step..], block, Moved(starts, step), from - step)
    decreases |starts|
  {
    if |starts| > 0 {
      var i := starts[0];
      assert s[step..][i - step..i - step + |block|] == s[i..i + |block|];
      DisjointDropFrom(s, block, starts[1..], step, i + |block|);
      assert Moved(starts, step)[1..] == Moved(starts[1..], step);
    }
  }

  lemma DisjointDrop(s: string, block: string, starts: seq<nat>, step: nat)
    requires step <= |s| && Disjoint(s, block, starts, step)
    ensures Disjoint(s[step..], block, Moved(starts, step), 0)
  {
    DisjointDropFrom(s, block, starts, step, step);
  }

  // ---------------------------------------------------------------- progress stall

  function TrigramsOfAll(window: seq<string>): set<string> {
    if |window| == 0 then {} else TrigramsOfAll(window[..|window| - 1]) + Trigrams(window[|window| - 1])
  }

  /** At most a fifth of the trigrams are new. */
  predicate LittleNew(tri: set<string>, known: set<string>) {
    5 * |tri - known| <= if |tri| > 1 then |tri| else 1
  }

  /** Segment `i` adds almost nothing to those before it. */
  predicate LowNovelty(window: seq<string>, i: nat)
    requires i < |window|
  {
    LittleNew(Trigrams(window[i]), TrigramsOfAll(window[..i]))
  }

  /** Every segment of the window but the first adds nothing new and names no anchor. */
  predicate Stalled(hasAnchor: string -> bool, window: seq<string>) {
    && |window| == STALL_WINDOW
    && (forall i | 1 <= i < |window| :: LowNovelty(window, i))
    && (forall i | 1 <= i < |window| :: !hasAnchor(window[i]))
  }

  lemma TrigramsOfPrefix(window: seq<string>, i: nat)
    requires i < |window|
    ensures TrigramsOfAll(window[..i + 1]) == TrigramsOfAll(window[..i]) + Trigrams(window[i])
  {
    assert window[..i + 1][..i] == window[..i];
  }

  /** How many segments after the first, among the first `n`, add almost nothing. */
  function LowCount(window: seq<string>, n: nat): (c: nat)
    requires n <= |window|
    ensures c <= if n == 0 then 0 else n - 1
    ensures n > 0 ==> (c == n - 1 <==> forall k | 1 <= k < n :: LowNovelty(window, k))
  {
    if n <= 1 then 0 else LowCount(window, n - 1) + if LowNovelty(window, n - 1) then 1 else 0
  }

  lemma NoTrigrams(window: seq<string>)
    ensures TrigramsOfAll(window[..0]) == {}
  {
  }

  lemma LowCountStep(window: seq<string>, i: nat)
    requires i < |window|
    ensures LowCount(window, 0) == 0
    ensures LowCount(window, i + 1) == LowCount(window, i) + if i > 0 && LowNovelty(window, i) then 1 else 0
  {
  }

  method ProgressStalled(hasAnchor: string -> bool, window: seq<string>) returns (stalled: bool)
    requires |window| <= STALL_WINDOW
    ensures stalled <==> Stalled(hasAnchor, window)
  {
    hide LittleNew, Trigrams, TrigramsOfAll, LowCount;
    if |window| < STALL_WINDOW { return false; }
    assert TrigramsOfAll(window[..0]) == {} by { NoTrigrams(window); }
    LowCountStep(window, 0);
    var known: set<string> := {};
    var low := 0;
    var i := 0;
    while i < |window|
      invariant 0 <= i <= |window|
      invariant known == TrigramsOfAll(window[..i])
      invariant low == LowCount(window, i)
    {
      var tri := Trigrams(window[i]);
      if i > 0 && LittleNew(tri, known) {
        low := low + 1;
      }
      LowCountStep(window, i);
      TrigramsOfPrefix(window, i);
      known := known + tri;
      i := i + 1;
    }
    if low < STALL_WINDOW - 1 { return false; }
    stalled := forall k | 1 <= k < |window| :: !hasAnchor(window[k]);
  }

  // ---------------------------------------------------------------- meta intent

  /** The segment names both an action and a tool. */
  predicate MetaIntent(toolNames: seq<string>, segment: string) {
    && (exists t | t in ACTION_TERMS :: Contains(segment, t))
    && ((exists n | n in toolNames :: Contains(segment, n)) || (exists t | t in TOOL_TERMS :: Contains(segment, t)))
  }

  function MetaCount(toolNames: seq<string>, window: seq<string>): nat {
    if |window| == 0 then 0
    else (if MetaIntent(toolNames, window[0]) then 1 else 0) + MetaCount(toolNames, window[1..])
  }

  /** Positions of `part` whose segment occurs at least twice in `whole`. */
  function RepeatedCount(part: seq<string>, whole: seq<string>): nat {
    if |part| == 0 then 0
    else (if multiset(whole)[part[0]] >= 2 then 1 else 0) + RepeatedCount(part[1..], whole)
  }

  function RepetitionWindow(total: nat): nat {
    if total < REPETITION_WINDOW_CAP then total else REPETITION_WINDOW_CAP
  }

  /** At least 60 % of the window repeats and at least 8 segments narrate a tool call. */
  predicate NarratesInCircles(toolNames: seq<string>, window: seq<string>) {
    && 5 * RepeatedCount(window, window) >= 3 * |window|
    && MetaCount(toolNames, window) >= META_INTENT_MIN_COUNT
  }
}
