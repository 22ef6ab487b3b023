/** Cutting a report for the chat: on a structural boundary, and never with a code fence left open. */
module Preview {
  import opened Wrappers
  import opened Text

  const NOTE := "\n\n\U{2026}(truncated; write the full report to view the rest)\U{2026}"

  predicate IsFence(line: string) {
    StartsWith(LStrip(line), "```")
  }

  function FenceCount(lines: seq<string>): nat {
    if |lines| == 0 then 0
    else FenceCount(lines[..|lines| - 1]) + if IsFence(lines[|lines| - 1]) then 1 else 0
  }

  predicate Open(lines: seq<string>) {
    FenceCount(lines) % 2 == 1
  }

  /** Where the currently open block opened, if one is open. */
  function OpenedAt(lines: seq<string>): (i: Option<nat>)
    ensures i.Some? ==> i.value < |lines|
  {
    if |lines| == 0 then None
    else
      var n := |lines| - 1;
      if !IsFence(lines[n]) then OpenedAt(lines[..n])
      else if OpenedAt(lines[..n]).Some? then None
      else Some(n)
  }

  /** A block is open exactly after an odd number of fences, and before its fence none is. */
  lemma {:induction false} OpenBlock(lines: seq<string>)
    ensures OpenedAt(lines).Some? <==> Open(lines)
    ensures OpenedAt(lines).Some? ==>
              IsFence(lines[OpenedAt(lines).value]) && !Open(lines[..OpenedAt(lines).value])
  {
    hide IsFence;
    if |lines| > 0 {
      var n := |lines| - 1;
      OpenBlock(lines[..n]);
      if OpenedAt(lines).Some? {
        var i := OpenedAt(lines).value;
        assert lines[..n][..if i < n then i else n] == lines[..i];
      }
    }
  }

  /** Characters used by lines 0 to k, each with its line end. */
  function Consumed(lines: seq<string>, k: nat): nat
    requires k < |lines|
  {
    |lines[k]| + 1 + if k == 0 then 0 else Consumed(lines, k - 1)
  }

  /** The preview may stop after line k: late enough, outside a block, before a blank line or a fence. */
  predicate StopsAfter(lines: seq<string>, cap: nat, k: nat) {
    && k + 1 < |lines|
    && !IsFence(lines[k])
    && 100 * Consumed(lines, k) >= 85 * cap
    && !Open(lines[..k + 1])
    && (Blank(lines[k + 1]) || IsFence(lines[k + 1]))
  }

  /** Lines kept: up to the first place to stop from `k` on, or all of them. */
  function KeptFrom(lines: seq<string>, cap: nat, k: nat): (kept: nat)
    requires k <= |lines|
    ensures kept <= |lines|
    decreases |lines| - k
  {
    if k >= |lines| || StopsAfter(lines, cap, k) then (if k >= |lines| then |lines| else k + 1)
    else KeptFrom(lines, cap, k + 1)
  }

  /** The lines kept end at the very first place to stop, or nowhere before the end. */
  lemma {:induction false} KeptIsFirstStop(lines: seq<string>, cap: nat, k: nat)
    requires k <= |lines|
    ensures var kept := KeptFrom(lines, cap, k);
            && (forall i | k <= i < kept - 1 :: !StopsAfter(lines, cap, i))
            && (if kept == |lines| then forall i | k <= i < |lines| :: !StopsAfter(lines, cap, i)
                else kept > k && StopsAfter(lines, cap, kept - 1))
    decreases |lines| - k
  {
    hide StopsAfter;
    if k < |lines| {
      if StopsAfter(lines, cap, k) {
        StopIsBeforeEnd(lines, cap, k);
      } else {
        KeptIsFirstStop(lines, cap, k + 1);
      }
    }
  }

  lemma StopIsBeforeEnd(lines: seq<string>, cap: nat, k: nat)
    requires StopsAfter(lines, cap, k)
    ensures k + 1 < |lines|
  {
  }

  /** How many lines the preview keeps: none of an unclosed block. */
  function KeptLines(lines: seq<string>, cap: nat): (n: nat)
    ensures n <= |lines|
  {
    var kept := KeptFrom(lines, cap, 0);
    var unclosed := OpenedAt(lines[..kept]);
    if unclosed.Some? then unclosed.value else kept
  }

  function PreviewOf(body: string, cap: nat): string {
    if |body| <= cap then body
    else
      var lines := Lines(body[..cap]);
      RStrip(JoinLines(lines[..KeptLines(lines, cap)])) + NOTE
  }

  // ---------------------------------------------------------------- the two passes

  /** First pass: the line numbers of all opening fences. */
  method OpeningFences(lines: seq<string>) returns (openings: seq<nat>)
    ensures Open(lines) ==> openings != []
    ensures Open(lines) ==> OpenedAt(lines) == Some(openings[|openings| - 1])
    ensures forall i, j | 0 <= i < j < |openings| :: openings[i] < openings[j]
  {
    hide IsFence;
    openings := [];
    var open := false;
    var i := 0;
    while i < |lines|
      invariant i <= |lines| && open == Open(lines[..i])
      invariant open ==> openings != [] && OpenedAt(lines[..i]) == Some(openings[|openings| - 1])
      invariant forall a | 0 <= a < |openings| :: openings[a] < i
      invariant forall a, b | 0 <= a < b < |openings| :: openings[a] < openings[b]
    {
      PassStep(lines, i);
      if IsFence(lines[i]) {
        if !open {
          open := true;
          openings := openings + [i];
        } else {
          open := false;
        }
      }
      i := i + 1;
    }
    assert lines[..i] == lines;
  }

  /** One line of a pass: a fence toggles, other lines change nothing. */
  lemma PassStep(lines: seq<string>, i: nat)
    requires i < |lines|
    ensures FenceCount(lines[..i + 1]) == FenceCount(lines[..i]) + if IsFence(lines[i]) then 1 else 0
    ensures IsFence(lines[i]) && !Open(lines[..i]) ==> OpenedAt(lines[..i + 1]) == Some(i)
    ensures !IsFence(lines[i]) ==> OpenedAt(lines[..i + 1]) == OpenedAt(lines[..i])
  {
    hide IsFence;
    assert lines[..i + 1][..i] == lines[..i];
    OpenBlock(lines[..i]);
  }

  /** Second pass: how many lines to keep, and whether a block is open after them. */
  method KeepLines(lines: seq<string>, cap: nat) returns (kept: nat, open: bool)
    requires lines != []
    ensures kept == KeptFrom(lines, cap, 0) && open == Open(lines[..kept])
    ensures open ==> kept == |lines|
  {
    hide IsFence, Blank, Strip, Consumed, KeptFrom, FenceCount, StopsAfter;
    open := false;
    var consumed := 0;
    kept := 0;
    NoFenceYet(lines);
    while kept < |lines|
      invariant kept <= |lines| && open == Open(lines[..kept])
      invariant consumed == ConsumedBefore(lines, kept)
      invariant KeptFrom(lines, cap, 0) == KeptFrom(lines, cap, kept)
    {
      PassStep(lines, kept);
      KeptStep(lines, cap, kept);
      StopsWhen(lines, cap, kept);
      consumed := consumed + |lines[kept]| + 1;
      if IsFence(lines[kept]) {
        open := !open;
      } else if kept + 1 < |lines| && 100 * consumed >= 85 * cap && !open
           && (Strip(lines[kept + 1]) == "" || IsFence(lines[kept + 1])) {
        kept := kept + 1;
        return;
      }
      kept := kept + 1;
    }
    assert KeptFrom(lines, cap, kept) == |lines| by { KeptAtEnd(lines, cap); }
  }

  function ConsumedBefore(lines: seq<string>, k: nat): nat
    requires k <= |lines|
  {
    if k == 0 then 0 else Consumed(lines, k - 1)
  }

  lemma NoFenceYet(lines: seq<string>)
    ensures !Open(lines[..0])
  {
  }

  lemma KeptStep(lines: seq<string>, cap: nat, k: nat)
    requires k < |lines|
    ensures KeptFrom(lines, cap, k) == if StopsAfter(lines, cap, k) then k + 1 else KeptFrom(lines, cap, k + 1)
  {
    hide StopsAfter;
  }

  lemma KeptAtEnd(lines: seq<string>, cap: nat)
    ensures KeptFrom(lines, cap, |lines|) == |lines|
  {
  }

  /** The place to stop, as the pass sees it. */
  lemma StopsWhen(lines: seq<string>, cap: nat, k: nat)
    requires k < |lines|
    ensures ConsumedBefore(lines, k + 1) == ConsumedBefore(lines, k) + |lines[k]| + 1
    ensures StopsAfter(lines, cap, k)
       <==> && !IsFence(lines[k]) && k + 1 < |lines|
            && 100 * ConsumedBefore(lines, k + 1) >= 85 * cap && !Open(lines[..k + 1])
            && (Strip(lines[k + 1]) == "" || IsFence(lines[k + 1]))
  {
    hide IsFence, FenceCount, Blank, Strip;
    if k + 1 < |lines| { StripBlank(lines[k + 1]); }
  }

  method TruncateReportPreview(body: string, cap: nat) returns (preview: string)
    ensures preview == PreviewOf(body, cap)
  {
    hide IsFence, RStrip, KeptFrom, Lines, JoinLines;
    if |body| <= cap { return body; }
    var lines := Lines(body[..cap]);
    var openings := OpeningFences(lines);
    var kept, open := KeepLines(lines, cap);
    var out := JoinLines(lines[..kept]);
    OpenBlock(lines[..kept]);
    if open {
      assert lines[..kept] == lines;
      out := RStrip(JoinLines(lines[..openings[|openings| - 1]]));
      RStripTwice(JoinLines(lines[..openings[|openings| - 1]]));
    }
    preview := RStrip(out) + NOTE;
  }

  lemma RStripTwice(s: string)
    ensures RStrip(RStrip(s)) == RStrip(s)
  {
  }

  // ---------------------------------------------------------------- what a preview guarantees

  /** Some first lines of a text are a prefix of it. */
  lemma {:induction false} FirstLinesArePrefix(lines: seq<string>, k: nat)
    requires k <= |lines|
    ensures JoinLines(lines[..k]) <= JoinLines(lines)
  {
    if k == 0 {
      assert lines[..0] == [];
    } else if k < |lines| {
      FirstLinesArePrefix(lines[1..], k - 1);
      assert lines[1..][..k - 1] == lines[..k][1..];
      JoinSplit(lines, k);
    } else {
      assert lines[..k] == lines;
    }
  }

  lemma JoinSplit(lines: seq<string>, k: nat)
    requires 0 < k < |lines| && JoinLines(lines[..k][1..]) <= JoinLines(lines[1..])
    ensures JoinLines(lines[..k]) <= JoinLines(lines)
  {
    hide JoinLines;
    assert JoinLines(lines) == lines[0] + "\n" + JoinLines(lines[1..]) by { JoinTwo(lines); }
    if k == 1 {
      assert lines[..1] == [lines[0]];
      assert JoinLines(lines[..1]) == lines[0] by { JoinOne(lines[0]); }
    } else {
      JoinTwo(lines[..k]);
    }
  }

  lemma JoinTwo(lines: seq<string>)
    requires |lines| > 1
    ensures JoinLines(lines) == lines[0] + "\n" + JoinLines(lines[1..])
  {
  }

  lemma {:induction false} FenceCountAppend(a: seq<string>, b: seq<string>)
    ensures FenceCount(a + b) == FenceCount(a) + FenceCount(b)
  {
    hide IsFence;
    if |b| == 0 {
      assert a + b == a;
    } else {
      FenceCountAppend(a, b[..|b| - 1]);
      assert (a + b)[..|a| + |b| - 1] == a + b[..|b| - 1];
    }
  }

  /** Cutting white space off the end of a line makes no fence and breaks none. */
  lemma {:induction false} FenceIgnoresEndSpace(line: string)
    requires line != "" && IsSpace(line[|line| - 1])
    ensures IsFence(line[..|line| - 1]) <==> IsFence(line)
  {
    hide IsSpace, IsFence;
    var n := |line| - 1;
    if !IsSpace(line[0]) {
      InkedEndSpace(line);
    } else if n == 0 {
      assert line[..0] == "" && line[1..] == "";
      SpaceBefore(line);
    } else {
      FenceIgnoresEndSpace(line[1..]);
      assert line[1..][..n - 1] == line[..n][1..];
      SpaceBefore(line);
      SpaceBefore(line[..n]);
    }
  }

  lemma SpaceBefore(line: string)
    requires line != "" && IsSpace(line[0])
    ensures IsFence(line) <==> IsFence(line[1..])
  {
    hide IsSpace;
  }

  lemma InkedEndSpace(line: string)
    requires line != "" && !IsSpace(line[0]) && IsSpace(line[|line| - 1])
    ensures IsFence(line[..|line| - 1]) <==> IsFence(line)
  {
    hide IsFence;
    var n := |line| - 1;
    InkedFence(line);
    InkedFence(line[..n]);
    if n >= 3 {
      assert line[..n][..3] == line[..3];
    } else if n == 2 {
      assert line[..3][2] == line[2];
    }
  }

  lemma InkedFence(line: string)
    requires line != "" ==> !IsSpace(line[0])
    ensures IsFence(line) <==> |line| >= 3 && line[..3] == "```"
  {
    hide IsSpace;
  }

  lemma FencesIgnoreEndSpace(s: string)
    requires s != "" && IsSpace(s[|s| - 1])
    ensures FenceCount(Lines(s[..|s| - 1])) == FenceCount(Lines(s))
  {
    hide IsFence, IsSpace, Lines;
    var init, last := s[..|s| - 1], [s[|s| - 1]];
    assert s == init + last;
    LinesAppend(init, last);
    var ls := Lines(init);
    var head, tail := ls[..|ls| - 1], ls[|ls| - 1];
    assert ls == head + [tail];
    FenceCountAppend(head, [tail]);
    FenceCountAppend(head, Lines(tail + last));
    LastLineEnds(tail, last[0]);
  }

  /** What one more space character at the end does to the last line. */
  lemma LastLineEnds(line: string, c: char)
    requires '\n' !in line && IsSpace(c)
    ensures FenceCount(Lines(line + [c])) == FenceCount([line])
  {
    hide IsFence, IsSpace;
    if c == '\n' {
      assert Lines(line + [c]) == [line, ""] by { LinesOfLineAndEnd(line); }
      FenceCountAppend([line], [""]);
      assert [line] + [""] == [line, ""];
      assert FenceCount([""]) == 0 by { BlankIsNoFence(); }
    } else {
      NewlineAtUnique(line + [c], |line| + 1);
      assert Lines(line + [c]) == [line + [c]];
      assert (line + [c])[..|line|] == line;
      FenceIgnoresEndSpace(line + [c]);
      OneFence(line);
      OneFence(line + [c]);
    }
  }

  lemma OneFence(line: string)
    ensures FenceCount([line]) == if IsFence(line) then 1 else 0
  {
    hide IsFence;
    assert [line][..0] == [];
  }

  lemma BlankIsNoFence()
    ensures FenceCount([""]) == 0
  {
    assert [""][..0] == [];
  }

  lemma LinesOfLineAndEnd(line: string)
    requires '\n' !in line
    ensures Lines(line + "\n") == [line, ""]
  {
    NewlineAtUnique(line + "\n", |line|);
    assert (line + "\n")[..|line|] == line && (line + "\n")[|line| + 1..] == "";
    assert Lines("") == [""];
  }

  lemma {:induction false} TrimmingKeepsFences(s: string)
    ensures FenceCount(Lines(RStrip(s))) == FenceCount(Lines(s))
  {
    hide IsFence, IsSpace, Lines, FenceCount;
    if s != "" && IsSpace(s[|s| - 1]) {
      FencesIgnoreEndSpace(s);
      TrimmingKeepsFences(s[..|s| - 1]);
    }
  }

  lemma KeptLinesAreBalanced(lines: seq<string>, cap: nat)
    ensures !Open(lines[..KeptLines(lines, cap)])
  {
    hide IsFence, KeptFrom;
    var kept := KeptFrom(lines, cap, 0);
    var unclosed := OpenedAt(lines[..kept]);
    OpenBlock(lines[..kept]);
    if unclosed.Some? { assert lines[..kept][..unclosed.value] == lines[..unclosed.value]; }
  }

  /** A body over the cap becomes a right-trimmed prefix of it, within the cap, with every code fence
      closed, followed by the note. */
  lemma PreviewIsBalancedPrefix(body: string, cap: nat)
    requires |body| > cap
    ensures exists out ::
              && PreviewOf(body, cap) == out + NOTE
              && out <= body && |out| <= cap && RStrip(out) == out
              && FenceCount(Lines(out)) % 2 == 0
  {
    hide IsFence, Lines, KeptLines, FenceCount, RStrip, JoinLines, NOTE;
    var lines := Lines(body[..cap]);
    var k := KeptLines(lines, cap);
    var joined := JoinLines(lines[..k]);
    var out := RStrip(joined);
    FirstLinesArePrefix(lines, k);
    JoinOfLines(body[..cap]);
    RStripTwice(joined);
    TrimmingKeepsFences(joined);
    KeptLinesAreBalanced(lines, cap);
    if k > 0 {
      LinesHaveNoNewline(body[..cap], k);
      LinesOfJoin(lines[..k]);
    } else {
      assert lines[..0] == [];
      NothingKept();
    }
    assert out <= body && |out| <= cap by { PrefixOfPrefix(out, joined, body, cap); }
    assert PreviewOf(body, cap) == out + NOTE;
  }

  lemma LinesHaveNoNewline(s: string, k: nat)
    requires k <= |Lines(s)|
    ensures forall l | l in Lines(s)[..k] :: '\n' !in l
  {
    hide Lines;
  }

  lemma NothingKept()
    ensures FenceCount(Lines(JoinLines([]))) == 0
  {
    BlankIsNoFence();
    assert Lines("") == [""];
  }

  lemma PrefixOfPrefix(out: string, joined: string, body: string, cap: nat)
    requires cap <= |body| && out == RStrip(joined) && joined <= body[..cap]
    ensures out <= body && |out| <= cap
  {
    hide RStrip;
    assert out == joined[..|out|];
  }
}
