/** Cutting reasoning text into segments: the reference, over the whole text,
    and the proof that a bounded partial-line buffer loses nothing. */
module Segments {
  import opened Text

  const MAX_SEGMENT_CHARS: nat := 240

  /** A line cut into pieces of at most 240 characters. */
  function Chunks(line: string): seq<string> {
    if line == "" then [] else if |line| <= MAX_SEGMENT_CHARS then [line]
    else [line[..MAX_SEGMENT_CHARS]] + Chunks(line[MAX_SEGMENT_CHARS..])
  }

  /** Only the pieces of exactly 240 characters. */
  function FullChunks(line: string): seq<string> {
    if |line| < MAX_SEGMENT_CHARS then []
    else [line[..MAX_SEGMENT_CHARS]] + FullChunks(line[MAX_SEGMENT_CHARS..])
  }

  /** What the full pieces leave over. */
  function Residue(line: string): (r: string)
    ensures |r| < MAX_SEGMENT_CHARS
  {
    if |line| < MAX_SEGMENT_CHARS then line else Residue(line[MAX_SEGMENT_CHARS..])
  }

  function ChunksOfAll(lines: seq<string>): seq<string> {
    if |lines| == 0 then [] else Chunks(lines[0]) + ChunksOfAll(lines[1..])
  }

  /** The raw segments of a text: every finished line whole, the open line in full pieces only. */
  function RawSegments(text: string): seq<string> {
    var ls := Lines(text);
    ChunksOfAll(ls[..|ls| - 1]) + FullChunks(ls[|ls| - 1])
  }

  /** The part of the open line that is not a segment yet. */
  function Pending(text: string): (r: string)
    ensures |r| < MAX_SEGMENT_CHARS
  {
    var ls := Lines(text);
    Residue(ls[|ls| - 1])
  }

  /** Normalized segments; blank ones are dropped. */
  function Normalized(normalize: string -> string, raw: seq<string>): seq<string> {
    if |raw| == 0 then []
    else
      var first := normalize(raw[0]);
      (if first == "" then [] else [first]) + Normalized(normalize, raw[1..])
  }

  /** The reference segmentation of a whole reasoning text. */
  function SegmentsOf(normalize: string -> string, text: string): seq<string> {
    Normalized(normalize, RawSegments(text))
  }

  lemma {:induction false} NormalizedAppend(normalize: string -> string, a: seq<string>, b: seq<string>)
    ensures Normalized(normalize, a + b) == Normalized(normalize, a) + Normalized(normalize, b)
  {
    if |a| == 0 {
      assert a + b == b;
    } else {
      NormalizedAppend(normalize, a[1..], b);
      CutInFirst(a, b, 1);
      var first := normalize(a[0]);
      AppendAssociative(if first == "" then [] else [first], Normalized(normalize, a[1..]), Normalized(normalize, b));
    }
  }

  lemma {:induction false} ChunksOfAllAppend(a: seq<string>, b: seq<string>)
    ensures ChunksOfAll(a + b) == ChunksOfAll(a) + ChunksOfAll(b)
  {
    if |a| == 0 {
      assert a + b == b;
    } else {
      ChunksOfAllAppend(a[1..], b);
      CutInFirst(a, b, 1);
      AppendAssociative(Chunks(a[0]), ChunksOfAll(a[1..]), ChunksOfAll(b));
    }
  }

  // ---------------------------------------------------------------- one line

  /** The prefix of a line that its full pieces cover. */
  function Covered(line: string): string {
    line[..|line| - |Residue(line)|]
  }

  lemma {:induction false} ResidueIsSuffix(line: string)
    ensures |Residue(line)| <= |line|
    ensures line[|line| - |Residue(line)|..] == Residue(line)
    ensures (|line| - |Residue(line)|) % MAX_SEGMENT_CHARS == 0
  {
    if |line| >= MAX_SEGMENT_CHARS {
      ResidueIsSuffix(line[MAX_SEGMENT_CHARS..]);
    }
  }

  /** Whole pieces in front do not change how the rest is cut. */
  lemma {:induction false} CutAfterWholePieces(f: string, x: string)
    requires |f| % MAX_SEGMENT_CHARS == 0
    ensures FullChunks(f + x) == FullChunks(f) + FullChunks(x)
    ensures Chunks(f + x) == FullChunks(f) + Chunks(x)
    ensures Residue(f + x) == Residue(x)
  {
    if f == "" {
      assert f + x == x;
    } else {
      var n := MAX_SEGMENT_CHARS;
      assert |f| >= n;
      CutAfterWholePieces(f[n..], x);
      CutInFirst(f, x, n);
      AppendAssociative([f[..n]], FullChunks(f[n..]), FullChunks(x));
      AppendAssociative([f[..n]], FullChunks(f[n..]), Chunks(x));
      if |f + x| == n {
        assert x == "" && f[n..] == "" && f + x == f[..n];
      }
    }
  }

  // ---------------------------------------------------------------- whole texts

  lemma RawOfLines(text: string, init: seq<string>, last: string)
    requires Lines(text) == init + [last]
    ensures RawSegments(text) == ChunksOfAll(init) + FullChunks(last)
    ensures Pending(text) == Residue(last)
  {
    var ls := Lines(text);
    assert ls[..|ls| - 1] == init && ls[|ls| - 1] == last;
  }

  lemma SplitLast(ls: seq<string>)
    requires |ls| > 0
    ensures ls == ls[..|ls| - 1] + [ls[|ls| - 1]]
  {
  }

  lemma AfterWholePiecesOneLine(f: string, x: string)
    requires '\n' !in f && |f| % MAX_SEGMENT_CHARS == 0 && |Lines(x)| == 1
    ensures RawSegments(f + x) == FullChunks(f) + RawSegments(x)
    ensures Pending(f + x) == Pending(x)
  {
    hide Lines, RawSegments, Pending, FullChunks, Chunks, Residue;
    LinesPrefix(f, x);
    var l := Lines(x)[0];
    CutAfterWholePieces(f, l);
    assert Lines(x) == [] + [l] && Lines(f + x) == [] + [f + l];
    RawOfLines(f + x, [], f + l);
    RawOfLines(x, [], l);
    assert [] + FullChunks(l) == FullChunks(l) && [] + FullChunks(f + l) == FullChunks(f + l);
    assert ChunksOfAll([]) == [];
  }

  lemma AfterWholePiecesManyLines(f: string, x: string, l: string, mid: seq<string>, last: string)
    requires '\n' !in f && |f| % MAX_SEGMENT_CHARS == 0
    requires Lines(x) == [l] + mid + [last] && Lines(f + x) == [f + l] + mid + [last]
    ensures RawSegments(f + x) == FullChunks(f) + RawSegments(x)
    ensures Pending(f + x) == Pending(x)
  {
    hide Lines, RawSegments, Pending, FullChunks, Chunks, Residue, ChunksOfAll;
    CutAfterWholePieces(f, l);
    RawOfLines(f + x, [f + l] + mid, last);
    RawOfLines(x, [l] + mid, last);
    ChunksOfFirst(f + l, mid);
    ChunksOfFirst(l, mid);
    AppendAssociative(FullChunks(f), Chunks(l), ChunksOfAll(mid));
    AppendAssociative(FullChunks(f), Chunks(l) + ChunksOfAll(mid), FullChunks(last));
  }

  lemma SplitEnds(ls: seq<string>)
    requires |ls| > 1
    ensures ls == [ls[0]] + ls[1..|ls| - 1] + [ls[|ls| - 1]]
    ensures ls[1..] == ls[1..|ls| - 1] + [ls[|ls| - 1]]
  {
  }

  /** More text after whole pieces of an open line. */
  lemma AfterWholePieces(f: string, x: string)
    requires '\n' !in f && |f| % MAX_SEGMENT_CHARS == 0
    ensures RawSegments(f + x) == FullChunks(f) + RawSegments(x)
    ensures Pending(f + x) == Pending(x)
  {
    hide Lines, RawSegments, Pending, FullChunks, Chunks, Residue;
    var lx := Lines(x);
    if |lx| == 1 {
      AfterWholePiecesOneLine(f, x);
    } else {
      LinesPrefix(f, x);
      SplitEnds(lx);
      AppendAssociative([f + lx[0]], lx[1..|lx| - 1], [lx[|lx| - 1]]);
      AfterWholePiecesManyLines(f, x, lx[0], lx[1..|lx| - 1], lx[|lx| - 1]);
    }
  }

  lemma ChunksOfFirst(l: string, rest: seq<string>)
    ensures ChunksOfAll([l] + rest) == Chunks(l) + ChunksOfAll(rest)
  {
    assert ([l] + rest)[1..] == rest;
  }

  /** More text after finished lines. */
  lemma AfterFinishedLines(text: string, more: string, init: seq<string>, last: string)
    requires Lines(text) == init + [last]
    ensures RawSegments(text + more) == ChunksOfAll(init) + RawSegments(last + more)
    ensures Pending(text + more) == Pending(last + more)
  {
    hide RawSegments, Pending, FullChunks, Residue, Chunks, Lines;
    LinesAppend(text, more);
    assert (init + [last])[..|init|] == init;
    var lm := Lines(last + more);
    var mid, end := lm[..|lm| - 1], lm[|lm| - 1];
    SplitLast(lm);
    AppendAssociative(init, mid, [end]);
    RawOfLines(text + more, init + mid, end);
    RawOfLines(last + more, mid, end);
    ChunksOfAllAppend(init, mid);
    AppendAssociative(ChunksOfAll(init), ChunksOfAll(mid), FullChunks(end));
  }

  lemma NoNewlineInPart(s: string, n: nat)
    requires '\n' !in s && n <= |s|
    ensures '\n' !in s[..n] && '\n' !in s[n..]
  {
  }

  /** Streaming refines batch: the pending part is all that later text needs,
      and the segments only grow. */
  lemma RawSegmentsStream(text: string, more: string)
    ensures RawSegments(text + more) == RawSegments(text) + RawSegments(Pending(text) + more)
    ensures Pending(text + more) == Pending(Pending(text) + more)
  {
    hide RawSegments, Pending, FullChunks, Residue, Chunks;
    var ls := Lines(text);
    var init, last := ls[..|ls| - 1], ls[|ls| - 1];
    assert last in ls;
    SplitLast(ls);
    AfterFinishedLines(text, more, init, last);
    RawOfLines(text, init, last);
    ResidueIsSuffix(last);
    var cut := |last| - |Residue(last)|;
    var f, r := last[..cut], last[cut..];
    NoNewlineInPart(last, cut);
    CutAndJoin(last, cut);
    AppendAssociative(f, r, more);
    AfterWholePieces(f, r + more);
    CutAfterWholePieces(f, r);
    ShortHasNoChunk(r);
    assert FullChunks(f) + [] == FullChunks(f);
    AppendAssociative(ChunksOfAll(init), FullChunks(f), RawSegments(r + more));
  }

  lemma ShortHasNoChunk(r: string)
    requires |r| < MAX_SEGMENT_CHARS
    ensures FullChunks(r) == [] && Residue(r) == r
  {
  }

  lemma SegmentsStream(normalize: string -> string, text: string, more: string)
    ensures SegmentsOf(normalize, text + more)
         == SegmentsOf(normalize, text) + SegmentsOf(normalize, Pending(text) + more)
  {
    RawSegmentsStream(text, more);
    NormalizedAppend(normalize, RawSegments(text), RawSegments(Pending(text) + more));
  }

  /** The pending part is the end of the text, has no newline and no full piece. */
  lemma PendingIsSuffix(text: string)
    ensures var p := Pending(text);
            |p| <= |text| && text[|text| - |p|..] == p && '\n' !in p
  {
    hide Residue, Pending;
    var ls := Lines(text);
    var last := ls[|ls| - 1];
    assert last in ls;
    SplitLast(ls);
    RawOfLines(text, ls[..|ls| - 1], last);
    LastLineIsSuffix(text);
    ResidueIsSuffix(last);
    NoNewlineInPart(last, |last| - |Residue(last)|);
  }

  lemma {:induction false} LastLineIsSuffix(text: string)
    ensures var ls := Lines(text);
            var last := ls[|ls| - 1];
            |last| <= |text| && text[|text| - |last|..] == last
    decreases |text|
  {
    hide NewlineAt, Lines;
    var i := NewlineAt(text);
    if i < |text| {
      var rest := text[i + 1..];
      LastLineIsSuffix(rest);
      CutAtNewline(text, i);
      LineThenRest(text[..i], rest);
      SuffixOfSuffix(text, i + 1, |Lines(rest)[|Lines(rest)| - 1]|);
    } else {
      OneLineOnly(text);
    }
  }

  lemma SuffixOfSuffix(s: string, k: nat, n: nat)
    requires k <= |s| && n <= |s| - k
    ensures s[k..][|s| - k - n..] == s[|s| - n..]
  {
  }

  // ---------------------------------------------------------------- flush steps

  /** Flushing a finished line. */
  lemma FlushLine(buffer: string, i: nat)
    requires i < |buffer| && NewlineAt(buffer) == i
    ensures RawSegments(buffer) == Chunks(buffer[..i]) + RawSegments(buffer[i + 1..])
    ensures Pending(buffer) == Pending(buffer[i + 1..])
    ensures Lines(buffer) == [buffer[..i]] + Lines(buffer[i + 1..])
  {
    hide RawSegments, Pending, FullChunks, Residue, Chunks;
    var line, rest := buffer[..i], buffer[i + 1..];
    var lr := Lines(rest);
    var mid, last := lr[..|lr| - 1], lr[|lr| - 1];
    SplitLast(lr);
    AppendAssociative([line], mid, [last]);
    RawOfLines(buffer, [line] + mid, last);
    RawOfLines(rest, mid, last);
    ChunksOfFirst(line, mid);
    AppendAssociative(Chunks(line), ChunksOfAll(mid), FullChunks(last));
  }

  /** Text without a newline is one open line. */
  lemma OpenLine(buffer: string)
    requires '\n' !in buffer
    ensures Lines(buffer) == [buffer]
    ensures RawSegments(buffer) == FullChunks(buffer)
    ensures Pending(buffer) == Residue(buffer)
  {
    assert NewlineAt(buffer) == |buffer|;
    RawOfLines(buffer, [], buffer);
  }

  lemma {:induction false} NormalizedWithinCap(normalize: string -> string, raw: seq<string>)
    requires forall s: string :: |normalize(s)| <= |s|
    requires forall s | s in raw :: |s| <= MAX_SEGMENT_CHARS
    ensures forall s | s in Normalized(normalize, raw) :: 0 < |s| <= MAX_SEGMENT_CHARS
  {
    if |raw| > 0 {
      assert raw[0] in raw;
      NormalizedWithinCap(normalize, raw[1..]);
      assert |normalize(raw[0])| <= |raw[0]|;
    }
  }

  lemma {:induction false} ChunksWithinCap(line: string)
    ensures forall s | s in Chunks(line) :: |s| <= MAX_SEGMENT_CHARS
    ensures forall s | s in FullChunks(line) :: |s| <= MAX_SEGMENT_CHARS
  {
    if |line| >= MAX_SEGMENT_CHARS {
      ChunksWithinCap(line[MAX_SEGMENT_CHARS..]);
    }
  }

  lemma {:induction false} ChunksOfAllWithinCap(lines: seq<string>)
    ensures forall s | s in ChunksOfAll(lines) :: |s| <= MAX_SEGMENT_CHARS
  {
    if |lines| > 0 {
      ChunksWithinCap(lines[0]);
      ChunksOfAllWithinCap(lines[1..]);
    }
  }

  /** Segments stay within the cap whenever normalizing never lengthens a text. */
  lemma SegmentsWithinCap(normalize: string -> string, text: string)
    requires forall s: string :: |normalize(s)| <= |s|
    ensures forall s | s in SegmentsOf(normalize, text) :: 0 < |s| <= MAX_SEGMENT_CHARS
  {
    var ls := Lines(text);
    ChunksOfAllWithinCap(ls[..|ls| - 1]);
    ChunksWithinCap(ls[|ls| - 1]);
    NormalizedWithinCap(normalize, RawSegments(text));
  }}
