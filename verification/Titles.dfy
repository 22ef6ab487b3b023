/** Counting titled lines: the guard looks at the pieces it flushes, so what it counts for a
    long line depends on how much of it was flushed before its newline came. */
module Titles {
  import opened Text
  import opened Segments

  /** Titled lines among the pieces a flush hands over; empty ones are never looked at. */
  function HeaderCount(isHeader: string -> bool, lines: seq<string>): nat {
    if |lines| == 0 then 0
    else (if lines[0] != "" && isHeader(lines[0]) then 1 else 0) + HeaderCount(isHeader, lines[1..])
  }

  /** The lines of a text that a newline has ended. */
  function Finished(text: string): seq<string> {
    var ls := Lines(text);
    ls[..|ls| - 1]
  }

  /** The line that none has ended yet. */
  function Open(text: string): string {
    var ls := Lines(text);
    ls[|ls| - 1]
  }

  /** What a flush of `buffer` counts: finished lines whole, then full pieces of the open one. */
  function Flushed(isHeader: string -> bool, buffer: string): nat {
    HeaderCount(isHeader, Finished(buffer)) + HeaderCount(isHeader, FullChunks(Open(buffer)))
  }

  // ---------------------------------------------------------------- what a cut text means

  /** A line as it is looked at when `k` full pieces of it were flushed before its newline came:
      those pieces, and then the rest in one. */
  function HandedOver(line: string, k: nat): seq<string> {
    if k == 0 || |line| < MAX_SEGMENT_CHARS then [line]
    else [line[..MAX_SEGMENT_CHARS]] + HandedOver(line[MAX_SEGMENT_CHARS..], k - 1)
  }

  function Zeros(n: nat): (z: seq<nat>)
    ensures |z| == n
    ensures forall i | 0 <= i < n :: z[i] == 0
  {
    if n == 0 then [] else [0] + Zeros(n - 1)
  }

  /** For every line that `delta` finishes, the full pieces flushed before `delta` came: only the
      line that was open can have any. */
  function EarlyIn(open: string, delta: string): seq<nat> {
    var n := |Finished(delta)|;
    if n == 0 then [] else [|open| / MAX_SEGMENT_CHARS] + Zeros(n - 1)
  }

  /** The same for every finished line of a text that arrived as the deltas `cut`. */
  function Early(cut: seq<string>): seq<nat> {
    if |cut| == 0 then []
    else
      var before := cut[..|cut| - 1];
      Early(before) + EarlyIn(Open(Concat(before)), cut[|cut| - 1])
  }

  function Total(isHeader: string -> bool, lines: seq<string>, early: seq<nat>): nat {
    if |lines| == 0 || |early| == 0 then 0
    else HeaderCount(isHeader, HandedOver(lines[0], early[0])) + Total(isHeader, lines[1..], early[1..])
  }

  /** The titled pieces of a text that arrived as the deltas `cut`, line by line. */
  function TitledPieces(isHeader: string -> bool, cut: seq<string>): nat {
    var text := Concat(cut);
    Total(isHeader, Finished(text), Early(cut)) + HeaderCount(isHeader, FullChunks(Open(text)))
  }

  // ---------------------------------------------------------------- counting

  lemma HeaderCountOne(isHeader: string -> bool, line: string)
    ensures HeaderCount(isHeader, [line]) == if line != "" && isHeader(line) then 1 else 0
    ensures HeaderCount(isHeader, []) == 0
  {
    assert [line][1..] == [] && [line][0] == line;
  }

  lemma {:induction false} HeaderCountAppend(isHeader: string -> bool, a: seq<string>, b: seq<string>)
    ensures HeaderCount(isHeader, a + b) == HeaderCount(isHeader, a) + HeaderCount(isHeader, b)
  {
    if |a| == 0 {
      assert a + b == b;
    } else {
      HeaderCountAppend(isHeader, a[1..], b);
      assert (a + b)[1..] == a[1..] + b;
    }
  }

  lemma {:induction false} TotalAppend(isHeader: string -> bool, a: seq<string>, ea: seq<nat>, b: seq<string>,
      eb: seq<nat>)
    requires |a| == |ea|
    ensures Total(isHeader, a + b, ea + eb) == Total(isHeader, a, ea) + Total(isHeader, b, eb)
  {
    if |a| == 0 {
      assert a + b == b && ea + eb == eb;
    } else {
      TotalAppend(isHeader, a[1..], ea[1..], b, eb);
      assert (a + b)[1..] == a[1..] + b && (ea + eb)[1..] == ea[1..] + eb;
    }
  }

  lemma {:induction false} TotalOfZeros(isHeader: string -> bool, lines: seq<string>)
    ensures Total(isHeader, lines, Zeros(|lines|)) == HeaderCount(isHeader, lines)
  {
    if |lines| > 0 {
      TotalOfZeros(isHeader, lines[1..]);
      assert Zeros(|lines|)[1..] == Zeros(|lines| - 1);
      HeaderCountOne(isHeader, lines[0]);
    }
  }

  /** A line whose flushed pieces are `f`, with `y` still to come. */
  lemma {:induction false} HandedOverAfter(f: string, y: string)
    requires |f| % MAX_SEGMENT_CHARS == 0
    ensures HandedOver(f + y, |f| / MAX_SEGMENT_CHARS) == FullChunks(f) + [y]
  {
    if f == "" {
      assert f + y == y && FullChunks(f) + [y] == [y];
    } else {
      var n := MAX_SEGMENT_CHARS;
      assert |f| >= n;
      HandedOverAfter(f[n..], y);
      CutInFirst(f, y, n);
      AppendAssociative([f[..n]], FullChunks(f[n..]), [y]);
    }
  }

  // ---------------------------------------------------------------- one more delta

  lemma FinishedAndOpen(text: string, init: seq<string>, last: string)
    requires Lines(text) == init + [last]
    ensures Finished(text) == init && Open(text) == last
  {
  }

  lemma LinesAreThose(text: string)
    ensures Lines(text) == Finished(text) + [Open(text)]
  {
  }

  /** The open line grows by a delta without a newline. */
  lemma OpenLineGrows(isHeader: string -> bool, text: string, delta: string)
    requires Finished(delta) == []
    ensures Finished(text + delta) == Finished(text) && Open(text + delta) == Open(text) + delta
    ensures HeaderCount(isHeader, FullChunks(Open(text + delta)))
         == HeaderCount(isHeader, FullChunks(Open(text))) + Flushed(isHeader, Pending(text) + delta)
  {
    hide Lines, FullChunks, HeaderCount, Residue;
    var last := Open(text);
    ResidueOfLine(last);
    var r := Residue(last);
    var f := last[..|last| - |r|];
    LinesAppend(text, delta);
    LinesAreThose(delta);
    OpenOnly(delta);
    assert last in Lines(text);
    LinesPrefix(last, delta);
    OneMore(last, delta);
    FinishedAndOpen(text + delta, Finished(text), last + delta);
    PendingOpen(text);
    LinesPrefix(r, delta);
    OneMore(r, delta);
    FinishedAndOpen(r + delta, [], r + delta);
    AppendAssociative(f, r, delta);
    CutAfterWholePieces(f, r + delta);
    HeaderCountAppend(isHeader, FullChunks(f), FullChunks(r + delta));
    HeaderCountOne(isHeader, "");
  }

  lemma OpenOnly(delta: string)
    requires Finished(delta) == []
    ensures Lines(delta) == [delta]
  {
    var i := NewlineAt(delta);
    assert |Lines(delta)| == 1;
  }

  lemma OneMore(p: string, delta: string)
    requires Lines(delta) == [delta] && Lines(p + delta) == [p + Lines(delta)[0]] + Lines(delta)[1..]
    ensures Lines(p + delta) == [] + [p + delta]
  {
  }

  /** A line is its flushed pieces and its residue. */
  lemma ResidueOfLine(line: string)
    ensures var f := line[..|line| - |Residue(line)|];
            && |Residue(line)| <= |line|
            && line == f + Residue(line) && |f| % MAX_SEGMENT_CHARS == 0
            && |f| / MAX_SEGMENT_CHARS == |line| / MAX_SEGMENT_CHARS
            && FullChunks(line) == FullChunks(f)
            && ('\n' !in line ==> '\n' !in Residue(line))
  {
    hide FullChunks, Residue;
    ResidueIsSuffix(line);
    var r := Residue(line);
    var f := line[..|line| - |r|];
    CutAndJoin(line, |f|);
    CutAfterWholePieces(f, r);
    ShortHasNoChunk(r);
    assert FullChunks(f) + [] == FullChunks(f);
    if '\n' !in line { NoNewlineInPart(line, |f|); }
  }

  lemma PendingOpen(text: string)
    ensures Pending(text) == Residue(Open(text)) && '\n' !in Open(text)
  {
    hide Residue, Lines;
    var ls := Lines(text);
    assert ls[|ls| - 1] in ls;
  }

  /** The first newline of a delta ends the open line; its other lines are its own. */
  lemma LinesEnded(text: string, delta: string)
    requires Finished(delta) != []
    ensures var x, last := Lines(delta)[0], Open(text);
            && Finished(text + delta) == Finished(text) + ([last + x] + Finished(delta)[1..])
            && Open(text + delta) == Open(delta)
  {
    hide Lines;
    var last, ld := Open(text), Lines(delta);
    PendingOpen(text);
    LinesAppend(text, delta);
    LinesPrefix(last, delta);
    var mid := Finished(delta)[1..];
    assert ld[1..] == mid + [Open(delta)];
    AppendAssociative([last + ld[0]], mid, [Open(delta)]);
    AppendAssociative(Finished(text), [last + ld[0]] + mid, [Open(delta)]);
    FinishedAndOpen(text + delta, Finished(text) + ([last + ld[0]] + mid), Open(delta));
  }

  lemma LinesEndedBehind(r: string, delta: string)
    requires Finished(delta) != [] && '\n' !in r
    ensures Finished(r + delta) == [r + Lines(delta)[0]] + Finished(delta)[1..] && Open(r + delta) == Open(delta)
  {
    hide Lines;
    OneLineOnly(r);
    FinishedAndOpen(r, [], r);
    LinesEnded(r, delta);
    assert [] + ([r + Lines(delta)[0]] + Finished(delta)[1..]) == [r + Lines(delta)[0]] + Finished(delta)[1..];
  }

  /** The line that was open, once it is ended. */
  lemma EndedLine(isHeader: string -> bool, last: string, x: string)
    ensures HeaderCount(isHeader, HandedOver(last + x, |last| / MAX_SEGMENT_CHARS))
         == HeaderCount(isHeader, FullChunks(last)) + HeaderCount(isHeader, [Residue(last) + x])
  {
    hide FullChunks, HeaderCount, Residue, HandedOver;
    ResidueOfLine(last);
    var r := Residue(last);
    var f := last[..|last| - |r|];
    AppendAssociative(f, r, x);
    HandedOverAfter(f, r + x);
    HeaderCountAppend(isHeader, FullChunks(f), [r + x]);
  }

  lemma FinishedGrow(isHeader: string -> bool, text: string, early: seq<nat>, delta: string)
    requires Finished(delta) != [] && |early| == |Finished(text)|
    ensures Total(isHeader, Finished(text + delta), early + EarlyIn(Open(text), delta))
            + HeaderCount(isHeader, FullChunks(Open(text + delta)))
         == Total(isHeader, Finished(text), early) + HeaderCount(isHeader, FullChunks(Open(text)))
            + Flushed(isHeader, Pending(text) + delta)
  {
    hide Lines, FullChunks, HeaderCount, Residue, HandedOver, Pending, Open, Total, Finished;
    var last, x, mid := Open(text), Lines(delta)[0], Finished(delta)[1..];
    var r := Residue(last);
    PendingOpen(text);
    ResidueOfLine(last);
    LinesEnded(text, delta);
    LinesEndedBehind(r, delta);
    TotalAppend(isHeader, Finished(text), early, [last + x] + mid, EarlyIn(last, delta));
    TotalFirst(isHeader, last + x, |last| / MAX_SEGMENT_CHARS, mid);
    EndedLine(isHeader, last, x);
    HeaderCountAppend(isHeader, [r + x], mid);
  }

  lemma TotalFirst(isHeader: string -> bool, line: string, k: nat, mid: seq<string>)
    ensures Total(isHeader, [line] + mid, [k] + Zeros(|mid|))
         == HeaderCount(isHeader, HandedOver(line, k)) + HeaderCount(isHeader, mid)
  {
    hide HeaderCount, HandedOver, Zeros;
    TotalOfZeros(isHeader, mid);
    assert ([line] + mid)[1..] == mid && ([k] + Zeros(|mid|))[1..] == Zeros(|mid|);
  }

  lemma FinishedCount(text: string, delta: string)
    ensures |Finished(text + delta)| == |Finished(text)| + |Finished(delta)|
  {
    hide Lines;
    if Finished(delta) == [] {
      OpenLineGrows(_ => false, text, delta);
    } else {
      LinesEnded(text, delta);
    }
  }

  lemma ConcatSnoc(cut: seq<string>, delta: string)
    ensures Concat(cut + [delta]) == Concat(cut) + delta
    ensures Early(cut + [delta]) == Early(cut) + EarlyIn(Open(Concat(cut)), delta)
  {
    ConcatAppend(cut, [delta]);
    assert Concat([delta]) == delta + Concat([]) == delta;
    assert (cut + [delta])[..|cut|] == cut;
  }

  lemma NoDeltas(cut: seq<string>)
    requires |cut| == 0
    ensures Concat(cut) == "" && Finished(Concat(cut)) == [] && Open(Concat(cut)) == ""
  {
  }

  lemma EarlyInPerLine(open: string, delta: string)
    ensures |EarlyIn(open, delta)| == |Finished(delta)|
  {
    hide Finished;
  }

  lemma {:induction false} EarlyPerLine(cut: seq<string>)
    ensures |Early(cut)| == |Finished(Concat(cut))|
  {
    hide Finished, Open, Concat, EarlyIn;
    if |cut| == 0 {
      NoDeltas(cut);
    } else {
      var before, delta := cut[..|cut| - 1], cut[|cut| - 1];
      assert cut == before + [delta];
      EarlyPerLine(before);
      ConcatSnoc(before, delta);
      FinishedCount(Concat(before), delta);
      EarlyInPerLine(Open(Concat(before)), delta);
    }
  }

  /** The count, over the whole text and the deltas it came in, grows by what one flush of the held
      residue and the new delta counts: the bounded buffer loses no titled line. */
  lemma TitledStream(isHeader: string -> bool, cut: seq<string>, delta: string)
    ensures TitledPieces(isHeader, cut + [delta])
         == TitledPieces(isHeader, cut) + Flushed(isHeader, Pending(Concat(cut)) + delta)
  {
    hide Lines, FullChunks, HeaderCount, Pending, Open, Total, Finished, Concat, Flushed, Early;
    var text := Concat(cut);
    ConcatSnoc(cut, delta);
    EarlyPerLine(cut);
    if Finished(delta) == [] {
      OpenLineGrows(isHeader, text, delta);
      assert Early(cut) + [] == Early(cut);
    } else {
      FinishedGrow(isHeader, text, Early(cut), delta);
    }
  }

  // ---------------------------------------------------------------- when the cut does not matter

  /** However much of a finished line was flushed early, its pieces count the same. */
  ghost predicate LineAgrees(isHeader: string -> bool, line: string) {
    forall k: nat | k * MAX_SEGMENT_CHARS <= |line| ::
      HeaderCount(isHeader, HandedOver(line, k)) == HeaderCount(isHeader, [line])
  }

  ghost predicate LinesAgree(isHeader: string -> bool, text: string) {
    forall i | 0 <= i < |Finished(text)| :: LineAgrees(isHeader, Finished(text)[i])
  }

  ghost predicate Fits(lines: seq<string>, early: seq<nat>) {
    && |early| == |lines|
    && forall i | 0 <= i < |lines| :: early[i] * MAX_SEGMENT_CHARS <= |lines[i]|
  }

  lemma NothingFits()
    ensures Fits([], [])
  {
  }

  lemma FitsMore(text: string, early: seq<nat>, delta: string)
    requires Fits(Finished(text), early)
    ensures Fits(Finished(text + delta), early + EarlyIn(Open(text), delta))
  {
    hide Lines, Finished, Open;
    if Finished(delta) == [] {
      OpenLineGrows(_ => false, text, delta);
      assert early + [] == early;
    } else {
      LinesEnded(text, delta);
      var x, last := Lines(delta)[0], Open(text);
      var more := [last + x] + Finished(delta)[1..];
      assert Fits(more, EarlyIn(last, delta));
    }
  }

  lemma {:induction false} EarlyFits(cut: seq<string>)
    ensures Fits(Finished(Concat(cut)), Early(cut))
  {
    hide Finished, Open, Concat, EarlyIn, Fits;
    if |cut| == 0 {
      NoDeltas(cut);
      NothingFits();
    } else {
      var before, delta := cut[..|cut| - 1], cut[|cut| - 1];
      assert cut == before + [delta];
      EarlyFits(before);
      ConcatSnoc(before, delta);
      FitsMore(Concat(before), Early(before), delta);
    }
  }

  lemma {:induction false} TotalAgrees(isHeader: string -> bool, lines: seq<string>, early: seq<nat>)
    requires Fits(lines, early)
    requires forall i | 0 <= i < |lines| :: LineAgrees(isHeader, lines[i])
    ensures Total(isHeader, lines, early) == HeaderCount(isHeader, lines)
  {
    hide HandedOver;
    if |lines| > 0 {
      assert LineAgrees(isHeader, lines[0]);
      assert early[0] * MAX_SEGMENT_CHARS <= |lines[0]|;
      TotalAgrees(isHeader, lines[1..], early[1..]);
      HeaderCountOne(isHeader, lines[0]);
    }
  }

  /** Where all finished lines agree, the count is that of the text alone. */
  lemma AgreeingCuts(isHeader: string -> bool, cut: seq<string>)
    requires LinesAgree(isHeader, Concat(cut))
    ensures TitledPieces(isHeader, cut) == Flushed(isHeader, Concat(cut))
  {
    hide Finished, Open, Concat, Early, Fits, HeaderCount, FullChunks, Total, LineAgrees;
    EarlyFits(cut);
    TotalAgrees(isHeader, Finished(Concat(cut)), Early(cut));
  }

  // ---------------------------------------------------------------- when it does

  /** What a text counts that comes in two deltas, the first of `at` characters. */
  function InTwo(isHeader: string -> bool, text: string, at: nat): nat
    requires at <= |text|
  {
    Flushed(isHeader, text[..at]) + Flushed(isHeader, Pending(text[..at]) + text[at..])
  }

  lemma InTwoIsACut(isHeader: string -> bool, text: string, at: nat)
    requires at <= |text|
    ensures Concat([text[..at], text[at..]]) == text && Concat([text]) == text
    ensures TitledPieces(isHeader, [text[..at], text[at..]]) == InTwo(isHeader, text, at)
    ensures TitledPieces(isHeader, [text]) == Flushed(isHeader, text)
  {
    hide TitledPieces, Flushed, Pending, Concat;
    var a, b := text[..at], text[at..];
    NoDeltas([]);
    CutAndJoin(text, at);
    OneDelta(isHeader, text);
    OneDelta(isHeader, a);
    ConcatSnoc([a], b);
    assert [a] + [b] == [a, b];
    TitledStream(isHeader, [a], b);
  }

  lemma OneDelta(isHeader: string -> bool, text: string)
    ensures Concat([text]) == text && TitledPieces(isHeader, [text]) == Flushed(isHeader, text)
  {
    hide Flushed;
    NoDeltas([]);
    ConcatSnoc([], text);
    assert [] + [text] == [text] && "" + text == text;
    TitledStream(isHeader, [], text);
    assert Pending("") == "" && FullChunks("") == [];
  }

  lemma FlushedLine(isHeader: string -> bool, buffer: string, i: nat)
    requires i < |buffer| && NewlineAt(buffer) == i
    ensures Flushed(isHeader, buffer) == HeaderCount(isHeader, [buffer[..i]]) + Flushed(isHeader, buffer[i + 1..])
    ensures Finished(buffer) == [buffer[..i]] + Finished(buffer[i + 1..])
    ensures Pending(buffer) == Pending(buffer[i + 1..])
  {
    hide Lines, HeaderCount, FullChunks, Pending;
    FlushLine(buffer, i);
    var line, rest := buffer[..i], buffer[i + 1..];
    LinesAreThose(rest);
    AppendAssociative([line], Finished(rest), [Open(rest)]);
    FinishedAndOpen(buffer, [line] + Finished(rest), Open(rest));
    HeaderCountAppend(isHeader, [line], Finished(rest));
  }

  lemma FlushedPiece(isHeader: string -> bool, buffer: string)
    requires '\n' !in buffer && |buffer| >= MAX_SEGMENT_CHARS
    ensures var piece, rest := buffer[..MAX_SEGMENT_CHARS], buffer[MAX_SEGMENT_CHARS..];
            Flushed(isHeader, buffer) == HeaderCount(isHeader, [piece]) + Flushed(isHeader, rest)
  {
    hide Lines, HeaderCount;
    var piece, rest := buffer[..MAX_SEGMENT_CHARS], buffer[MAX_SEGMENT_CHARS..];
    NoNewlineInPart(buffer, MAX_SEGMENT_CHARS);
    FlushedOpen(isHeader, buffer);
    FlushedOpen(isHeader, rest);
    HeaderCountAppend(isHeader, [piece], FullChunks(rest));
  }

  lemma FlushedOpen(isHeader: string -> bool, buffer: string)
    requires '\n' !in buffer
    ensures Finished(buffer) == [] && Open(buffer) == buffer
    ensures Flushed(isHeader, buffer) == HeaderCount(isHeader, FullChunks(buffer))
  {
    hide Lines;
    OneLineOnly(buffer);
    HeaderCountOne(isHeader, "");
  }

  lemma FlushedEnded(isHeader: string -> bool, line: string, rest: string)
    requires '\n' !in line
    ensures var text := line + "\n" + rest;
            && Flushed(isHeader, text) == HeaderCount(isHeader, [line]) + Flushed(isHeader, rest)
            && Finished(text) == [line] + Finished(rest)
            && Pending(text) == Pending(rest)
  {
    hide Finished, Flushed, Pending, HeaderCount;
    var text := line + "\n" + rest;
    NewlineAtUnique(text, |line|);
    assert text[..|line|] == line && text[|line| + 1..] == rest;
    FlushedLine(isHeader, text, |line|);
  }

  /** A delta boundary after `k` pieces of the first line. */
  lemma CutInFirstLine(isHeader: string -> bool, line: string, rest: string, k: nat)
    requires '\n' !in line && k * MAX_SEGMENT_CHARS <= |line|
    ensures InTwo(isHeader, line + "\n" + rest, k * MAX_SEGMENT_CHARS)
         == HeaderCount(isHeader, HandedOver(line, k)) + Flushed(isHeader, rest)
  {
    hide Finished, Flushed, Pending, HeaderCount, HandedOver, FullChunks, Residue;
    var n := k * MAX_SEGMENT_CHARS;
    var f, y := line[..n], line[n..];
    var text := line + "\n" + rest;
    NoNewlineInPart(line, n);
    CutAndJoin(line, n);
    CutInLonger(line, rest, n);
    FlushedOpen(isHeader, f);
    OpenLine(f);
    CutAfterWholePieces(f, "");
    ShortHasNoChunk("");
    assert f + "" == f;
    FlushedEnded(isHeader, y, rest);
    assert "" + text[n..] == text[n..];
    HandedOverAfter(f, y);
    HeaderCountAppend(isHeader, FullChunks(f), [y]);
  }

  lemma CutInLonger(line: string, rest: string, n: nat)
    requires n <= |line|
    ensures (line + "\n" + rest)[..n] == line[..n] && (line + "\n" + rest)[n..] == line[n..] + "\n" + rest
  {
  }

  /** Some place to cut shows any disagreement there is. */
  lemma {:induction false} DisagreementShows(isHeader: string -> bool, text: string, i: nat, k: nat) returns (at: nat)
    requires i < |Finished(text)| && k * MAX_SEGMENT_CHARS <= |Finished(text)[i]|
    ensures at <= |text|
    ensures InTwo(isHeader, text, at) - Flushed(isHeader, text)
         == HeaderCount(isHeader, HandedOver(Finished(text)[i], k)) - HeaderCount(isHeader, [Finished(text)[i]])
    decreases |text|
  {
    hide Finished, Flushed, Pending, HeaderCount, HandedOver;
    var e := NewlineAt(text);
    if e == |text| {
      FlushedOpen(isHeader, text);
      assert false;
    }
    var line, rest := text[..e], text[e + 1..];
    CutAtNewline(text, e);
    FlushedEnded(isHeader, line, rest);
    if i == 0 {
      at := k * MAX_SEGMENT_CHARS;
      CutInFirstLine(isHeader, line, rest, k);
    } else {
      var n := DisagreementShows(isHeader, rest, i - 1, k);
      at := e + 1 + n;
      assert text[..at] == line + "\n" + rest[..n] && text[at..] == rest[n..];
      FlushedEnded(isHeader, line, rest[..n]);
    }
  }

  /** The count depends on the text alone exactly if each finished line counts the same however many
      full pieces of it were flushed early. */
  lemma CutsAgreeIffLinesAgree(isHeader: string -> bool, text: string)
    ensures (forall a, b | Concat(a) == text && Concat(b) == text ::
            TitledPieces(isHeader, a) == TitledPieces(isHeader, b))
       <==> LinesAgree(isHeader, text)
  {
    hide TitledPieces, Flushed, Finished, Concat, HeaderCount, HandedOver;
    if LinesAgree(isHeader, text) {
      forall a, b | Concat(a) == text && Concat(b) == text
        ensures TitledPieces(isHeader, a) == TitledPieces(isHeader, b)
      {
        AgreeingCuts(isHeader, a);
        AgreeingCuts(isHeader, b);
      }
    } else {
      var i :| 0 <= i < |Finished(text)| && !LineAgrees(isHeader, Finished(text)[i]);
      var line := Finished(text)[i];
      var k: nat :| k * MAX_SEGMENT_CHARS <= |line|
                    && HeaderCount(isHeader, HandedOver(line, k)) != HeaderCount(isHeader, [line]);
      var at := DisagreementShows(isHeader, text, i, k);
      InTwoIsACut(isHeader, text, at);
    }
  }

  ghost predicate ShortLines(text: string) {
    forall l | l in Lines(text) :: |l| < MAX_SEGMENT_CHARS
  }

  /** Without long lines the count is that of the titled finished lines, whatever the deltas were. */
  lemma ShortLinesAgree(isHeader: string -> bool, cut: seq<string>)
    requires ShortLines(Concat(cut))
    ensures LinesAgree(isHeader, Concat(cut))
    ensures TitledPieces(isHeader, cut) == HeaderCount(isHeader, Finished(Concat(cut)))
  {
    hide TitledPieces, Lines, Concat, HeaderCount;
    var text := Concat(cut);
    LinesAreThose(text);
    forall i | 0 <= i < |Finished(text)| ensures LineAgrees(isHeader, Finished(text)[i]) {
      assert Lines(text)[i] in Lines(text);
    }
    AgreeingCuts(isHeader, cut);
    assert Open(text) in Lines(text);
    ShortHasNoChunk(Open(text));
    HeaderCountOne(isHeader, "");
  }

  /** A 480-character title whose halves look like titles too counts once, or twice. */
  lemma LongTitleDisagrees(isHeader: string -> bool, l1: string, l2: string)
    requires |l1| == MAX_SEGMENT_CHARS && |l2| == MAX_SEGMENT_CHARS && '\n' !in l1 && '\n' !in l2
    requires isHeader(l1) && isHeader(l2) && isHeader(l1 + l2)
    ensures TitledPieces(isHeader, [l1 + l2 + "\n"]) == 1 && TitledPieces(isHeader, [l1 + l2, "\n"]) == 2
  {
    hide TitledPieces, Flushed, Finished, HeaderCount, Pending;
    var l := l1 + l2;
    var text := l + "\n";
    assert l + "\n" + "" == text && text[..|l|] == l && text[|l|..] == "\n";
    FlushedEnded(isHeader, l, "");
    FlushedOpen(isHeader, "");
    HeaderCountOne(isHeader, l);
    InTwoIsACut(isHeader, text, |l|);
    CutInFirstLine(isHeader, l, "", 2);
    Halves(l1, l2);
    HeaderCountOne(isHeader, l1);
    HeaderCountOne(isHeader, l2);
    HeaderCountOne(isHeader, "");
    HeaderCountAppend(isHeader, [l1, l2], [""]);
    HeaderCountAppend(isHeader, [l1], [l2]);
  }

  lemma Halves(l1: string, l2: string)
    requires |l1| == MAX_SEGMENT_CHARS && |l2| == MAX_SEGMENT_CHARS
    ensures HandedOver(l1 + l2, 2) == [l1, l2] + [""] && [l1, l2] == [l1] + [l2]
  {
    var l := l1 + l2;
    assert l[..MAX_SEGMENT_CHARS] == l1 && l[MAX_SEGMENT_CHARS..] == l2;
    assert l2[..MAX_SEGMENT_CHARS] == l2 && l2[MAX_SEGMENT_CHARS..] == "";
    assert HandedOver("", 0) == [""];
    assert HandedOver(l2, 1) == [l2] + [""];
    assert [l1] + ([l2] + [""]) == [l1, l2] + [""];
  }
}
