/** Routing of inline `<think>` spans: a one-shot scan of a whole text, the
    streaming scan that holds back a possible partial tag, and the proof that
    cutting the text into deltas changes nothing. */
module ThinkTags {
  import opened Wrappers
  import opened Text

  const OPEN_TAG := "<think>"
  const CLOSE_TAG := "</think>"

  /** Per-character case fold for tags; U+212A folds to `k` like in Python. */
  function Fold(c: char): char {
    if 'A' <= c <= 'Z' then (c as int + 32) as char else if c == '\U{212A}' then 'k' else c
  }

  /** The tag being sought: the closing one while inside a span. */
  function Tag(thinking: bool): (t: string)
    ensures |t| > 0
  {
    if thinking then CLOSE_TAG else OPEN_TAG
  }

  function FoldAll(s: string): (r: string)
    ensures |r| == |s|
  {
    seq(|s|, k requires 0 <= k < |s| => Fold(s[k]))
  }

  lemma FoldAllConcat(s: string, t: string)
    ensures FoldAll(s + t) == FoldAll(s) + FoldAll(t)
  {
  }

  predicate MatchesAt(s: string, tag: string, i: nat) {
    i + |tag| <= |s| && FoldAll(s[i..i + |tag|]) == tag
  }

  /** Leftmost match at or after `from`. */
  function Find(s: string, tag: string, from: nat): (m: Option<nat>)
    requires from <= |s|
    ensures m.Some? ==> from <= m.value && m.value + |tag| <= |s| && MatchesAt(s, tag, m.value)
    ensures m.Some? ==> forall j: nat | from <= j < m.value :: !MatchesAt(s, tag, j)
    ensures m.None? ==> forall j: nat | from <= j :: !MatchesAt(s, tag, j)
    decreases |s| - from
  {
    if MatchesAt(s, tag, from) then Some(from)
    else if from == |s| then None
    else Find(s, tag, from + 1)
  }

  /** The last `n` characters of `s` could be the start of `tag`. */
  predicate PartialTag(s: string, tag: string, n: nat) {
    n <= |s| && n < |tag| && FoldAll(s[|s| - n..]) == tag[..n]
  }

  /** Length of the longest suffix of `s` that is a proper prefix of `tag`. */
  ghost function HoldLength(s: string, tag: string): (n: nat)
    requires |tag| > 0
    ensures n <= |s| && n < |tag|
    ensures PartialTag(s, tag, n)
    ensures forall m: nat | n < m :: !PartialTag(s, tag, m)
  {
    LongestPartial(s, tag, |tag| - 1);
    var n: nat :| PartialTag(s, tag, n) && forall m: nat | n < m :: !PartialTag(s, tag, m);
    n
  }

  lemma LongestPartial(s: string, tag: string, bound: nat)
    requires |tag| > 0
    requires forall m: nat | bound < m :: !PartialTag(s, tag, m)
    ensures exists n: nat :: PartialTag(s, tag, n) && forall m: nat | n < m :: !PartialTag(s, tag, m)
  {
    if !PartialTag(s, tag, bound) {
      assert PartialTag(s, tag, 0);
      LongestPartial(s, tag, bound - 1);
    }
  }

  lemma HoldLengthUnique(s: string, tag: string, n: nat)
    requires |tag| > 0
    requires PartialTag(s, tag, n) && forall m: nat | n < m :: !PartialTag(s, tag, m)
    ensures n == HoldLength(s, tag)
  {
  }

  /** The fragment a streamed tag may still grow from. */
  method PartialTagSuffix(text: string, tag: string) returns (hold: string)
    requires |tag| > 0
    ensures hold == text[|text| - HoldLength(text, tag)..]
  {
    var n := if |text| < |tag| - 1 then |text| else |tag| - 1;
    while n > 0
      invariant 0 <= n <= |text| && n < |tag|
      invariant forall m: nat | n < m :: !PartialTag(text, tag, m)
    {
      if FoldAll(text[|text| - n..]) == tag[..n] {
        HoldLengthUnique(text, tag, n);
        return text[|text| - n..];
      }
      n := n - 1;
    }
    HoldLengthUnique(text, tag, 0);
    return "";
  }

  // ---------------------------------------------------------------- routing

  /** What a scan sent to each channel, and what it still holds. */
  datatype Routing = Routing(reasoning: string, visible: string, thinking: bool, held: string) {
    function Prepend(span: bool, text: string): Routing {
      if span then this.(reasoning := text + reasoning) else this.(visible := text + visible)
    }

    function Then(later: Routing): Routing {
      Routing(reasoning + later.reasoning, visible + later.visible, later.thinking, later.held)
    }
  }

  /** The one-shot scan: leftmost alternating tags, everything routed. */
  function Scan(thinking: bool, text: string): Routing
    decreases |text|
  {
    var tag := Tag(thinking);
    match Find(text, tag, 0)
    case Some(i) => Scan(!thinking, text[i + |tag|..]).Prepend(thinking, text[..i])
    case None => Routing("", "", thinking, "").Prepend(thinking, text)
  }

  /** The same scan when more text may follow: a possible partial tag is held. */
  ghost function Drain(thinking: bool, text: string): Routing
    decreases |text|
  {
    var tag := Tag(thinking);
    match Find(text, tag, 0)
    case Some(i) => Drain(!thinking, text[i + |tag|..]).Prepend(thinking, text[..i])
    case None =>
      var cut := |text| - HoldLength(text, tag);
      Routing("", "", thinking, text[cut..]).Prepend(thinking, text[..cut])
  }

  // The algebra of routings, so that later proofs do not re-associate strings.

  lemma ThenAssociative(a: Routing, b: Routing, c: Routing)
    ensures a.Then(b.Then(c)) == a.Then(b).Then(c)
  {
    assert a.reasoning + (b.reasoning + c.reasoning) == a.reasoning + b.reasoning + c.reasoning;
    assert a.visible + (b.visible + c.visible) == a.visible + b.visible + c.visible;
  }

  lemma PrependThen(span: bool, text: string, a: Routing, b: Routing)
    ensures a.Prepend(span, text).Then(b) == a.Then(b).Prepend(span, text)
  {
    assert text + (a.reasoning + b.reasoning) == text + a.reasoning + b.reasoning;
    assert text + (a.visible + b.visible) == text + a.visible + b.visible;
  }

  lemma PrependPrepend(span: bool, s: string, t: string, a: Routing)
    ensures a.Prepend(span, t).Prepend(span, s) == a.Prepend(span, s + t)
  {
    assert s + (t + a.reasoning) == s + t + a.reasoning;
    assert s + (t + a.visible) == s + t + a.visible;
  }

  lemma NothingThen(thinking: bool, held: string, a: Routing)
    ensures Routing("", "", thinking, held).Then(a) == a
  {
  }

  // Matches in a text that grows.

  /** Adding text on the right moves no earlier match, and adds none that ends inside the old text. */
  lemma MatchInPrefix(a: string, b: string, tag: string, i: nat)
    requires i + |tag| <= |a|
    ensures MatchesAt(a + b, tag, i) <==> MatchesAt(a, tag, i)
  {
    assert (a + b)[i..i + |tag|] == a[i..i + |tag|];
  }

  lemma MatchInSuffix(a: string, b: string, tag: string, i: nat)
    ensures MatchesAt(b, tag, i) <==> MatchesAt(a + b, tag, |a| + i)
  {
    if i + |tag| <= |b| {
      assert (a + b)[|a| + i..|a| + i + |tag|] == b[i..i + |tag|];
    }
  }

  lemma FindUnique(s: string, tag: string, i: nat)
    requires MatchesAt(s, tag, i) && forall j: nat | j < i :: !MatchesAt(s, tag, j)
    ensures Find(s, tag, 0) == Some(i)
  {
  }

  /** The leftmost match of a text is still the leftmost one after more text. */
  lemma FindInGrownText(a: string, b: string, tag: string, i: nat)
    requires Find(a, tag, 0) == Some(i)
    ensures Find(a + b, tag, 0) == Some(i)
  {
    MatchInPrefix(a, b, tag, i);
    forall j: nat | j < i ensures !MatchesAt(a + b, tag, j) { MatchInPrefix(a, b, tag, j); }
    FindUnique(a + b, tag, i);
  }

  lemma NoMatchInSuffix(s: string, cut: nat, tag: string)
    requires cut <= |s| && Find(s, tag, 0) == None
    ensures Find(s[cut..], tag, 0) == None
  {
    assert s == s[..cut] + s[cut..];
    forall j: nat ensures !MatchesAt(s[cut..], tag, j) { MatchInSuffix(s[..cut], s[cut..], tag, j); }
  }

  /** A match that begins in tag-free text and ends beyond it begins inside the held part. */
  lemma StraddlingMatchIsHeld(a: string, b: string, tag: string, i: nat)
    requires |tag| > 0
    requires Find(a, tag, 0) == None
    requires MatchesAt(a + b, tag, i)
    ensures |a| - HoldLength(a, tag) <= i
  {
    if i + |tag| <= |a| {
      MatchInPrefix(a, b, tag, i);
    } else if i < |a| {
      var n := |a| - i;
      var m := (a + b)[i..i + |tag|];
      assert m == a[i..] + m[n..];
      FoldAllConcat(a[i..], m[n..]);
      assert tag[..n] == FoldAll(a[i..]);
      assert PartialTag(a, tag, n);
    }
  }

  lemma FindShift(sent: string, later: string, tag: string)
    requires forall j: nat | MatchesAt(sent + later, tag, j) :: |sent| <= j
    ensures var m := Find(later, tag, 0);
            Find(sent + later, tag, 0) == if m.Some? then Some(|sent| + m.value) else None
  {
    hide MatchesAt, Find;
    match Find(later, tag, 0)
    case Some(i) =>
      MatchInSuffix(sent, later, tag, i);
      forall j: nat | j < |sent| + i ensures !MatchesAt(sent + later, tag, j) {
        if |sent| <= j { MatchInSuffix(sent, later, tag, j - |sent|); }
      }
      FindUnique(sent + later, tag, |sent| + i);
    case None =>
      forall j: nat ensures !MatchesAt(sent + later, tag, j) {
        if |sent| <= j { MatchInSuffix(sent, later, tag, j - |sent|); }
      }
  }

  /** Only the held part of tag-free text can take part in a later match. */
  lemma FindAfterHold(a: string, tag: string, sent: string, later: string, whole: string)
    requires |tag| > 0 && Find(a, tag, 0) == None
    requires |sent| == |a| - HoldLength(a, tag)
    requires whole == sent + later && |a| <= |whole| && whole[..|a|] == a
    ensures var m := Find(later, tag, 0);
            Find(whole, tag, 0) == if m.Some? then Some(|sent| + m.value) else None
  {
    hide MatchesAt, Find;
    forall j: nat | MatchesAt(whole, tag, j) ensures |sent| <= j {
      CutAndJoin(whole, |a|);
      StraddlingMatchIsHeld(a, whole[|a|..], tag, j);
    }
    FindShift(sent, later, tag);
  }

  lemma PartialOfSuffix(s: string, cut: nat, tag: string, n: nat)
    requires cut + n <= |s|
    ensures PartialTag(s[cut..], tag, n) <==> PartialTag(s, tag, n)
  {
    var r := s[cut..];
    assert r[|r| - n..] == s[|s| - n..];
  }

  lemma PartialOfPrefix(a: string, b: string, tag: string, n: nat)
    requires |b| <= n && PartialTag(a + b, tag, n)
    ensures PartialTag(a, tag, n - |b|)
  {
    var m := n - |b|;
    assert (a + b)[|a + b| - n..] == a[|a| - m..] + b;
    FoldAllConcat(a[|a| - m..], b);
    assert tag[..m] == tag[..n][..m] == FoldAll(a[|a| - m..]);
  }

  lemma HoldAfterAppend(a: string, b: string, tag: string)
    requires |tag| > 0
    ensures var h := a[|a| - HoldLength(a, tag)..];
            HoldLength(a + b, tag) == HoldLength(h + b, tag)
  {
    var cut := |a| - HoldLength(a, tag);
    var h := a[cut..];
    assert (a + b)[cut..] == h + b;
    forall n: nat
      ensures PartialTag(a + b, tag, n) <==> PartialTag(h + b, tag, n)
    {
      if n <= |h + b| {
        PartialOfSuffix(a + b, cut, tag, n);
      } else if PartialTag(a + b, tag, n) {
        PartialOfPrefix(a, b, tag, n);
      }
    }
    HoldLengthUnique(h + b, tag, HoldLength(a + b, tag));
  }

  // One unfolding of each scan, named so that proofs need not look inside.

  lemma DrainAtTag(thinking: bool, text: string, i: nat)
    requires Find(text, Tag(thinking), 0) == Some(i)
    ensures Drain(thinking, text)
         == Drain(!thinking, text[i + |Tag(thinking)|..]).Prepend(thinking, text[..i])
  {
  }

  lemma DrainNoTag(thinking: bool, text: string)
    requires Find(text, Tag(thinking), 0) == None
    ensures var cut := |text| - HoldLength(text, Tag(thinking));
            Drain(thinking, text) == Routing("", "", thinking, text[cut..]).Prepend(thinking, text[..cut])
  {
  }

  /** Streaming is a homomorphism: the state after `a` is all that `b` needs. */
  lemma {:induction false} DrainAppend(thinking: bool, a: string, b: string)
    ensures var d := Drain(thinking, a);
            Drain(thinking, a + b) == d.Then(Drain(d.thinking, d.held + b))
    decreases |a|
  {
    var tag := Tag(thinking);
    match Find(a, tag, 0)
    case Some(i) =>
      FindInGrownText(a, b, tag, i);
      var rest := a[i + |tag|..];
      CutInFirst(a, b, i + |tag|);
      CutInFirst(a, b, i);
      DrainAtTag(thinking, a, i);
      DrainAtTag(thinking, a + b, i);
      DrainAppend(!thinking, rest, b);
      var d := Drain(!thinking, rest);
      PrependThen(thinking, a[..i], d, Drain(d.thinking, d.held + b));
    case None =>
      DrainAppendNoTag(thinking, a, b);
  }

  lemma DrainShiftTag(thinking: bool, sent: string, later: string, i: nat)
    requires Find(later, Tag(thinking), 0) == Some(i)
    requires Find(sent + later, Tag(thinking), 0) == Some(|sent| + i)
    ensures Drain(thinking, sent + later) == Drain(thinking, later).Prepend(thinking, sent)
  {
    hide Tag, Find, Drain, HoldLength;
    DrainAtTag(thinking, sent + later, |sent| + i);
    DrainAtTag(thinking, later, i);
    var next := i + |Tag(thinking)|;
    CutInSecond(sent, later, next);
    CutInSecond(sent, later, i);
    PrependPrepend(thinking, sent, later[..i], Drain(!thinking, later[next..]));
  }

  lemma DrainShiftNoTag(thinking: bool, sent: string, later: string)
    requires Find(later, Tag(thinking), 0) == None
    requires Find(sent + later, Tag(thinking), 0) == None
    requires HoldLength(sent + later, Tag(thinking)) == HoldLength(later, Tag(thinking))
    ensures Drain(thinking, sent + later) == Drain(thinking, later).Prepend(thinking, sent)
  {
    DrainNoTag(thinking, sent + later);
    DrainNoTag(thinking, later);
    var cut := |later| - HoldLength(later, Tag(thinking));
    CutInSecond(sent, later, cut);
    PrependPrepend(thinking, sent, later[..cut], Routing("", "", thinking, later[cut..]));
  }

  lemma DrainAppendNoTag(thinking: bool, a: string, b: string)
    requires Find(a, Tag(thinking), 0).None?
    ensures var d := Drain(thinking, a);
            Drain(thinking, a + b) == d.Then(Drain(d.thinking, d.held + b))
  {
    hide Tag, Find, Drain, PartialTag;
    var tag := Tag(thinking);
    var cut := |a| - HoldLength(a, tag);
    var sent, held := a[..cut], a[cut..];
    var later := held + b;
    CutAndJoin(a, cut);
    AppendAssociative(sent, held, b);
    DrainNoTag(thinking, a);
    assert (a + b)[..|a|] == a;
    FindAfterHold(a, tag, sent, later, a + b);
    HoldAfterAppend(a, b, tag);
    match Find(later, tag, 0) {
      case Some(i) => DrainShiftTag(thinking, sent, later, i);
      case None => DrainShiftNoTag(thinking, sent, later);
    }
    var e := Drain(thinking, later);
    PrependThen(thinking, sent, Routing("", "", thinking, held), e);
    NothingThen(thinking, held, e);
  }

  lemma ScanNoTag(thinking: bool, text: string)
    requires Find(text, Tag(thinking), 0) == None
    ensures Scan(thinking, text) == Routing("", "", thinking, "").Prepend(thinking, text)
  {
  }

  lemma ScanAtTag(thinking: bool, text: string, i: nat)
    requires Find(text, Tag(thinking), 0) == Some(i)
    ensures Scan(thinking, text)
         == Scan(!thinking, text[i + |Tag(thinking)|..]).Prepend(thinking, text[..i])
  {
  }

  /** The held text is what separates the streaming scan from the one-shot scan. */
  lemma {:induction false} ScanIsDrainThenFlush(thinking: bool, text: string)
    ensures var d := Drain(thinking, text);
            Scan(thinking, text) == d.Then(Scan(d.thinking, d.held))
    decreases |text|
  {
    var tag := Tag(thinking);
    match Find(text, tag, 0)
    case Some(i) =>
      var rest := text[i + |tag|..];
      ScanAtTag(thinking, text, i);
      DrainAtTag(thinking, text, i);
      ScanIsDrainThenFlush(!thinking, rest);
      var d := Drain(!thinking, rest);
      PrependThen(thinking, text[..i], d, Scan(d.thinking, d.held));
    case None =>
      var cut := |text| - HoldLength(text, tag);
      var held := text[cut..];
      assert text == text[..cut] + held;
      NoMatchInSuffix(text, cut, tag);
      DrainNoTag(thinking, text);
      ScanNoTag(thinking, text);
      ScanNoTag(thinking, held);
      var e := Scan(thinking, held);
      PrependThen(thinking, text[..cut], Routing("", "", thinking, held), e);
      NothingThen(thinking, held, e);
      PrependPrepend(thinking, text[..cut], held, Routing("", "", thinking, ""));
  }

  /** The text after the last tag the scan consumed. */
  function AfterLastTag(thinking: bool, text: string): string
    decreases |text|
  {
    var tag := Tag(thinking);
    match Find(text, tag, 0)
    case Some(i) => AfterLastTag(!thinking, text[i + |tag|..])
    case None => text
  }

  lemma AfterLastTagAtTag(thinking: bool, text: string, i: nat)
    requires Find(text, Tag(thinking), 0) == Some(i)
    ensures AfterLastTag(thinking, text) == AfterLastTag(!thinking, text[i + |Tag(thinking)|..])
  {
  }

  lemma AfterLastTagNoTag(thinking: bool, text: string)
    requires Find(text, Tag(thinking), 0) == None
    ensures AfterLastTag(thinking, text) == text
  {
  }

  /** The text held open, given the text since the last tag. */
  ghost predicate HoldsExactly(open: string, d: Routing) {
    && Find(open, Tag(d.thinking), 0) == None
    && d.held == open[|open| - HoldLength(open, Tag(d.thinking))..]
  }

  /** What is held is exactly the longest end of the text since the last tag
      that the sought tag may still start from; it never holds a whole tag. */
  lemma {:induction false} HeldIsLongestPartialTag(thinking: bool, text: string)
    ensures HoldsExactly(AfterLastTag(thinking, text), Drain(thinking, text))
    ensures Drain(thinking, text).thinking == Scan(thinking, text).thinking
    decreases |text|
  {
    hide Find, Drain, Scan, Tag, AfterLastTag;
    var tag := Tag(thinking);
    match Find(text, tag, 0)
    case Some(i) =>
      DrainAtTag(thinking, text, i);
      ScanAtTag(thinking, text, i);
      AfterLastTagAtTag(thinking, text, i);
      HeldIsLongestPartialTag(!thinking, text[i + |tag|..]);
    case None =>
      AfterLastTagNoTag(thinking, text);
      DrainNoTag(thinking, text);
      ScanNoTag(thinking, text);
  }

  // ---------------------------------------------------------------- deltas

  /** The streaming scan fed one delta after another. */
  ghost function Feed(thinking: bool, held: string, deltas: seq<string>): Routing
    decreases |deltas|
  {
    if |deltas| == 0 then Routing("", "", thinking, held)
    else
      var d := Drain(thinking, held + deltas[0]);
      d.Then(Feed(d.thinking, d.held, deltas[1..]))
  }

  /** Feeding any cut of a text leaves the same channels, mode and held text as one delta. */
  lemma {:induction false} FeedIsDrain(thinking: bool, before: string, deltas: seq<string>)
    ensures var d := Drain(thinking, before);
            Drain(thinking, before + Concat(deltas)) == d.Then(Feed(d.thinking, d.held, deltas))
    decreases |deltas|
  {
    var d := Drain(thinking, before);
    if |deltas| == 0 {
      assert before + Concat(deltas) == before;
    } else {
      var first, others := deltas[0], deltas[1..];
      DrainAppend(thinking, before, first);
      var e := Drain(d.thinking, d.held + first);
      FeedIsDrain(thinking, before + first, others);
      AppendAssociative(before, first, Concat(others));
      ThenAssociative(d, e, Feed(e.thinking, e.held, others));
    }
  }

  lemma DrainNothing(thinking: bool)
    ensures Drain(thinking, "") == Routing("", "", thinking, "")
  {
    assert Find("", Tag(thinking), 0) == None;
    DrainNoTag(thinking, "");
  }

  /** Split invariance: deltas then a flush route exactly what the one-shot scan routes. */
  lemma SplitInvariance(thinking: bool, deltas: seq<string>)
    ensures var f := Feed(thinking, "", deltas);
            f.Then(Scan(f.thinking, f.held)) == Scan(thinking, Concat(deltas))
    ensures Feed(thinking, "", deltas) == Drain(thinking, Concat(deltas))
  {
    DrainNothing(thinking);
    FeedIsDrain(thinking, "", deltas);
    NothingThen(thinking, "", Feed(thinking, "", deltas));
    assert "" + Concat(deltas) == Concat(deltas);
    ScanIsDrainThenFlush(thinking, Concat(deltas));
  }

  // ---------------------------------------------------------------- pieces

  /** The spans between tags, the first one in mode `thinking`. */
  function Pieces(thinking: bool, text: string): (ps: seq<string>)
    ensures |ps| > 0
    decreases |text|
  {
    var tag := Tag(thinking);
    match Find(text, tag, 0)
    case Some(i) => [text[..i]] + Pieces(!thinking, text[i + |tag|..])
    case None => [text]
  }

  /** Spans written back with literal tags between them. */
  function Render(thinking: bool, ps: seq<string>): string
    requires |ps| > 0
    decreases |ps|
  {
    if |ps| == 1 then ps[0] else ps[0] + Tag(thinking) + Render(!thinking, ps[1..])
  }

  /** No span hides a match of the tag that ends it. */
  ghost predicate Clean(thinking: bool, ps: seq<string>)
    requires |ps| > 0
    decreases |ps|
  {
    if |ps| == 1 then forall j: nat :: !MatchesAt(ps[0], Tag(thinking), j)
    else
      && (forall j: nat | j < |ps[0]| :: !MatchesAt(ps[0] + Tag(thinking), Tag(thinking), j))
      && Clean(!thinking, ps[1..])
  }

  /** The text of one channel: every other span. */
  function Channel(ps: seq<string>): string {
    if |ps| == 0 then "" else if |ps| == 1 then ps[0] else ps[0] + Channel(ps[2..])
  }

  lemma PiecesAtTag(thinking: bool, text: string, i: nat)
    requires Find(text, Tag(thinking), 0) == Some(i)
    ensures Pieces(thinking, text) == [text[..i]] + Pieces(!thinking, text[i + |Tag(thinking)|..])
  {
  }

  lemma PiecesNoTag(thinking: bool, text: string)
    requires Find(text, Tag(thinking), 0) == None
    ensures Pieces(thinking, text) == [text]
  {
  }

  /** The spans `ps` of a text, read in mode `thinking`, are what `s` routed. */
  predicate RoutesSpans(thinking: bool, ps: seq<string>, s: Routing)
    requires |ps| > 0
  {
    && (if thinking then s.reasoning else s.visible) == Channel(ps)
    && (if thinking then s.visible else s.reasoning) == Channel(ps[1..])
    && s.held == ""
    && s.thinking == (thinking == (|ps| % 2 == 1))
  }

  lemma RoutesOneMore(thinking: bool, p: string, ps: seq<string>, s: Routing)
    requires |ps| > 0 && RoutesSpans(!thinking, ps, s)
    ensures RoutesSpans(thinking, [p] + ps, s.Prepend(thinking, p))
  {
    var all := [p] + ps;
    assert all[1..] == ps && all[2..] == ps[1..];
  }

  /** The one-shot scan sends each channel every other span of the text. */
  lemma {:induction false} ScanIsChannels(thinking: bool, text: string)
    ensures RoutesSpans(thinking, Pieces(thinking, text), Scan(thinking, text))
    decreases |text|
  {
    var tag := Tag(thinking);
    match Find(text, tag, 0)
    case Some(i) =>
      var rest := text[i + |tag|..];
      ScanIsChannels(!thinking, rest);
      PiecesAtTag(thinking, text, i);
      ScanAtTag(thinking, text, i);
      RoutesOneMore(thinking, text[..i], Pieces(!thinking, rest), Scan(!thinking, rest));
    case None =>
      PiecesNoTag(thinking, text);
      ScanNoTag(thinking, text);
  }

  lemma FoldOfTag(thinking: bool)
    ensures var t := Tag(thinking); forall k | 0 <= k < |t| :: Fold(t[k]) == t[k]
  {
  }

  lemma TagMatchesItself(thinking: bool, p: string, rest: string)
    ensures MatchesAt(p + Tag(thinking) + rest, Tag(thinking), |p|)
  {
    FoldOfTag(thinking);
    var t := Tag(thinking);
    assert (p + t + rest)[|p|..|p| + |t|] == t;
    assert FoldAll(t) == t;
  }

  lemma CutAroundTag(p: string, t: string, rest: string)
    ensures (p + t + rest)[..|p|] == p && (p + t + rest)[|p| + |t|..] == rest
  {
  }

  lemma FindTagAfterSpan(thinking: bool, p: string, rest: string)
    requires forall j: nat | j < |p| :: !MatchesAt(p + Tag(thinking), Tag(thinking), j)
    ensures Find(p + Tag(thinking) + rest, Tag(thinking), 0) == Some(|p|)
  {
    var t := Tag(thinking);
    var text := p + t + rest;
    TagMatchesItself(thinking, p, rest);
    forall j: nat | j < |p| ensures !MatchesAt(text, t, j) {
      MatchInPrefix(p + t, rest, t, j);
    }
    FindUnique(text, t, |p|);
  }

  /** Scanning undoes writing: clean spans survive the round trip. */
  lemma {:induction false} PiecesOfRender(thinking: bool, ps: seq<string>)
    requires |ps| > 0 && Clean(thinking, ps)
    ensures Pieces(thinking, Render(thinking, ps)) == ps
    decreases |ps|
  {
    hide Tag, Find, MatchesAt, Pieces;
    var t := Tag(thinking);
    if |ps| == 1 {
      PiecesNoTag(thinking, ps[0]);
    } else {
      var rest := Render(!thinking, ps[1..]);
      FindTagAfterSpan(thinking, ps[0], rest);
      CutAroundTag(ps[0], t, rest);
      PiecesAtTag(thinking, ps[0] + t + rest, |ps[0]|);
      PiecesOfRender(!thinking, ps[1..]);
      assert [ps[0]] + ps[1..] == ps;
    }
  }

  lemma MatchDependsOnFold(s: string, r: string, t: string, i: nat)
    requires FoldAll(s) == FoldAll(r)
    ensures MatchesAt(s, t, i) <==> MatchesAt(r, t, i)
  {
    assert |FoldAll(s)| == |s| && |FoldAll(r)| == |r|;
    if i + |t| <= |s| {
      assert FoldAll(s[i..i + |t|]) == FoldAll(s)[i..i + |t|];
      assert FoldAll(r[i..i + |t|]) == FoldAll(r)[i..i + |t|];
    }
  }

  /** Writing undoes scanning, up to the case of the tags. */
  lemma {:induction false} RenderOfPieces(thinking: bool, text: string)
    ensures FoldAll(Render(thinking, Pieces(thinking, text))) == FoldAll(text)
    decreases |text|
  {
    hide Find, Pieces;
    var t := Tag(thinking);
    match Find(text, t, 0)
    case Some(i) =>
      var p, m, rest := text[..i], text[i..i + |t|], text[i + |t|..];
      assert text == p + m + rest;
      RenderOfPieces(!thinking, rest);
      PiecesAtTag(thinking, text, i);
      var ps := Pieces(!thinking, rest);
      var r := Render(!thinking, ps);
      assert ([p] + ps)[1..] == ps;
      assert Render(thinking, [p] + ps) == p + t + r;
      FoldOfTag(thinking);
      assert FoldAll(t) == t;
      FoldAllConcat(p + t, r); FoldAllConcat(p, t);
      FoldAllConcat(p + m, rest); FoldAllConcat(p, m);
    case None =>
      PiecesNoTag(thinking, text);
  }

  /** Every scan yields clean spans. */
  lemma {:induction false} PiecesAreClean(thinking: bool, text: string)
    ensures Clean(thinking, Pieces(thinking, text))
    decreases |text|
  {
    var t := Tag(thinking);
    match Find(text, t, 0)
    case Some(i) =>
      var p, m, rest := text[..i], text[i..i + |t|], text[i + |t|..];
      assert text == p + m + rest;
      PiecesAreClean(!thinking, rest);
      PiecesAtTag(thinking, text, i);
      assert ([p] + Pieces(!thinking, rest))[1..] == Pieces(!thinking, rest);
      FoldOfTag(thinking);
      assert FoldAll(t) == t;
      FoldAllConcat(p, t); FoldAllConcat(p, m);
      forall j: nat | j < i ensures !MatchesAt(p + t, t, j) {
        MatchDependsOnFold(p + t, p + m, t, j);
        MatchInPrefix(p + m, rest, t, j);
      }
    case None =>
      PiecesNoTag(thinking, text);
  }
}
