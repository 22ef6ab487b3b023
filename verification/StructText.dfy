/** The text that describes a struct, and reading it back before the struct is changed. Printing and
    reading numerals is left to the language: only that reading undoes printing is used. */
module StructText {
  import opened Wrappers
  import opened Text
  import Detectors

  datatype Numerals = Numerals(
    decimal: int -> string, offset: nat -> string, hex: nat -> string,
    readAny: string -> Option<int>, readHex: string -> Option<nat>)

  /** A member as it is listed, and as it is read back. */
  datatype Entry = Entry(name: string, ctype: string, offset: nat, size: int, comment: string)

  datatype Info = Info(name: string, size: int, entries: seq<Entry>)

  // ---------------------------------------------------------------- writing

  function Spaces(n: nat): string {
    seq(n, _ => ' ')
  }

  /** Left-aligned in a column of 24. */
  function Padded(s: string): string {
    s + Spaces(if |s| < 24 then 24 - |s| else 0)
  }

  function CommentPart(comment: string): string {
    if comment == "" then "" else "  ; " + comment
  }

  function Columns(e: Entry): string {
    Padded(e.ctype) + (" " + Padded(e.name))
  }

  function SizePart(num: Numerals, e: Entry): string {
    num.decimal(e.size) + " bytes)"
  }

  /** The line of a member, without its indentation. */
  function EntryText(num: Numerals, e: Entry): string {
    num.offset(e.offset) + ("  " + (Columns(e) + (" (" + SizePart(num, e)) + CommentPart(e.comment)))
  }

  function EntryLine(num: Numerals, e: Entry): string {
    "  " + EntryText(num, e)
  }

  function EntryLines(num: Numerals, entries: seq<Entry>): seq<string> {
    if |entries| == 0 then [] else [EntryLine(num, entries[0])] + EntryLines(num, entries[1..])
  }

  function HeaderLines(num: Numerals, info: Info): seq<string>
    requires info.size >= 0
  {
    ["Struct: " + info.name,
     "Size: " + (num.decimal(info.size) + (" (" + (num.hex(info.size) + ")"))),
     "Members: " + num.decimal(|info.entries|),
     ""]
  }

  function Describe(num: Numerals, info: Info): string
    requires info.size >= 0
  {
    JoinLines(HeaderLines(num, info) + EntryLines(num, info.entries))
  }

  // ---------------------------------------------------------------- reading

  predicate IsLineBreak(c: char) {
    c == '\n' || c == '\r' || c == '\U{B}' || c == '\U{C}' || '\U{1C}' <= c <= '\U{1E}' || c == '\U{85}'
    || c == '\U{2028}' || c == '\U{2029}'
  }

  function IndexWhere(p: char -> bool, s: string): (i: nat)
    ensures i <= |s| && (i < |s| ==> p(s[i])) && forall k | 0 <= k < i :: !p(s[k])
  {
    if s == "" || p(s[0]) then 0 else 1 + IndexWhere(p, s[1..])
  }

  predicate IsSemicolon(c: char) { c == ';' }

  predicate IsBlank(c: char) { c == ' ' }

  /** Python's `splitlines`: no empty last line, and CR LF is one break. */
  function SplitLines(s: string): seq<string>
    decreases |s|
  {
    if s == "" then []
    else
      var i := IndexWhere(IsLineBreak, s);
      if i == |s| then [s]
      else
        var width := if s[i] == '\r' && i + 1 < |s| && s[i + 1] == '\n' then 2 else 1;
        [s[..i]] + SplitLines(s[i + width..])
  }

  /** Python's `split()`: the words between white space. */
  function Words(s: string): seq<string>
    decreases |s|
  {
    var t := LStrip(s);
    if t == "" then []
    else
      var n := IndexWhere(IsSpace, t);
      if n == 0 then [] else [t[..n]] + Words(t[n..])
  }

  function JoinWords(ws: seq<string>): string {
    if |ws| == 0 then "" else if |ws| == 1 then ws[0] else ws[0] + (" " + JoinWords(ws[1..]))
  }

  function LastIndex(c: char, s: string): (i: int)
    ensures -1 <= i < |s| && (i >= 0 ==> s[i] == c) && forall k | i < k < |s| :: s[k] != c
  {
    if s == "" then -1 else if s[|s| - 1] == c then |s| - 1 else LastIndex(c, s[..|s| - 1])
  }

  /** What follows the first word and the space after it; None if there is nothing. */
  function AfterFirstWord(s: string): Option<string> {
    var n := IndexWhere(IsSpace, s);
    var rest := LStrip(s[n..]);
    if rest == "" then None else Some(rest)
  }

  /** The number before " bytes)". */
  function ReadSize(num: Numerals, tail: string): Option<int> {
    var t := Strip(tail);
    var words := Words(if t != "" && t[|t| - 1] == ')' then t[..|t| - 1] else t);
    if |words| == 0 then None else num.readAny(words[0])
  }

  /** What stands before the first semicolon, and the trimmed text after it. */
  function FrontIn(after: string): string {
    after[..IndexWhere(IsSemicolon, after)]
  }

  function CommentIn(after: string): string {
    var semi := IndexWhere(IsSemicolon, after);
    if semi < |after| then Strip(after[semi + 1..]) else ""
  }

  /** A member line, trimmed; None where the program skips the line. */
  function ReadEntry(num: Numerals, stripped: string): Option<Entry> {
    var after := AfterFirstWord(stripped);
    if after.None? then None
    else
      var front := FrontIn(after.value);
      var paren := LastIndex('(', front);
      var body := if paren < 0 then "" else RStrip(front[..paren]);
      var size := ReadSize(num, if paren < 0 then front else front[paren + 1..]);
      var words := Words(body);
      var offset := num.readHex(stripped[..IndexWhere(IsSpace, stripped)]);
      if size.None? || |words| < 2 || offset.None? then None
      else Some(Entry(words[|words| - 1], JoinWords(words[..|words| - 1]), offset.value, size.value,
          CommentIn(after.value)))
  }

  /** The number at the front of a size line. */
  function SizeIn(num: Numerals, text: string): Option<int> {
    var rest := Strip(text);
    num.readAny(rest[..IndexWhere(IsBlank, rest)])
  }

  function ReadLine(num: Numerals, info: Info, line: string): Info {
    var stripped := Strip(line);
    if StartsWith(stripped, "Struct:") then info.(name := Strip(stripped[|"Struct:"|..]))
    else if StartsWith(stripped, "Size:") then
      var size := SizeIn(num, stripped[|"Size:"|..]);
      if size.Some? then info.(size := size.value) else info
    else if StartsWith(stripped, "+0x") then
      var e := ReadEntry(num, stripped);
      if e.Some? then info.(entries := info.entries + [e.value]) else info
    else info
  }

  const NO_INFO := Info("", 0, [])

  function ReadLines(num: Numerals, lines: seq<string>): Info {
    if |lines| == 0 then NO_INFO else ReadLine(num, ReadLines(num, lines[..|lines| - 1]), lines[|lines| - 1])
  }

  method ParseStructInfo(num: Numerals, raw: string) returns (info: Option<Info>)
    ensures info == ParsedInfo(num, raw)
  {
    hide ReadLine, Strip;
    if Strip(raw) == "" || (StartsWith(raw, "Struct '") && Detectors.Contains(raw, "not found")) { return None; }
    var lines := SplitLines(raw);
    var got := NO_INFO;
    var i := 0;
    while i < |lines|
      invariant i <= |lines| && got == ReadLines(num, lines[..i])
    {
      assert lines[..i + 1][..i] == lines[..i];
      got := ReadLine(num, got, lines[i]);
      i := i + 1;
    }
    assert lines[..i] == lines;
    info := if got.name == "" then None else Some(got);
  }

  function ParsedInfo(num: Numerals, raw: string): Option<Info> {
    if Strip(raw) == "" || (StartsWith(raw, "Struct '") && Detectors.Contains(raw, "not found")) then None
    else
      var info := ReadLines(num, SplitLines(raw));
      if info.name == "" then None else Some(info)
  }

  // ---------------------------------------------------------------- plain structs

  predicate IsWord(s: string) {
    s != "" && forall c | c in s :: !IsSpace(c) && c != ';'
  }

  predicate OneLine(s: string) {
    forall c | c in s :: !IsLineBreak(c)
  }

  /** Numerals are words, decimal ones without parentheses; sizes and offsets are read back. */
  ghost predicate Lawful(num: Numerals) {
    forall n: nat ::
      && num.readAny(num.decimal(n)) == Some(n) && num.readHex(num.offset(n)) == Some(n)
      && IsWord(num.decimal(n)) && IsWord(num.offset(n)) && IsWord(num.hex(n))
      && StartsWith(num.offset(n), "+0x") && StartsWith(num.hex(n), "0x")
      && (forall c | c in num.decimal(n) :: c != '(' && c != ')')
  }

  /** A size, a one-word name, a type of words, and a trimmed comment on one line. */
  ghost predicate Plain(e: Entry) {
    && e.size >= 0 && IsWord(e.name)
    && (exists ws :: ws != [] && (forall w | w in ws :: IsWord(w)) && e.ctype == JoinWords(ws))
    && Strip(e.comment) == e.comment && OneLine(e.comment)
  }

  // ---------------------------------------------------------------- words and padding

  lemma {:induction false} SkipSpaces(n: nat, s: string)
    ensures LStrip(Spaces(n) + s) == LStrip(s)
  {
    hide IsSpace;
    if n == 0 {
      assert Spaces(0) + s == s;
    } else {
      assert (Spaces(n) + s)[0] == ' ' && IsSpace(' ') by { SpaceIsSpace(); }
      assert (Spaces(n) + s)[1..] == Spaces(n - 1) + s;
      SkipSpaces(n - 1, s);
    }
  }

  lemma SpaceIsSpace()
    ensures IsSpace(' ')
  {
  }

  lemma SameWords(s: string, t: string)
    requires LStrip(s) == LStrip(t)
    ensures Words(s) == Words(t)
  {
    hide IsSpace, IndexWhere, LStrip;
  }

  lemma WordsAfterSpaces(n: nat, s: string)
    ensures Words(Spaces(n) + s) == Words(s)
  {
    hide Words;
    SkipSpaces(n, s);
    SameWords(Spaces(n) + s, s);
  }

  lemma InkRun(w: string, rest: string)
    requires IsWord(w) && (rest == "" || IsSpace(rest[0]))
    ensures IndexWhere(IsSpace, w + rest) == |w| && LStrip(w + rest) == w + rest
  {
    hide IsSpace;
    forall k | 0 <= k < |w| ensures !IsSpace((w + rest)[k]) { assert w[k] in w; }
    IndexUnique(IsSpace, w + rest, |w|);
  }

  lemma IndexUnique(p: char -> bool, s: string, i: nat)
    requires i <= |s| && (i < |s| ==> p(s[i])) && forall k | 0 <= k < i :: !p(s[k])
    ensures IndexWhere(p, s) == i
  {
  }

  lemma FirstWord(w: string, rest: string)
    requires IsWord(w) && (rest == "" || IsSpace(rest[0]))
    ensures Words(w + rest) == [w] + Words(rest)
  {
    hide IsSpace, IsWord;
    InkRun(w, rest);
    assert w != "" by { WordIsText(w); }
    assert (w + rest)[..|w|] == w && (w + rest)[|w|..] == rest;
  }

  lemma WordIsText(w: string)
    requires IsWord(w)
    ensures w != ""
  {
  }

  /** The words of joined words with more text after them. */
  lemma {:induction false} WordsOfJoined(ws: seq<string>, rest: string)
    requires ws != [] && forall w | w in ws :: IsWord(w)
    requires rest == "" || IsSpace(rest[0])
    ensures Words(JoinWords(ws) + rest) == ws + Words(rest)
  {
    hide IsSpace, IsWord, Words;
    assert ws[0] in ws;
    if |ws| == 1 {
      FirstWord(ws[0], rest);
    } else {
      var more := JoinWords(ws[1..]) + rest;
      AppendAssociative(ws[0], " " + JoinWords(ws[1..]), rest);
      AppendAssociative(" ", JoinWords(ws[1..]), rest);
      SpaceIsSpace();
      FirstWord(ws[0], " " + more);
      WordsAfterSpaces(1, more);
      assert Spaces(1) + more == " " + more;
      WordsOfJoined(ws[1..], rest);
      AppendAssociative([ws[0]], ws[1..], Words(rest));
      assert [ws[0]] + ws[1..] == ws;
    }
  }

  lemma PadStarts(s: string, rest: string)
    ensures Padded(s) + rest == s + (Spaces(if |s| < 24 then 24 - |s| else 0) + rest)
  {
  }

  lemma SpacesStart(n: nat, rest: string)
    requires rest != "" && IsSpace(rest[0])
    ensures Spaces(n) + rest != "" && IsSpace((Spaces(n) + rest)[0])
  {
  }

  /** The words of the type and name columns. */
  lemma ColumnWords(ws: seq<string>, name: string)
    requires ws != [] && (forall w | w in ws :: IsWord(w)) && IsWord(name)
    ensures Words(Padded(JoinWords(ws)) + (" " + name)) == ws + [name]
  {
    hide IsSpace, IsWord, Words, Padded;
    var ctype := JoinWords(ws);
    var pad: nat := if |ctype| < 24 then 24 - |ctype| else 0;
    PadStarts(ctype, " " + name);
    SpaceIsSpace();
    SpacesStart(pad, " " + name);
    WordsOfJoined(ws, Spaces(pad) + (" " + name));
    WordsAfterSpaces(pad, " " + name);
    WordsAfterSpaces(1, name);
    assert Spaces(1) + name == " " + name;
    FirstWord(name, "");
    assert name + "" == name && Words("") == [] && [name] + [] == [name] by { NoWords(); }
  }

  lemma NoWords()
    ensures Words("") == []
  {
  }

  // ---------------------------------------------------------------- one member line reads back

  lemma {:induction false} RStripSpaces(s: string, n: nat)
    ensures RStrip(s + Spaces(n)) == RStrip(s)
  {
    hide IsSpace;
    if n == 0 {
      assert s + Spaces(0) == s;
    } else {
      SpaceIsSpace();
      var t := s + Spaces(n);
      assert t[|t| - 1] == ' ' && t[..|t| - 1] == s + Spaces(n - 1);
      RStripSpaces(s, n - 1);
    }
  }

  lemma EndsInInk(s: string, w: string)
    requires IsWord(w)
    ensures RStrip(s + w) == s + w
  {
    assert w[|w| - 1] in w;
    assert (s + w)[|s| + |w| - 1] == w[|w| - 1];
  }

  /** The columns, without the space at their end, are type and name. */
  lemma ColumnsTrimmed(e: Entry)
    requires IsWord(e.name)
    ensures RStrip(Columns(e) + " ") == Padded(e.ctype) + (" " + e.name)
  {
    hide RStrip, IsWord;
    var pad: nat := if |e.name| < 24 then 24 - |e.name| else 0;
    var front := Padded(e.ctype) + (" " + e.name);
    assert Columns(e) + " " == front + Spaces(pad + 1) by { ColumnsEnd(e, pad); }
    RStripSpaces(front, pad + 1);
    AppendAssociative(Padded(e.ctype), " ", e.name);
    EndsInInk(Padded(e.ctype) + " ", e.name);
  }

  lemma ColumnsEnd(e: Entry, pad: nat)
    requires Padded(e.name) == e.name + Spaces(pad)
    ensures Columns(e) + " " == Padded(e.ctype) + (" " + e.name) + Spaces(pad + 1)
  {
    assert Spaces(pad + 1) == Spaces(pad) + " ";
  }

  lemma {:induction false} LastIndexIs(c: char, s: string, t: string)
    requires c !in t
    ensures LastIndex(c, s + [c] + t) == |s|
  {
    var u := s + [c] + t;
    if t == "" {
      assert u[|u| - 1] == c;
    } else {
      assert u[|u| - 1] == t[|t| - 1] && t[|t| - 1] in t;
      assert u[..|u| - 1] == s + [c] + t[..|t| - 1];
      LastIndexIs(c, s, t[..|t| - 1]);
    }
  }

  const BYTES_END := " bytes)"

  lemma SizeTrimmed(d: string, gap: nat)
    requires IsWord(d)
    ensures Strip(d + BYTES_END + Spaces(gap)) == d + BYTES_END
  {
    hide RStrip, LStrip, IsSpace;
    var tail := BYTES_END + Spaces(gap);
    AppendAssociative(d, BYTES_END, Spaces(gap));
    BytesEndStarts(gap);
    InkRun(d, tail);
    RStripSpaces(d + BYTES_END, gap);
    BracketEnds(d);
  }

  lemma BytesEndStarts(gap: nat)
    ensures IsSpace((BYTES_END + Spaces(gap))[0])
  {
  }

  lemma BracketEnds(d: string)
    ensures RStrip(d + BYTES_END) == d + BYTES_END
  {
    assert (d + BYTES_END)[|d| + 6] == ')';
  }

  /** The size is read from what follows the parenthesis. */
  lemma SizeReads(num: Numerals, n: nat, gap: nat)
    requires Lawful(num)
    ensures ReadSize(num, num.decimal(n) + BYTES_END + Spaces(gap)) == Some(n)
  {
    hide Strip, IsSpace, Words, IsWord;
    var d := num.decimal(n);
    assert IsWord(d);
    SizeTrimmed(d, gap);
    var t := d + BYTES_END;
    assert t[|t| - 1] == ')' && t[..|t| - 1] == d + " bytes";
    FirstWord(d, " bytes") by { SpaceIsSpace(); }
  }

  lemma CommentSplits(front: string, comment: string)
    requires ';' !in front && Strip(comment) == comment
    ensures FrontIn(front + CommentPart(comment)) == front + Spaces(if comment == "" then 0 else 2)
    ensures CommentIn(front + CommentPart(comment)) == comment
  {
    hide Strip, IndexWhere;
    if comment == "" {
      NoSemicolon(front);
      assert front + "" == front;
    } else {
      SemicolonAt(front, comment);
      SpaceDropped(comment);
    }
  }

  lemma NoSemicolon(front: string)
    requires ';' !in front
    ensures IndexWhere(IsSemicolon, front + "") == |front| && (front + "")[..|front|] == front + Spaces(0)
  {
    assert front + "" == front && front + Spaces(0) == front;
    IndexUnique(IsSemicolon, front, |front|);
  }

  lemma SemicolonAt(front: string, comment: string)
    requires ';' !in front
    ensures var r, k := front + ("  ; " + comment), |front| + 2;
            IndexWhere(IsSemicolon, r) == k && r[..k] == front + Spaces(2) && r[k + 1..] == " " + comment
  {
    var r, k := front + ("  ; " + comment), |front| + 2;
    forall i | 0 <= i < k ensures r[i] != ';' { if i < |front| { assert front[i] in front; } }
    IndexUnique(IsSemicolon, r, k);
  }

  lemma SpaceDropped(s: string)
    ensures Strip(" " + s) == Strip(s)
  {
    SkipSpaces(1, s);
    assert Spaces(1) + s == " " + s;
  }

  lemma {:induction false} JoinedIsText(ws: seq<string>)
    requires ws != [] && forall w | w in ws :: IsWord(w)
    ensures JoinWords(ws) != "" && !IsSpace(JoinWords(ws)[0]) && ';' !in JoinWords(ws)
  {
    hide IsSpace;
    assert ws[0] in ws && ws[0][0] in ws[0];
    if |ws| > 1 { JoinedIsText(ws[1..]); }
  }

  lemma PaddedHasNoSemicolon(s: string)
    requires ';' !in s
    ensures ';' !in Padded(s)
  {
  }

  lemma WordHasNoSemicolon(s: string)
    requires IsWord(s)
    ensures ';' !in s
  {
  }

  lemma FrontHasNoSemicolon(num: Numerals, e: Entry)
    requires Lawful(num) && e.size >= 0 && IsWord(e.name) && ';' !in e.ctype
    ensures ';' !in Columns(e) + (" (" + SizePart(num, e))
  {
    hide IsWord, Padded;
    assert IsWord(num.decimal(e.size));
    WordHasNoSemicolon(num.decimal(e.size));
    WordHasNoSemicolon(e.name);
    PaddedHasNoSemicolon(e.ctype);
    PaddedHasNoSemicolon(e.name);
  }

  lemma AfterOffset(num: Numerals, offset: nat, rest: string)
    requires Lawful(num) && rest != "" && !IsSpace(rest[0])
    ensures var s := num.offset(offset) + ("  " + rest);
            IndexWhere(IsSpace, s) == |num.offset(offset)| && s[..|num.offset(offset)|] == num.offset(offset)
            && AfterFirstWord(s) == Some(rest)
  {
    hide IsSpace, IsWord, LStrip;
    var h := num.offset(offset);
    assert IsWord(h);
    SpaceIsSpace();
    InkRun(h, "  " + rest);
    assert (h + ("  " + rest))[|h|..] == "  " + rest;
    SkipSpaces(2, rest);
    assert Spaces(2) + rest == "  " + rest;
    assert LStrip(rest) == rest by { StartsInInk(rest); }
  }

  lemma StartsInInk(s: string)
    requires s != "" && !IsSpace(s[0])
    ensures LStrip(s) == s
  {
  }

  /** Front and gap, taken apart at the last opening parenthesis. */
  lemma FrontSplits(num: Numerals, e: Entry, gap: nat)
    requires Lawful(num) && e.size >= 0
    ensures var f := Columns(e) + (" (" + SizePart(num, e)) + Spaces(gap);
            var p := LastIndex('(', f);
            p == |Columns(e)| + 1 && f[..p] == Columns(e) + " " && f[p + 1..] == SizePart(num, e) + Spaces(gap)
  {
    hide Columns;
    var tail := SizePart(num, e) + Spaces(gap);
    assert Columns(e) + (" (" + SizePart(num, e)) + Spaces(gap) == Columns(e) + " " + "(" + tail;
    assert '(' !in tail by { NoParenthesis(num, e.size, gap); }
    LastIndexIs('(', Columns(e) + " ", tail);
  }

  lemma NoParenthesis(num: Numerals, n: nat, gap: nat)
    requires Lawful(num)
    ensures '(' !in num.decimal(n) + " bytes)" + Spaces(gap)
  {
    var d := num.decimal(n);
    forall c | c in d ensures c != '(' { assert c in num.decimal(n); }
  }

  /** A plain member's line reads back as the member. */
  lemma EntryReadsBack(num: Numerals, e: Entry)
    requires Lawful(num) && Plain(e)
    ensures ReadEntry(num, EntryText(num, e)) == Some(e)
  {
    hide Strip, RStrip, Words, IsSpace, IsWord, Columns, CommentPart, OneLine, LastIndex, IndexWhere, AfterFirstWord,
         ReadSize, FrontIn, CommentIn;
    var ws :| ws != [] && (forall w | w in ws :: IsWord(w)) && e.ctype == JoinWords(ws);
    JoinedIsText(ws);
    var front := Columns(e) + (" (" + SizePart(num, e));
    var rest := front + CommentPart(e.comment);
    assert rest != "" && rest[0] == e.ctype[0] by { ColumnsStart(num, e); }
    AfterOffset(num, e.offset, rest);
    FrontHasNoSemicolon(num, e);
    CommentSplits(front, e.comment);
    var gap: nat := if e.comment == "" then 0 else 2;
    FrontSplits(num, e, gap);
    ColumnsTrimmed(e);
    ColumnWords(ws, e.name);
    SizeReads(num, e.size, gap);
    assert (ws + [e.name])[..|ws|] == ws;
  }

  lemma ColumnsStart(num: Numerals, e: Entry)
    requires e.ctype != ""
    ensures var rest := Columns(e) + (" (" + SizePart(num, e)) + CommentPart(e.comment);
            rest != "" && rest[0] == e.ctype[0]
  {
  }

  // ---------------------------------------------------------------- the whole description reads back

  ghost predicate PlainInfo(info: Info) {
    && info.size >= 0
    && info.name != "" && Strip(info.name) == info.name && OneLine(info.name)
    && info.entries != [] && forall e | e in info.entries :: Plain(e)
  }

  lemma {:induction false} ReadLinesAppend(num: Numerals, a: seq<string>, b: seq<string>)
    ensures ReadLines(num, a + b) == ReadOn(num, ReadLines(num, a), b)
  {
    hide ReadLine;
    if |b| == 0 {
      assert a + b == a;
    } else {
      ReadLinesAppend(num, a, b[..|b| - 1]);
      assert (a + b)[..|a| + |b| - 1] == a + b[..|b| - 1];
    }
  }

  function ReadOn(num: Numerals, info: Info, lines: seq<string>): Info {
    if |lines| == 0 then info else ReadLine(num, ReadOn(num, info, lines[..|lines| - 1]), lines[|lines| - 1])
  }

  lemma {:induction false} ReadOnFirst(num: Numerals, info: Info, line: string, rest: seq<string>)
    ensures ReadOn(num, info, [line] + rest) == ReadOn(num, ReadLine(num, info, line), rest)
  {
    hide ReadLine;
    if |rest| == 0 {
      assert ([line] + rest)[..0] == [];
      assert ReadOn(num, info, []) == info;
    } else {
      ReadOnFirst(num, info, line, rest[..|rest| - 1]);
      assert ([line] + rest)[..|rest|] == [line] + rest[..|rest| - 1];
    }
  }

  lemma TextTrimmed(num: Numerals, e: Entry)
    requires Lawful(num) && Plain(e)
    ensures Strip(EntryLine(num, e)) == EntryText(num, e) && StartsWith(EntryText(num, e), "+0x")
  {
    hide IsSpace, IsWord, RStrip, LStrip, Columns, Plain;
    var t := EntryText(num, e);
    var h := num.offset(e.offset);
    assert IsWord(h) && StartsWith(h, "+0x");
    assert t[..3] == h[..3];
    InkRun(h, t[|h|..]) by { SpaceIsSpace(); }
    assert t == h + t[|h|..];
    SkipSpaces(2, t);
    assert Spaces(2) + t == EntryLine(num, e);
    EndOfEntry(num, e);
  }

  lemma EndsLike(a: string, b: string)
    requires b != "" && !IsSpace(b[|b| - 1])
    ensures a + b != "" && !IsSpace((a + b)[|a + b| - 1])
  {
  }

  lemma EndOfEntry(num: Numerals, e: Entry)
    requires Plain(e)
    ensures RStrip(EntryText(num, e)) == EntryText(num, e)
  {
    hide IsSpace, IsWord, Columns, LStrip, RStrip;
    var front := Columns(e) + (" (" + SizePart(num, e));
    BracketIsInk();
    EndsLike(num.decimal(e.size), " bytes)");
    EndsLike(" (", SizePart(num, e));
    EndsLike(Columns(e), " (" + SizePart(num, e));
    if e.comment != "" {
      TrimmedEnd(e.comment);
      EndsLike("  ; ", e.comment);
      EndsLike(front, CommentPart(e.comment));
    } else {
      assert front + CommentPart(e.comment) == front;
    }
    EndsLike("  ", front + CommentPart(e.comment));
    EndsLike(num.offset(e.offset), "  " + (front + CommentPart(e.comment)));
    InkedEnd(EntryText(num, e));
  }

  lemma InkedEnd(s: string)
    requires s != "" && !IsSpace(s[|s| - 1])
    ensures RStrip(s) == s
  {
  }

  lemma BracketIsInk()
    ensures !IsSpace(')')
  {
  }

  lemma TrimmedEnd(s: string)
    requires Strip(s) == s && s != ""
    ensures !IsSpace(s[|s| - 1])
  {
    hide IsSpace;
    assert |RStrip(LStrip(s))| <= |LStrip(s)| <= |s|;
  }

  lemma EntryLineReads(num: Numerals, info: Info, e: Entry)
    requires Lawful(num) && Plain(e)
    ensures ReadLine(num, info, EntryLine(num, e)) == info.(entries := info.entries + [e])
  {
    hide Strip, ReadEntry, EntryText, EntryLine, Plain;
    TextTrimmed(num, e);
    EntryReadsBack(num, e);
    var t := EntryText(num, e);
    assert t[..3] == "+0x";
    assert t[0] == '+';
  }

  lemma {:induction false} EntriesRead(num: Numerals, info: Info, entries: seq<Entry>)
    requires Lawful(num) && forall e | e in entries :: Plain(e)
    ensures ReadOn(num, info, EntryLines(num, entries)) == info.(entries := info.entries + entries)
    decreases |entries|
  {
    hide ReadLine, Plain, EntryLine;
    if |entries| > 0 {
      assert entries[0] in entries;
      var next := info.(entries := info.entries + [entries[0]]);
      EntryLineReads(num, info, entries[0]);
      ReadOnFirst(num, info, EntryLine(num, entries[0]), EntryLines(num, entries[1..]));
      EntriesRead(num, next, entries[1..]);
      assert info.entries + [entries[0]] + entries[1..] == info.entries + entries;
    } else {
      assert info.entries + entries == info.entries;
    }
  }

  lemma NameDispatch(num: Numerals, info: Info, line: string, rest: string)
    requires line == "Struct:" + rest && Strip(line) == line
    ensures ReadLine(num, info, line) == info.(name := Strip(rest))
  {
    hide Strip, ReadEntry, SizeIn;
    assert line[..7] == "Struct:" && line[7..] == rest;
  }

  lemma NameLineReads(num: Numerals, info: Info, name: string)
    requires name != "" && Strip(name) == name
    ensures ReadLine(num, info, "Struct: " + name) == info.(name := name)
  {
    hide RStrip, LStrip, IsSpace, ReadLine;
    var line := "Struct: " + name;
    TrimmedEnd(name);
    EndsLike("Struct: ", name);
    InkedEnd(line);
    StartsInInk(line) by { assert line[0] == 'S'; LettersAreInk(); }
    assert line == "Struct:" + (" " + name);
    NameDispatch(num, info, line, " " + name);
    SpaceDropped(name);
  }

  lemma LettersAreInk()
    ensures !IsSpace('S') && !IsSpace('M')
  {
  }

  /** Which kind of line it is shows in its first letters. */
  lemma SizeDispatch(num: Numerals, info: Info, line: string, rest: string)
    requires line == "Size:" + rest && Strip(line) == line
    ensures ReadLine(num, info, line)
         == if SizeIn(num, rest).Some? then info.(size := SizeIn(num, rest).value) else info
  {
    hide Strip, ReadEntry, SizeIn;
    assert line[1] == 'i' && line[..5] == "Size:" && line[5..] == rest;
  }

  lemma OtherDispatch(num: Numerals, info: Info, line: string)
    requires Strip(line) == "" || Strip(line)[0] == 'M'
    ensures ReadLine(num, info, line) == info
  {
    hide Strip, ReadEntry, IndexWhere;
  }

  lemma SizeLineReads(num: Numerals, info: Info, n: nat)
    requires Lawful(num)
    ensures ReadLine(num, info, "Size: " + (num.decimal(n) + (" (" + (num.hex(n) + ")")))) == info.(size := n)
  {
    hide RStrip, IsSpace, IsWord, ReadLine;
    var d := num.decimal(n);
    var rest := d + (" (" + (num.hex(n) + ")"));
    var line := "Size: " + rest;
    assert IsWord(d);
    InkRun(d, " (" + (num.hex(n) + ")")) by { SpaceIsSpace(); }
    BracketIsInk();
    EndsLike(num.hex(n), ")");
    EndsLike(" (", num.hex(n) + ")");
    EndsLike(d, " (" + (num.hex(n) + ")"));
    EndsLike("Size: ", rest);
    InkedEnd(rest);
    InkedEnd(line);
    StartsInInk(line) by { assert line[0] == 'S'; LettersAreInk(); }
    assert line == "Size:" + (" " + rest);
    SizeDispatch(num, info, line, " " + rest);
    SpaceDropped(rest);
    assert IndexWhere(IsBlank, rest) == |d| by { FirstBlank(d, rest); }
  }

  lemma FirstBlank(d: string, rest: string)
    requires IsWord(d) && |rest| > |d| && rest[..|d|] == d && rest[|d|] == ' '
    ensures IndexWhere(IsBlank, rest) == |d|
  {
    forall k | 0 <= k < |d| ensures rest[k] != ' ' { assert rest[k] == d[k] && d[k] in d; }
    IndexUnique(IsBlank, rest, |d|);
  }

  lemma OtherLineReads(num: Numerals, info: Info, count: string)
    ensures ReadLine(num, info, "Members: " + count) == info && ReadLine(num, info, "") == info
  {
    hide IsSpace, ReadLine;
    var line := "Members: " + count;
    StartsInInk(line) by { assert line[0] == 'M'; LettersAreInk(); }
    OtherDispatch(num, info, line);
    StripBlank("");
    OtherDispatch(num, info, "");
  }

  lemma WordIsOneLine(s: string)
    requires IsWord(s)
    ensures OneLine(s)
  {
  }

  lemma {:induction false} JoinedIsOneLine(ws: seq<string>)
    requires forall w | w in ws :: IsWord(w)
    ensures OneLine(JoinWords(ws))
  {
    hide IsWord;
    if |ws| > 0 {
      WordIsOneLine(ws[0]) by { assert ws[0] in ws; }
      JoinedIsOneLine(ws[1..]);
    }
  }

  lemma EntryLineIsOneLine(num: Numerals, e: Entry)
    requires Lawful(num) && Plain(e)
    ensures OneLine(EntryLine(num, e)) && EntryLine(num, e) != ""
  {
    hide IsWord, IsSpace;
    var ws :| ws != [] && (forall w | w in ws :: IsWord(w)) && e.ctype == JoinWords(ws);
    JoinedIsOneLine(ws);
    assert IsWord(num.offset(e.offset)) && IsWord(num.decimal(e.size));
    WordIsOneLine(num.offset(e.offset));
    WordIsOneLine(num.decimal(e.size));
    WordIsOneLine(e.name);
    assert OneLine(Columns(e)) by { ColumnsAreOneLine(e); }
  }

  lemma ColumnsAreOneLine(e: Entry)
    requires OneLine(e.name) && OneLine(e.ctype)
    ensures OneLine(Columns(e))
  {
  }

  lemma {:induction false} EntryLinesAreLines(num: Numerals, entries: seq<Entry>)
    requires Lawful(num) && forall e | e in entries :: Plain(e)
    ensures forall l | l in EntryLines(num, entries) :: OneLine(l) && l != ""
    ensures |EntryLines(num, entries)| == |entries|
    decreases |entries|
  {
    hide Plain, EntryLine, OneLine;
    if |entries| > 0 {
      EntryLineIsOneLine(num, entries[0]) by { assert entries[0] in entries; }
      EntryLinesAreLines(num, entries[1..]);
    }
  }

  lemma BreakAfterLine(line: string, rest: string)
    requires OneLine(line)
    ensures SplitLines(line + "\n" + rest) == [line] + SplitLines(rest)
  {
    hide IndexWhere;
    var s := line + "\n" + rest;
    forall k | 0 <= k < |line| ensures !IsLineBreak(s[k]) { assert s[k] == line[k] && line[k] in line; }
    IndexUnique(IsLineBreak, s, |line|);
    assert s[..|line|] == line && s[|line| + 1..] == rest;
  }

  lemma NoBreak(line: string)
    requires OneLine(line) && line != ""
    ensures SplitLines(line) == [line]
  {
    hide IndexWhere;
    forall k | 0 <= k < |line| ensures !IsLineBreak(line[k]) { assert line[k] in line; }
    IndexUnique(IsLineBreak, line, |line|);
  }

  /** Lines without breaks, the last of them not empty, come apart as they were joined. */
  lemma {:induction false} SplitOfJoin(lines: seq<string>)
    requires lines != [] && (forall l | l in lines :: OneLine(l)) && lines[|lines| - 1] != ""
    ensures SplitLines(JoinLines(lines)) == lines
    decreases |lines|
  {
    hide SplitLines, JoinLines, OneLine;
    assert lines[0] in lines;
    if |lines| == 1 {
      JoinOne(lines[0]);
      NoBreak(lines[0]);
      assert lines == [lines[0]];
    } else {
      var rest := lines[1..];
      assert lines == [lines[0]] + rest;
      SplitOfJoin(rest);
      JoinFirst(lines[0], rest);
      BreakAfterLine(lines[0], JoinLines(rest));
    }
  }

  lemma HeaderIsLines(num: Numerals, info: Info)
    requires Lawful(num) && PlainInfo(info)
    ensures forall l | l in HeaderLines(num, info) :: OneLine(l)
  {
    hide IsWord;
    var n: nat := info.size;
    assert IsWord(num.decimal(n)) && IsWord(num.hex(n)) && IsWord(num.decimal(|info.entries|));
    WordIsOneLine(num.decimal(n));
    WordIsOneLine(num.hex(n));
    WordIsOneLine(num.decimal(|info.entries|));
  }

  lemma HeaderReads(num: Numerals, info: Info)
    requires Lawful(num) && PlainInfo(info)
    ensures ReadLines(num, HeaderLines(num, info)) == Info(info.name, info.size, [])
  {
    hide ReadLine, Lawful, PlainInfo, Strip;
    assert info.size >= 0 && info.name != "" && Strip(info.name) == info.name by { PlainHeader(info); }
    var h := HeaderLines(num, info);
    assert h[..4] == h && h[..3] == [h[0], h[1], h[2]] && h[..2] == [h[0], h[1]] && h[..1] == [h[0]] && h[..0] == [];
    NameLineReads(num, NO_INFO, info.name);
    SizeLineReads(num, Info(info.name, 0, []), info.size);
    OtherLineReads(num, Info(info.name, info.size, []), num.decimal(|info.entries|));
    FourLines(num, h);
  }

  lemma PlainHeader(info: Info)
    requires PlainInfo(info)
    ensures info.size >= 0 && info.name != "" && Strip(info.name) == info.name
  {
  }

  lemma FourLines(num: Numerals, h: seq<string>)
    requires |h| == 4
    ensures ReadLines(num, h)
            == ReadLine(num, ReadLine(num, ReadLine(num, ReadLine(num, NO_INFO, h[0]), h[1]), h[2]), h[3])
  {
    hide ReadLine;
    assert h[..3][..2] == h[..2] && h[..2][..1] == h[..1] && h[..1][..0] == [];
    assert ReadLines(num, h[..1][..0]) == NO_INFO;
    assert ReadLines(num, h[..1]) == ReadLine(num, NO_INFO, h[0]);
    assert ReadLines(num, h[..2]) == ReadLine(num, ReadLines(num, h[..1]), h[1]);
  }

  /** The description of a plain struct reads back as the struct it describes: name, size, and every
      member with its type, offset, size and comment. */
  lemma DescriptionReadsBack(num: Numerals, info: Info)
    requires Lawful(num) && PlainInfo(info)
    ensures ParsedInfo(num, Describe(num, info)) == Some(info)
  {
    hide ReadLine, ReadLines, ReadOn, EntryLine, HeaderLines, Lawful, Plain, OneLine, Strip;
    var head, body := HeaderLines(num, info), EntryLines(num, info.entries);
    var lines := head + body;
    HeaderIsLines(num, info);
    EntryLinesAreLines(num, info.entries);
    assert lines[|lines| - 1] == body[|body| - 1] && body[|body| - 1] in body;
    SplitOfJoin(lines);
    HeaderReads(num, info);
    ReadLinesAppend(num, head, body);
    EntriesRead(num, Info(info.name, info.size, []), info.entries);
    assert [] + info.entries == info.entries;
    DescriptionStarts(num, info);
  }

  lemma DescriptionStarts(num: Numerals, info: Info)
    requires info.size >= 0 && info.entries != []
    ensures var raw := Describe(num, info); Strip(raw) != "" && !StartsWith(raw, "Struct '")
  {
    var raw := Describe(num, info);
    var lines := HeaderLines(num, info) + EntryLines(num, info.entries);
    assert raw == lines[0] + "\n" + JoinLines(lines[1..]);
    assert raw[0] == 'S' && raw[6] == ':';
    LettersAreInk();
    StripBlank(raw);
    if |raw| >= 8 { assert raw[..8][6] == ':'; }
  }
}
