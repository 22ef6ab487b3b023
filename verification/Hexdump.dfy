/** Redacting indicators hidden in hexdump blocks: parse, mask, zero, rebuild. The patterns that find
    indicators in the decoded bytes are an arbitrary function. */
module Hexdump {
  import opened Wrappers
  import opened Text

  type Byte = n: nat | n < 256

  datatype Line = Line(prefix: string, bytes: seq<Byte>, trailing: string)

  // ---------------------------------------------------------------- reading a line

  predicate IsHex(c: char) {
    '0' <= c <= '9' || 'a' <= c <= 'f' || 'A' <= c <= 'F'
  }

  function HexValue(c: char): (n: nat)
    requires IsHex(c)
    ensures n < 16
  {
    if c <= '9' then c as int - '0' as int
    else if c <= 'F' then c as int - 'A' as int + 10
    else c as int - 'a' as int + 10
  }

  function HexDigit(n: nat): (c: char)
    requires n < 16
    ensures IsHex(c) && HexValue(c) == n
  {
    if n < 10 then (n + '0' as int) as char else (n - 10 + 'a' as int) as char
  }

  /** How many characters at the front satisfy `p`. */
  function Run(p: char -> bool, s: string): (n: nat)
    ensures n <= |s|
    ensures n < |s| ==> !p(s[n])
  {
    if s == "" || !p(s[0]) then 0 else 1 + Run(p, s[1..])
  }

  /** Where the digits of the address start: after space and an optional 0x. */
  function DigitsAt(s: string): (start: nat)
    ensures start <= |s|
  {
    var spaces := Run(IsSpace, s);
    if StartsWith(s[spaces..], "0x") then spaces + 2 else spaces
  }

  /** 4 to 16 hex digits, a colon or space, and the space after. */
  function DigitsLength(d: string): (n: Option<nat>)
    ensures n.Some? ==> 5 <= n.value <= |d|
  {
    var digits := Run(IsHex, d);
    if 4 <= digits <= 16 && digits < |d| && (d[digits] == ':' || IsSpace(d[digits]))
    then Some(digits + 1 + Run(IsSpace, d[digits + 1..]))
    else None
  }

  /** Length of the address part of a line. */
  function PrefixLength(s: string): (n: Option<nat>)
    ensures n.Some? ==> n.value <= |s|
  {
    var n := DigitsLength(s[DigitsAt(s)..]);
    if n.None? then None else Some(DigitsAt(s) + n.value)
  }

  predicate PairAt(s: string) {
    |s| >= 2 && IsHex(s[0]) && IsHex(s[1])
  }

  function PairValue(s: string): Byte
    requires PairAt(s)
  {
    HexValue(s[0]) * 16 + HexValue(s[1])
  }

  /** Byte pairs, each but the last followed by space, and what is left of the line. */
  function ScanBytes(s: string): (r: (seq<Byte>, string))
    decreases |s|
  {
    if !PairAt(s) then ([], s)
    else
      var tail := s[2..];
      if tail == "" || !IsSpace(tail[0]) then ([PairValue(s)], tail)
      else
        var rest := ScanBytes(LStrip(tail));
        ([PairValue(s)] + rest.0, rest.1)
  }

  function ParseLine(line: string): Option<Line> {
    var n := PrefixLength(line);
    if n.None? then None
    else
      var scan := ScanBytes(line[n.value..]);
      if |scan.0| < 4 then None else Some(Line(line[..n.value], scan.0, scan.1))
  }

  // ---------------------------------------------------------------- writing a line

  function HexPair(b: Byte): (s: string)
    ensures PairAt(s) && |s| == 2 && PairValue(s) == b
  {
    [HexDigit(b / 16), HexDigit(b % 16)]
  }

  function Pairs(bytes: seq<Byte>): string {
    if |bytes| == 0 then ""
    else if |bytes| == 1 then HexPair(bytes[0])
    else HexPair(bytes[0]) + (" " + Pairs(bytes[1..]))
  }

  function HexColumn(bytes: seq<Byte>): string {
    if |bytes| > 8 then Pairs(bytes[..8]) + "  " + Pairs(bytes[8..]) else Pairs(bytes)
  }

  function AsciiChar(b: Byte): char {
    if 0x20 <= b < 0x7F then b as char else '.'
  }

  function AsciiColumn(bytes: seq<Byte>): string {
    seq(|bytes|, i requires 0 <= i < |bytes| => AsciiChar(bytes[i]))
  }

  function Rebuild(prefix: string, bytes: seq<Byte>): string {
    prefix + (HexColumn(bytes) + ("  " + ("|" + AsciiColumn(bytes) + "|")))
  }

  // ---------------------------------------------------------------- a rebuilt line parses back

  lemma {:induction false} RunAppend(p: char -> bool, s: string, t: string)
    ensures Run(p, s + t) == if Run(p, s) < |s| then Run(p, s) else |s| + Run(p, t)
  {
    if s == "" {
      assert s + t == t;
    } else if p(s[0]) {
      RunAppend(p, s[1..], t);
      assert (s + t)[1..] == s[1..] + t;
    }
  }

  lemma RunOfPrefix(p: char -> bool, s: string, k: nat)
    requires k <= |s|
    ensures Run(p, s[..k]) == if Run(p, s) < k then Run(p, s) else k
  {
    hide Run;
    CutAndJoin(s, k);
    RunAppend(p, s[..k], s[k..]);
  }

  lemma DigitsAlone(d: string, k: nat)
    requires DigitsLength(d) == Some(k)
    ensures DigitsLength(d[..k]) == Some(k)
  {
    hide IsSpace, IsHex, Run;
    var digits := Run(IsHex, d);
    RunOfPrefix(IsHex, d, k);
    assert d[..k][digits + 1..] == d[digits + 1..][..k - digits - 1];
    RunOfPrefix(IsSpace, d[digits + 1..], k - digits - 1);
  }

  lemma DigitsExtend(d: string, t: string)
    requires DigitsLength(d) == Some(|d|) && t != "" && !IsSpace(t[0])
    ensures DigitsLength(d + t) == Some(|d|)
  {
    hide IsSpace, IsHex, Run;
    var digits := Run(IsHex, d);
    RunAppend(IsHex, d, t);
    assert (d + t)[digits + 1..] == d[digits + 1..] + t;
    RunAppend(IsSpace, d[digits + 1..], t);
    RunStops(IsSpace, t);
  }

  lemma RunStops(p: char -> bool, t: string)
    requires t != "" && !p(t[0])
    ensures Run(p, t) == 0
  {
  }

  lemma SameStart(p: string, t: string)
    requires DigitsAt(p) + 2 <= |p|
    ensures DigitsAt(p + t) == DigitsAt(p)
  {
    hide IsSpace, Run;
    var spaces := Run(IsSpace, p);
    RunAppend(IsSpace, p, t);
    assert (p + t)[spaces..][..2] == p[spaces..][..2];
  }

  lemma SameStartCut(s: string, k: nat)
    requires DigitsAt(s) + 2 <= k <= |s|
    ensures DigitsAt(s[..k]) == DigitsAt(s)
  {
    hide IsSpace, Run;
    var spaces := Run(IsSpace, s);
    RunOfPrefix(IsSpace, s, k);
    assert s[..k][spaces..][..2] == s[spaces..][..2];
  }

  /** The address part is complete in itself. */
  lemma PrefixAlone(s: string)
    requires PrefixLength(s).Some?
    ensures PrefixLength(s[..PrefixLength(s).value]) == PrefixLength(s)
  {
    hide DigitsAt, DigitsLength;
    var k, start := PrefixLength(s).value, DigitsAt(s);
    SameStartCut(s, k);
    assert s[..k][start..] == s[start..][..k - start];
    DigitsAlone(s[start..], k - start);
  }

  /** A complete address part followed by something that is not space is found again. */
  lemma PrefixExtends(p: string, t: string)
    requires PrefixLength(p) == Some(|p|) && t != "" && !IsSpace(t[0])
    ensures PrefixLength(p + t) == Some(|p|)
  {
    hide DigitsAt, DigitsLength, IsSpace;
    var start := DigitsAt(p);
    SameStart(p, t);
    assert (p + t)[start..] == p[start..] + t;
    DigitsExtend(p[start..], t);
  }

  lemma PairsStart(bytes: seq<Byte>)
    requires |bytes| > 0
    ensures |Pairs(bytes)| >= 2 && PairAt(Pairs(bytes)) && PairValue(Pairs(bytes)) == bytes[0]
  {
  }

  lemma HexIsInk(c: char)
    requires IsHex(c)
    ensures !IsSpace(c)
  {
  }

  lemma ScanPair(b: Byte, tail: string)
    requires tail != "" && IsSpace(tail[0])
    ensures ScanBytes(HexPair(b) + tail) == ([b] + ScanBytes(LStrip(tail)).0, ScanBytes(LStrip(tail)).1)
  {
    hide IsSpace, IsHex, LStrip;
    var s := HexPair(b) + tail;
    assert s[0] == HexPair(b)[0] && s[1] == HexPair(b)[1] && s[2..] == tail;
  }

  /** Scanning a written column followed by space yields its bytes and goes on after the space. */
  lemma {:induction false} ScanPairs(bytes: seq<Byte>, t: string)
    requires |bytes| > 0 && t != "" && IsSpace(t[0])
    ensures ScanBytes(Pairs(bytes) + t) == (bytes + ScanBytes(LStrip(t)).0, ScanBytes(LStrip(t)).1)
  {
    hide IsSpace, IsHex, HexPair, ScanBytes, LStrip;
    if |bytes| == 1 {
      ScanPair(bytes[0], t);
      assert [bytes[0]] == bytes;
    } else {
      var rest := bytes[1..];
      var more := Pairs(rest) + t;
      AppendAssociative(HexPair(bytes[0]), " " + Pairs(rest), t);
      AppendAssociative(" ", Pairs(rest), t);
      PairsStart(rest);
      HexIsInk(more[0]);
      SpaceStripped(more);
      ScanPair(bytes[0], " " + more);
      ScanPairs(rest, t);
      var after := ScanBytes(LStrip(t)).0;
      AppendAssociative([bytes[0]], rest, after);
      assert [bytes[0]] + rest == bytes;
    }
  }

  lemma SpaceStripped(t: string)
    requires t != "" && !IsSpace(t[0])
    ensures IsSpace(' ') && LStrip(" " + t) == t
  {
    assert (" " + t)[1..] == t;
  }

  lemma GapStripped(t: string)
    requires t != "" && !IsSpace(t[0])
    ensures IsSpace(("  " + t)[0]) && LStrip("  " + t) == t
  {
    SpaceStripped(t);
    assert ("  " + t)[1..] == " " + t;
  }

  lemma ScanColumn(bytes: seq<Byte>, t: string)
    requires |bytes| > 0 && t != "" && t[0] == '|'
    ensures ScanBytes(HexColumn(bytes) + ("  " + t)) == (bytes, t)
  {
    hide ScanBytes, Pairs, LStrip, IsSpace;
    GapStripped(t) by { BarIsInk(t); }
    BarEnds(t);
    if |bytes| > 8 {
      var second := Pairs(bytes[8..]) + ("  " + t);
      ScanPairs(bytes[8..], "  " + t);
      PairsStart(bytes[8..]);
      HexIsInk(second[0]);
      GapStripped(second);
      ScanPairs(bytes[..8], "  " + second);
      AppendAssociative(Pairs(bytes[..8]) + "  ", Pairs(bytes[8..]), "  " + t);
      AppendAssociative(Pairs(bytes[..8]), "  ", second);
      assert bytes[8..] + [] == bytes[8..] && bytes[..8] + bytes[8..] == bytes;
    } else {
      ScanPairs(bytes, "  " + t);
      assert bytes + [] == bytes;
    }
  }

  lemma BarIsInk(t: string)
    requires t != "" && t[0] == '|'
    ensures !IsSpace(t[0])
  {
  }

  lemma BarEnds(t: string)
    requires t != "" && t[0] == '|'
    ensures ScanBytes(t) == ([], t)
  {
  }

  /** A line rebuilt from a parsed address part and at least four bytes parses back to them. */
  lemma RebuiltLineParses(prefix: string, bytes: seq<Byte>)
    requires PrefixLength(prefix) == Some(|prefix|) && |bytes| >= 4
    ensures ParseLine(Rebuild(prefix, bytes)) == Some(Line(prefix, bytes, "|" + AsciiColumn(bytes) + "|"))
  {
    hide PrefixLength, ScanBytes, HexColumn, AsciiColumn;
    var trailing := "|" + AsciiColumn(bytes) + "|";
    var t := HexColumn(bytes) + ("  " + trailing);
    ScanColumn(bytes, trailing);
    assert t != "" && !IsSpace(t[0]) by { ColumnStarts(bytes); }
    PrefixExtends(prefix, t);
    assert Rebuild(prefix, bytes) == prefix + t;
    assert (prefix + t)[|prefix|..] == t && (prefix + t)[..|prefix|] == prefix;
  }

  lemma ColumnStarts(bytes: seq<Byte>)
    requires |bytes| > 0
    ensures HexColumn(bytes) != "" && !IsSpace(HexColumn(bytes)[0])
  {
    hide Pairs;
    PairsStart(bytes);
    HexIsInk(Pairs(bytes)[0]);
    if |bytes| > 8 {
      PairsStart(bytes[..8]);
      HexIsInk(Pairs(bytes[..8])[0]);
    }
  }

  lemma ParsedPrefixStands(line: string)
    requires ParseLine(line).Some?
    ensures PrefixLength(ParseLine(line).value.prefix) == Some(|ParseLine(line).value.prefix|)
    ensures |ParseLine(line).value.bytes| >= 4
  {
    hide ScanBytes;
    PrefixAlone(line);
  }

  // ---------------------------------------------------------------- blocks

  /** Where the enabled patterns match in a decoded block, as half-open intervals. */
  type Finder = string -> seq<(nat, nat)>

  predicate IsDump(line: string) {
    ParseLine(line).Some?
  }

  predicate AllDump(lines: seq<string>) {
    forall i | 0 <= i < |lines| :: IsDump(lines[i])
  }

  function Parsed(lines: seq<string>): (block: seq<Line>)
    requires AllDump(lines)
    ensures |block| == |lines|
  {
    seq(|lines|, i requires 0 <= i < |lines| => ParseLine(lines[i]).value)
  }

  function BytesOf(block: seq<Line>): seq<Byte> {
    if |block| == 0 then [] else block[0].bytes + BytesOf(block[1..])
  }

  /** Latin-1: one character per byte. */
  function Decode(bytes: seq<Byte>): string {
    seq(|bytes|, i requires 0 <= i < |bytes| => bytes[i] as char)
  }

  predicate Covered(matches: seq<(nat, nat)>, k: nat) {
    exists m | 0 <= m < |matches| :: matches[m].0 <= k < matches[m].1
  }

  predicate Touched(matches: seq<(nat, nat)>, n: nat) {
    exists k: nat | k < n :: Covered(matches, k)
  }

  /** Zeros at exactly the covered positions. */
  function Zeroed(bytes: seq<Byte>, matches: seq<(nat, nat)>): (r: seq<Byte>)
    ensures |r| == |bytes|
  {
    seq(|bytes|, k requires 0 <= k < |bytes| => if Covered(matches, k) then 0 else bytes[k])
  }

  /** The lines again, with the block's bytes replaced. */
  function Spread(block: seq<Line>, bytes: seq<Byte>): (lines: seq<string>)
    requires |bytes| == |BytesOf(block)|
    ensures |lines| == |block|
  {
    if |block| == 0 then []
    else
      var n := |block[0].bytes|;
      [Rebuild(block[0].prefix, bytes[..n])] + Spread(block[1..], bytes[n..])
  }

  function MatchesIn(find: Finder, block: seq<string>): seq<(nat, nat)>
    requires AllDump(block)
  {
    find(Decode(BytesOf(Parsed(block))))
  }

  function CleanBlock(find: Finder, block: seq<string>): (lines: seq<string>)
    requires AllDump(block)
    ensures |lines| == |block|
  {
    var parsed := Parsed(block);
    var bytes := BytesOf(parsed);
    var matches := MatchesIn(find, block);
    if Touched(matches, |bytes|) then Spread(parsed, Zeroed(bytes, matches)) else block
  }

  /** How many dump lines there are at the front. */
  function BlockLength(lines: seq<string>): (n: nat)
    ensures n <= |lines|
  {
    if |lines| == 0 || !IsDump(lines[0]) then 0 else 1 + BlockLength(lines[1..])
  }

  lemma {:induction false} BlockIsDump(lines: seq<string>)
    ensures var n := BlockLength(lines); AllDump(lines[..n]) && (n < |lines| ==> !IsDump(lines[n]))
  {
    hide IsDump;
    if |lines| > 0 && IsDump(lines[0]) {
      BlockIsDump(lines[1..]);
      var n := BlockLength(lines);
      assert lines[..n] == [lines[0]] + lines[1..][..n - 1];
    }
  }

  function Sanitized(find: Finder, lines: seq<string>): (out: seq<string>)
    ensures |out| == |lines|
    decreases |lines|
  {
    if |lines| == 0 then []
    else if !IsDump(lines[0]) then [lines[0]] + Sanitized(find, lines[1..])
    else
      var n := BlockLength(lines);
      BlockIsDump(lines);
      CleanBlock(find, lines[..n]) + Sanitized(find, lines[n..])
  }

  // ---------------------------------------------------------------- the program's loops

  method MarkPositions(matches: seq<(nat, nat)>, mask: array<bool>)
    modifies mask
    ensures forall k: nat | k < mask.Length :: mask[k] == (old(mask[k]) || Covered(matches, k))
  {
    hide Covered;
    var m := 0;
    forall k: nat ensures !Covered(matches[..0], k) { NotCovered(matches[..0], k); }
    while m < |matches|
      invariant m <= |matches|
      invariant forall k: nat | k < mask.Length :: mask[k] == (old(mask[k]) || Covered(matches[..m], k))
    {
      var from, to := matches[m].0, if matches[m].1 < mask.Length then matches[m].1 else mask.Length;
      ghost var before := mask[..];
      var pos := from;
      while pos < to
        invariant from <= pos && (pos <= to || pos == from)
        invariant forall k: nat | k < mask.Length :: mask[k] == (before[k] || from <= k < pos)
      {
        mask[pos] := true;
        pos := pos + 1;
      }
      forall k: nat | k < mask.Length ensures mask[k] == (old(mask[k]) || Covered(matches[..m + 1], k)) {
        CoveredStep(matches, m, k);
      }
      m := m + 1;
    }
    assert matches[..m] == matches;
  }

  lemma NotCovered(matches: seq<(nat, nat)>, k: nat)
    requires matches == []
    ensures !Covered(matches, k)
  {
  }

  lemma CoveredStep(matches: seq<(nat, nat)>, m: nat, k: nat)
    requires m < |matches|
    ensures Covered(matches[..m + 1], k) <==> Covered(matches[..m], k) || matches[m].0 <= k < matches[m].1
  {
    if Covered(matches[..m], k) {
      var i :| 0 <= i < m && matches[..m][i].0 <= k < matches[..m][i].1;
      assert matches[..m + 1][i] == matches[..m][i];
    }
    if matches[m].0 <= k < matches[m].1 { assert matches[..m + 1][m] == matches[m]; }
    if Covered(matches[..m + 1], k) {
      var i :| 0 <= i < m + 1 && matches[..m + 1][i].0 <= k < matches[..m + 1][i].1;
      assert i < m ==> matches[..m][i] == matches[..m + 1][i];
    }
  }

  /** Marks the matched positions and zeroes them; `touched` tells whether there was one. */
  method ZeroMarked(find: Finder, all: array<Byte>) returns (touched: bool)
    modifies all
    ensures var matches := find(Decode(old(all[..])));
            && touched == Touched(matches, all.Length)
            && all[..] == Zeroed(old(all[..]), matches)
  {
    hide Covered;
    ghost var bytes := all[..];
    var matches := find(Decode(all[..]));
    var mask := new bool[all.Length](_ => false);
    MarkPositions(matches, mask);
    touched := false;
    var k := 0;
    while k < mask.Length
      invariant k <= mask.Length && touched == Touched(matches, k)
    {
      if mask[k] { touched := true; }
      k := k + 1;
    }
    k := 0;
    while k < all.Length
      invariant k <= all.Length
      invariant forall i | 0 <= i < mask.Length :: mask[i] == Covered(matches, i)
      invariant forall i | 0 <= i < all.Length :: all[i] == if i < k && Covered(matches, i) then 0 else bytes[i]
    {
      if mask[k] { all[k] := 0; }
      k := k + 1;
    }
    assert all[..] == Zeroed(bytes, matches);
  }

  lemma BytesOfInit(block: seq<Line>, i: nat)
    requires i < |block|
    ensures BytesOf(block[..i + 1]) == BytesOf(block[..i]) + block[i].bytes
  {
    BytesOfAppend(block[..i], [block[i]]);
    assert block[..i + 1] == block[..i] + [block[i]];
    assert BytesOf([block[i]]) == block[i].bytes + BytesOf([]);
  }

  lemma {:induction false} BytesOfAppend(a: seq<Line>, b: seq<Line>)
    ensures BytesOf(a + b) == BytesOf(a) + BytesOf(b)
  {
    if |a| == 0 {
      assert a + b == b;
    } else {
      BytesOfAppend(a[1..], b);
      assert (a + b)[1..] == a[1..] + b && (a + b)[0] == a[0];
      AppendAssociative(a[0].bytes, BytesOf(a[1..]), BytesOf(b));
    }
  }

  lemma SpreadStep(block: seq<Line>, bytes: seq<Byte>, i: nat, offset: nat)
    requires i < |block| && offset <= |bytes| && |bytes| - offset == |BytesOf(block[i..])|
    ensures var n := |block[i].bytes|;
            && offset + n <= |bytes| && |bytes| - offset - n == |BytesOf(block[i + 1..])|
            && Spread(block[i..], bytes[offset..])
               == [Rebuild(block[i].prefix, bytes[offset..offset + n])] + Spread(block[i + 1..], bytes[offset + n..])
  {
    hide Rebuild;
    var n := |block[i].bytes|;
    assert block[i..][1..] == block[i + 1..] && block[i..][0] == block[i];
    assert bytes[offset..][n..] == bytes[offset + n..] && bytes[offset..][..n] == bytes[offset..offset + n];
  }

  /** Rebuilds a block line by line, each taking its share of the bytes. */
  method RebuildLines(block: seq<Line>, bytes: seq<Byte>) returns (lines: seq<string>)
    requires |bytes| == |BytesOf(block)|
    ensures lines == Spread(block, bytes)
  {
    hide Rebuild, Spread, BytesOf;
    lines := [];
    var offset, i := 0, 0;
    assert block[0..] == block && bytes[0..] == bytes;
    while i < |block|
      invariant 0 <= i <= |block| && 0 <= offset <= |bytes| && |bytes| - offset == |BytesOf(block[i..])|
      invariant Spread(block, bytes) == lines + Spread(block[i..], bytes[offset..])
    {
      var n := |block[i].bytes|;
      SpreadStep(block, bytes, i, offset);
      var line := Rebuild(block[i].prefix, bytes[offset..offset + n]);
      AppendAssociative(lines, [line], Spread(block[i + 1..], bytes[offset + n..]));
      lines := lines + [line];
      offset, i := offset + n, i + 1;
    }
    SpreadNothing(block[i..], bytes[offset..]);
  }

  lemma SpreadNothing(block: seq<Line>, bytes: seq<Byte>)
    requires |block| == 0 && |bytes| == |BytesOf(block)|
    ensures Spread(block, bytes) == []
  {
  }

  /** The block of dump lines at `i`: their parses, their bytes, and where it ends. */
  method CollectBlock(lines: seq<string>, i: nat) returns (block: seq<Line>, bytes: seq<Byte>, j: nat)
    requires i < |lines| && IsDump(lines[i])
    ensures i < j <= |lines| && j - i == BlockLength(lines[i..])
    ensures AllDump(lines[i..j]) && block == Parsed(lines[i..j]) && bytes == BytesOf(block)
  {
    hide ParseLine, BytesOf;
    block, bytes, j := [], [], i;
    assert lines[i..i] == [] && Parsed([]) == [] && BytesOf([]) == [] by { NoBytes(); }
    while j < |lines|
      invariant i <= j <= |lines| && AllDump(lines[i..j]) && block == Parsed(lines[i..j]) && bytes == BytesOf(block)
      invariant BlockLength(lines[i..]) == j - i + BlockLength(lines[j..])
    {
      var p := ParseLine(lines[j]);
      if p.None? {
        assert !IsDump(lines[j..][0]);
        break;
      }
      assert lines[i..j + 1] == lines[i..j] + [lines[j]];
      assert Parsed(lines[i..j + 1]) == block + [p.value];
      BytesOfInit(block + [p.value], |block|);
      assert (block + [p.value])[..|block|] == block && (block + [p.value])[..|block| + 1] == block + [p.value];
      assert IsDump(lines[j..][0]) && lines[j..][1..] == lines[j + 1..];
      block, bytes, j := block + [p.value], bytes + p.value.bytes, j + 1;
    }
  }

  lemma NoBytes()
    ensures BytesOf([]) == []
  {
  }

  /** One block: bytes gathered, marked, zeroed, and the lines rebuilt if anything was marked. */
  method RedactBlock(find: Finder, source: seq<string>, block: seq<Line>, bytes: seq<Byte>) returns (lines: seq<string>)
    requires AllDump(source) && block == Parsed(source) && bytes == BytesOf(block)
    ensures lines == CleanBlock(find, source)
  {
    hide ParseLine, Touched, Zeroed;
    var all := new Byte[|bytes|](i requires 0 <= i < |bytes| => bytes[i]);
    assert all[..] == bytes;
    var touched := ZeroMarked(find, all);
    if touched {
      lines := RebuildLines(block, all[..]);
    } else {
      lines := source;
    }
  }

  method SanitizeLines(find: Finder, lines: seq<string>) returns (output: seq<string>)
    ensures output == Sanitized(find, lines)
  {
    hide ParseLine, CleanBlock, AllDump;
    output := [];
    var i := 0;
    while i < |lines|
      invariant i <= |lines| && Sanitized(find, lines) == output + Sanitized(find, lines[i..])
    {
      ghost var rest := lines[i..];
      if ParseLine(lines[i]).None? {
        assert rest[1..] == lines[i + 1..];
        AppendAssociative(output, [lines[i]], Sanitized(find, lines[i + 1..]));
        output := output + [lines[i]];
        i := i + 1;
      } else {
        var block, bytes, j := CollectBlock(lines, i);
        assert rest[..j - i] == lines[i..j] && rest[j - i..] == lines[j..];
        var clean := RedactBlock(find, lines[i..j], block, bytes);
        AppendAssociative(output, clean, Sanitized(find, lines[j..]));
        output := output + clean;
        i := j;
      }
    }
  }

  /** The whole pass on a text. */
  method Sanitize(find: Finder, text: string) returns (clean: string)
    ensures clean == JoinLines(Sanitized(find, Lines(text)))
  {
    var output := SanitizeLines(find, Lines(text));
    clean := JoinLines(output);
  }

  // ---------------------------------------------------------------- what a pass does to a text

  /** Lines that are no dump lines are kept. */
  lemma {:induction false} OtherLinesKept(find: Finder, lines: seq<string>, i: nat)
    requires i < |lines| && !IsDump(lines[i])
    ensures Sanitized(find, lines)[i] == lines[i]
    decreases |lines|
  {
    hide ParseLine, CleanBlock;
    if !IsDump(lines[0]) {
      if i > 0 { OtherLinesKept(find, lines[1..], i - 1); }
    } else {
      var n := BlockLength(lines);
      DumpInBlock(lines, i);
      OtherLinesKept(find, lines[n..], i - n);
    }
  }

  lemma DumpInBlock(lines: seq<string>, k: nat)
    ensures k < BlockLength(lines) ==> IsDump(lines[k])
  {
    hide IsDump;
    BlockIsDump(lines);
    if k < BlockLength(lines) { assert lines[..BlockLength(lines)][k] == lines[k]; }
  }

  /** A maximal run of dump lines. */
  ghost predicate IsBlock(lines: seq<string>, from: nat, to: nat) {
    && from < to <= |lines| && AllDump(lines[from..to])
    && (from > 0 ==> !IsDump(lines[from - 1])) && (to < |lines| ==> !IsDump(lines[to]))
  }

  lemma {:induction false} BlockLengthIs(lines: seq<string>, n: nat)
    requires n <= |lines| && AllDump(lines[..n]) && (n < |lines| ==> !IsDump(lines[n]))
    ensures BlockLength(lines) == n
  {
    hide IsDump;
    if n > 0 {
      assert lines[..n][0] == lines[0] && lines[1..][..n - 1] == lines[..n][1..];
      BlockLengthIs(lines[1..], n - 1);
    }
  }

  lemma BlockInRest(lines: seq<string>, from: nat, to: nat, n: nat)
    requires IsBlock(lines, from, to) && n <= from
    ensures IsBlock(lines[n..], from - n, to - n)
  {
    hide IsDump;
    assert lines[n..][from - n..to - n] == lines[from..to];
  }

  lemma BlockStarts(lines: seq<string>, from: nat, to: nat)
    requires IsBlock(lines, from, to)
    ensures IsDump(lines[from])
    ensures from > 0 ==> from > BlockLength(lines)
  {
    hide IsDump;
    assert lines[from..to][0] == lines[from];
    if from > 0 { DumpInBlock(lines, from - 1); }
  }

  lemma SliceOfRest<T>(head: seq<T>, rest: seq<T>, from: nat, to: nat)
    requires |head| <= from <= to <= |head| + |rest|
    ensures (head + rest)[from..to] == rest[from - |head|..to - |head|]
  {
  }

  lemma SliceFromRest<T>(s: seq<T>, n: nat, from: nat, to: nat)
    requires n <= from <= to <= |s|
    ensures s[n..][from - n..to - n] == s[from..to]
  {
  }

  /** Every block is cleaned as a whole and on its own. */
  lemma {:induction false} BlocksAreCleaned(find: Finder, lines: seq<string>, from: nat, to: nat)
    requires IsBlock(lines, from, to)
    ensures Sanitized(find, lines)[from..to] == CleanBlock(find, lines[from..to])
    decreases |lines|
  {
    hide ParseLine, CleanBlock, AllDump, IsBlock, IsDump, BlockLength;
    assert from < to <= |lines| && AllDump(lines[from..to]) by { BlockBounds(lines, from, to); }
    BlockStarts(lines, from, to);
    if !IsDump(lines[0]) {
      BlockInRest(lines, from, to, 1);
      BlocksAreCleaned(find, lines[1..], from - 1, to - 1);
      SliceOfRest([lines[0]], Sanitized(find, lines[1..]), from, to);
      SliceFromRest(lines, 1, from, to);
    } else {
      var n := BlockLength(lines);
      BlockIsDump(lines);
      if from == 0 {
        FirstBlockIs(lines, to);
        assert lines[0..to] == lines[..to];
        assert (CleanBlock(find, lines[..n]) + Sanitized(find, lines[n..]))[0..to] == CleanBlock(find, lines[..n]);
      } else {
        BlockInRest(lines, from, to, n);
        BlocksAreCleaned(find, lines[n..], from - n, to - n);
        SliceOfRest(CleanBlock(find, lines[..n]), Sanitized(find, lines[n..]), from, to);
        SliceFromRest(lines, n, from, to);
      }
    }
  }

  lemma BlockBounds(lines: seq<string>, from: nat, to: nat)
    requires IsBlock(lines, from, to)
    ensures from < to <= |lines| && AllDump(lines[from..to])
  {
  }

  lemma FirstBlockIs(lines: seq<string>, to: nat)
    requires IsBlock(lines, 0, to)
    ensures BlockLength(lines) == to
  {
    hide IsDump;
    assert lines[0..to] == lines[..to];
    BlockLengthIs(lines, to);
  }

  /** What a cleaned line parses to. */
  lemma {:induction false} SpreadParses(block: seq<Line>, bytes: seq<Byte>, i: nat)
    requires |bytes| == |BytesOf(block)| && i < |block|
    requires forall l | l in block :: PrefixLength(l.prefix) == Some(|l.prefix|) && |l.bytes| >= 4
    ensures var from := |BytesOf(block[..i])|;
            && from + |block[i].bytes| <= |bytes|
            && ParseLine(Spread(block, bytes)[i]).Some?
            && ParseLine(Spread(block, bytes)[i]).value.prefix == block[i].prefix
            && ParseLine(Spread(block, bytes)[i]).value.bytes == bytes[from..from + |block[i].bytes|]
  {
    hide ParseLine, Rebuild, PrefixLength, AsciiColumn, Spread, BytesOf;
    var n := |block[0].bytes|;
    SpreadHead(block, bytes);
    if i == 0 {
      NoBytes();
      assert block[..0] == [] && block[0] in block;
      RebuiltLineParses(block[0].prefix, bytes[..n]);
      assert bytes[0..n] == bytes[..n];
    } else {
      SpreadParses(block[1..], bytes[n..], i - 1);
      BytesOfLonger(block, i);
      var from := |BytesOf(block[1..][..i - 1])|;
      SliceFromRest(bytes, n, n + from, n + from + |block[i].bytes|);
    }
  }

  lemma SpreadHead(block: seq<Line>, bytes: seq<Byte>)
    requires |bytes| == |BytesOf(block)| && |block| > 0
    ensures var n := |block[0].bytes|;
            && n <= |bytes| && |bytes| - n == |BytesOf(block[1..])|
            && Spread(block, bytes) == [Rebuild(block[0].prefix, bytes[..n])] + Spread(block[1..], bytes[n..])
  {
    hide Rebuild;
  }

  lemma BytesOfLonger(block: seq<Line>, i: nat)
    requires 0 < i <= |block|
    ensures |BytesOf(block[..i])| == |block[0].bytes| + |BytesOf(block[1..][..i - 1])|
  {
    assert block[..i][0] == block[0] && block[..i][1..] == block[1..][..i - 1];
  }

  lemma PlainLines(lines: seq<string>)
    requires AllDump(lines)
    ensures forall l | l in Parsed(lines) :: PrefixLength(l.prefix) == Some(|l.prefix|) && |l.bytes| >= 4
  {
    hide ParseLine, PrefixLength;
    forall l | l in Parsed(lines) ensures PrefixLength(l.prefix) == Some(|l.prefix|) && |l.bytes| >= 4 {
      var i :| 0 <= i < |lines| && Parsed(lines)[i] == l;
      assert IsDump(lines[i]);
      ParsedPrefixStands(lines[i]);
    }
  }

  lemma UntouchedIsSame(bytes: seq<Byte>, matches: seq<(nat, nat)>)
    requires !Touched(matches, |bytes|)
    ensures Zeroed(bytes, matches) == bytes
  {
  }

  lemma {:induction false} OwnShare(block: seq<Line>, i: nat)
    requires i < |block|
    ensures var from := |BytesOf(block[..i])|;
            from + |block[i].bytes| <= |BytesOf(block)|
                && BytesOf(block)[from..from + |block[i].bytes|] == block[i].bytes
  {
    BytesOfInit(block, i);
    BytesOfAppend(block[..i + 1], block[i + 1..]);
    assert block == block[..i + 1] + block[i + 1..];
  }

  /** A cleaned block reads as the same dump, line for line with the same prefixes and byte counts, whose
      bytes are zero at exactly the matched positions, wherever the line ends fall. Without a match it is
      the same text. */
  lemma CleanBlockReadsBack(find: Finder, block: seq<string>, i: nat)
    requires AllDump(block) && i < |block|
    ensures var was, now := ParseLine(block[i]).value, ParseLine(CleanBlock(find, block)[i]);
            var from := |BytesOf(Parsed(block)[..i])|;
            var bytes := Zeroed(BytesOf(Parsed(block)), MatchesIn(find, block));
            && from + |was.bytes| <= |bytes|
            && now.Some? && now.value.prefix == was.prefix
            && now.value.bytes == bytes[from..from + |was.bytes|]
    ensures !Touched(MatchesIn(find, block), |BytesOf(Parsed(block))|) ==> CleanBlock(find, block) == block
  {
    hide ParseLine, PrefixLength, Rebuild, Touched, Zeroed, BytesOf, Spread, MatchesIn;
    var parsed := Parsed(block);
    var bytes := BytesOf(parsed);
    var matches := MatchesIn(find, block);
    assert IsDump(block[i]) && parsed[i] == ParseLine(block[i]).value;
    PlainLines(block);
    SpreadParses(parsed, Zeroed(bytes, matches), i);
    if !Touched(matches, |bytes|) {
      UntouchedIsSame(bytes, matches);
      OwnShare(parsed, i);
    }
  }

  /** The pass neither adds nor removes lines from the text. */
  lemma LinesOfSanitized(find: Finder, text: string)
    ensures Lines(JoinLines(Sanitized(find, Lines(text)))) == Sanitized(find, Lines(text))
  {
    hide Sanitized;
    SanitizedHasNoNewline(find, Lines(text));
    LinesOfJoin(Sanitized(find, Lines(text)));
  }

  lemma {:induction false} SanitizedHasNoNewline(find: Finder, lines: seq<string>)
    requires forall l | l in lines :: '\n' !in l
    ensures forall l | l in Sanitized(find, lines) :: '\n' !in l
    decreases |lines|
  {
    hide IsDump, CleanBlock, AllDump;
    if |lines| > 0 {
      if !IsDump(lines[0]) {
        SanitizedHasNoNewline(find, lines[1..]);
        assert lines[0] in lines;
      } else {
        var n := BlockLength(lines);
        BlockIsDump(lines);
        CleanHasNoNewline(find, lines[..n]);
        SanitizedHasNoNewline(find, lines[n..]);
      }
    }
  }

  lemma CleanHasNoNewline(find: Finder, block: seq<string>)
    requires AllDump(block) && forall l | l in block :: '\n' !in l
    ensures forall l | l in CleanBlock(find, block) :: '\n' !in l
  {
    hide ParseLine, Touched, Zeroed, MatchesIn, Spread, BytesOf;
    var parsed := Parsed(block);
    forall l | l in parsed ensures '\n' !in l.prefix {
      var i :| 0 <= i < |block| && parsed[i] == l;
      PrefixOfLine(block[i]);
      assert block[i] in block;
    }
    SpreadHasNoNewline(parsed, Zeroed(BytesOf(parsed), MatchesIn(find, block)));
  }

  lemma PrefixOfLine(line: string)
    requires ParseLine(line).Some? && '\n' !in line
    ensures '\n' !in ParseLine(line).value.prefix
  {
    hide PrefixLength, ScanBytes;
  }

  lemma {:induction false} SpreadHasNoNewline(block: seq<Line>, bytes: seq<Byte>)
    requires |bytes| == |BytesOf(block)| && forall l | l in block :: '\n' !in l.prefix
    ensures forall l | l in Spread(block, bytes) :: '\n' !in l
  {
    hide Rebuild;
    if |block| > 0 {
      var n := |block[0].bytes|;
      assert block[0] in block;
      RebuiltHasNoNewline(block[0].prefix, bytes[..n]);
      SpreadHasNoNewline(block[1..], bytes[n..]);
    }
  }

  lemma RebuiltHasNoNewline(prefix: string, bytes: seq<Byte>)
    requires '\n' !in prefix
    ensures '\n' !in Rebuild(prefix, bytes)
  {
    hide HexColumn, AsciiColumn;
    ColumnsHaveNoNewline(bytes);
  }

  lemma ColumnsHaveNoNewline(bytes: seq<Byte>)
    ensures '\n' !in HexColumn(bytes) && '\n' !in AsciiColumn(bytes)
  {
    hide Pairs;
    PairsHaveNoNewline(bytes);
    if |bytes| > 8 {
      PairsHaveNoNewline(bytes[..8]);
      PairsHaveNoNewline(bytes[8..]);
    }
  }

  lemma {:induction false} PairsHaveNoNewline(bytes: seq<Byte>)
    ensures '\n' !in Pairs(bytes)
  {
    if |bytes| > 1 { PairsHaveNoNewline(bytes[1..]); }
  }

  // ---------------------------------------------------------------- the line pattern

  predicate AllSpace(s: string) {
    forall c | c in s :: IsSpace(c)
  }

  /** Space, an optional 0x, 4 to 16 hex digits, a colon or a space character, space. */
  datatype Address = Address(lead: string, zeroX: bool, digits: string, sep: char, trail: string) {
    function Text(): string {
      lead + ((if zeroX then "0x" else "") + (digits + ([sep] + trail)))
    }

    predicate Fits() {
      && AllSpace(lead) && AllSpace(trail) && 4 <= |digits| <= 16 && (forall c | c in digits :: IsHex(c))
      && (sep == ':' || IsSpace(sep))
    }
  }

  /** Two hex digits and the space after them. */
  datatype Piece = Piece(pair: string, gap: string) {
    predicate Fits() {
      |pair| == 2 && IsHex(pair[0]) && IsHex(pair[1]) && AllSpace(gap)
    }
  }

  function PiecesText(pieces: seq<Piece>): string {
    if |pieces| == 0 then "" else pieces[0].pair + (pieces[0].gap + PiecesText(pieces[1..]))
  }

  /** Only the last pair may have no space after it. */
  predicate PiecesFit(pieces: seq<Piece>) {
    && (forall x | x in pieces :: x.Fits())
    && (forall i | 0 <= i < |pieces| - 1 :: pieces[i].gap != "")
  }

  /** The pattern of a hexdump line: address, at least four byte pairs, anything. */
  ghost predicate MatchesPattern(line: string) {
    exists a: Address, pieces: seq<Piece>, rest: string ::
      a.Fits() && PiecesFit(pieces) && |pieces| >= 4 && line == a.Text() + (PiecesText(pieces) + rest)
  }

  lemma {:induction false} RunOverAll(p: char -> bool, s: string, t: string)
    requires (forall c | c in s :: p(c)) && (t == "" || !p(t[0]))
    ensures Run(p, s + t) == |s|
  {
    if s == "" {
      assert s + t == t;
    } else {
      assert s[0] in s;
      assert (s + t)[1..] == s[1..] + t;
      RunOverAll(p, s[1..], t);
    }
  }

  lemma {:induction false} StripOverAll(s: string, t: string)
    requires AllSpace(s) && (t == "" || !IsSpace(t[0]))
    ensures LStrip(s + t) == t
  {
    hide IsSpace;
    if s == "" {
      assert s + t == t;
    } else {
      assert s[0] in s;
      assert (s + t)[1..] == s[1..] + t;
      StripOverAll(s[1..], t);
    }
  }

  lemma SeparatorIsNoDigit(c: char)
    requires c == ':' || IsSpace(c)
    ensures !IsHex(c)
  {
  }

  lemma DigitsFound(digits: string, sep: char, trail: string)
    requires 4 <= |digits| <= 16 && (forall c | c in digits :: IsHex(c)) && AllSpace(trail)
             && (sep == ':' || IsSpace(sep))
    ensures var d := digits + ([sep] + trail); DigitsLength(d) == Some(|d|)
  {
    hide IsSpace, IsHex;
    var d := digits + ([sep] + trail);
    SeparatorIsNoDigit(sep);
    RunOverAll(IsHex, digits, [sep] + trail);
    assert d[|digits| + 1..] == trail;
    RunOverAll(IsSpace, trail, "");
    assert trail + "" == trail;
  }

  lemma AddressStart(lead: string, zeroX: bool, tail: string)
    requires AllSpace(lead) && |tail| >= 2 && IsHex(tail[0]) && IsHex(tail[1])
    ensures var s := lead + ((if zeroX then "0x" else "") + tail);
            DigitsAt(s) == |lead| + (if zeroX then 2 else 0) && s[DigitsAt(s)..] == tail
  {
    hide IsSpace, IsHex, Run;
    var rest := (if zeroX then "0x" else "") + tail;
    DigitIsInk(tail[0]);
    DigitIsInk(tail[1]);
    DigitIsInk('0') by { ZeroIsHex(); }
    assert rest[0] == if zeroX then '0' else tail[0];
    RunOverAll(IsSpace, lead, rest);
    assert (lead + rest)[|lead|..] == rest;
    if zeroX {
      assert rest[..2] == "0x" && (lead + rest)[|lead| + 2..] == tail;
    } else {
      assert rest == tail && rest[..2][1] == tail[1];
    }
  }

  /** An address of the right shape is read to its end. */
  lemma AddressFound(a: Address)
    requires a.Fits()
    ensures PrefixLength(a.Text()) == Some(|a.Text()|)
  {
    hide IsSpace, IsHex, DigitsLength, DigitsAt;
    var tail := a.digits + ([a.sep] + a.trail);
    DigitsFound(a.digits, a.sep, a.trail);
    assert a.digits[0] in a.digits && a.digits[1] in a.digits;
    AddressStart(a.lead, a.zeroX, tail);
  }

  lemma ZeroIsHex()
    ensures IsHex('0')
  {
  }

  lemma DigitIsInk(c: char)
    requires IsHex(c)
    ensures !IsSpace(c) && c != 'x'
  {
  }

  lemma ScanFirst(pair: string, more: string)
    requires |pair| == 2 && PairAt(pair)
    ensures |ScanBytes(pair + more).0| >= 1
  {
    hide IsHex, IsSpace;
    assert (pair + more)[0] == pair[0] && (pair + more)[1] == pair[1];
  }

  lemma ScanPast(pair: string, gap: string, more: string)
    requires |pair| == 2 && PairAt(pair) && AllSpace(gap) && gap != "" && more != "" && !IsSpace(more[0])
    ensures |ScanBytes(pair + (gap + more)).0| == 1 + |ScanBytes(more).0|
  {
    hide IsHex, IsSpace;
    var s := pair + (gap + more);
    assert s[0] == pair[0] && s[1] == pair[1] && s[2..] == gap + more;
    assert gap[0] in gap;
    StripOverAll(gap, more);
  }

  lemma RestFits(pieces: seq<Piece>)
    requires PiecesFit(pieces) && |pieces| > 0
    ensures PiecesFit(pieces[1..]) && pieces[0].Fits() && (|pieces| > 1 ==> pieces[0].gap != "")
  {
    hide IsHex, AllSpace;
  }

  /** Every pair of the pattern is scanned. */
  lemma {:induction false} PairsFound(pieces: seq<Piece>, rest: string)
    requires PiecesFit(pieces)
    ensures |ScanBytes(PiecesText(pieces) + rest).0| >= |pieces|
  {
    hide IsSpace, IsHex, ScanBytes, PiecesFit;
    if |pieces| > 0 {
      var x := pieces[0];
      RestFits(pieces);
      var more := PiecesText(pieces[1..]) + rest;
      AppendAssociative(x.pair, x.gap + PiecesText(pieces[1..]), rest);
      AppendAssociative(x.gap, PiecesText(pieces[1..]), rest);
      PairsFound(pieces[1..], rest);
      if |pieces| > 1 {
        FirstPairIsInk(pieces[1..], rest);
        ScanPast(x.pair, x.gap, more);
      } else {
        ScanFirst(x.pair, x.gap + more);
      }
    }
  }

  /** The pieces a scan goes over. */
  function PiecesOf(s: string): seq<Piece>
    decreases |s|
  {
    if !PairAt(s) then []
    else
      var tail := s[2..];
      if tail == "" || !IsSpace(tail[0]) then [Piece(s[..2], "")]
      else
        var rest := LStrip(tail);
        [Piece(s[..2], tail[..|tail| - |rest|])] + PiecesOf(rest)
  }

  lemma {:induction false} StrippedIsSpace(s: string)
    ensures AllSpace(s[..|s| - |LStrip(s)|])
  {
    hide IsSpace;
    if s != "" && IsSpace(s[0]) {
      StrippedIsSpace(s[1..]);
      var n := |s| - |LStrip(s)|;
      assert s[..n] == [s[0]] + s[1..][..n - 1];
    }
  }

  lemma {:induction false} PiecesCover(s: string)
    ensures PiecesFit(PiecesOf(s)) && |PiecesOf(s)| == |ScanBytes(s).0|
    ensures s == PiecesText(PiecesOf(s)) + ScanBytes(s).1
    decreases |s|
  {
    hide IsSpace, IsHex, PiecesText, PiecesFit, LStrip;
    if !PairAt(s) {
      assert PiecesFit([]) && PiecesText([]) + s == s by { NoPieces(s); }
    } else {
      var tail := s[2..];
      if tail == "" || !IsSpace(tail[0]) {
        OnePiece(s);
        assert s == s[..2] + tail;
      } else {
        var rest := LStrip(tail);
        PiecesCover(rest);
        StrippedIsSpace(tail);
        CoverStep(s, PiecesOf(rest), ScanBytes(rest).1);
      }
    }
  }

  lemma NoPieces(s: string)
    ensures PiecesFit([]) && PiecesText([]) + s == s
  {
  }

  lemma CoverStep(s: string, pieces: seq<Piece>, end: string)
    requires PairAt(s) && s[2..] != "" && IsSpace(s[2]) && PiecesFit(pieces)
    requires LStrip(s[2..]) == PiecesText(pieces) + end && AllSpace(s[2..][..|s| - 2 - |LStrip(s[2..])|])
    ensures var all := [Piece(s[..2], s[2..][..|s| - 2 - |LStrip(s[2..])|])] + pieces;
            PiecesFit(all) && s == PiecesText(all) + end
  {
    hide IsSpace, IsHex, PiecesText, PiecesFit, AllSpace;
    var rest := LStrip(s[2..]);
    var gap := s[2..][..|s| - 2 - |rest|];
    assert |rest| < |s| - 2 by { SomethingStripped(s[2..]); }
    assert s[2..] == gap + rest && s == s[..2] + (gap + rest);
    MorePieces(s[..2], gap, pieces);
    AppendAssociative(gap, PiecesText(pieces), end);
    AppendAssociative(s[..2], gap + PiecesText(pieces), end);
  }

  lemma SomethingStripped(s: string)
    requires s != "" && IsSpace(s[0])
    ensures |LStrip(s)| < |s|
  {
  }

  lemma OnePiece(s: string)
    requires PairAt(s)
    ensures PiecesFit([Piece(s[..2], "")]) && PiecesText([Piece(s[..2], "")]) == s[..2]
  {
    hide IsHex;
    assert PiecesText([]) == "";
  }

  lemma MorePieces(pair: string, gap: string, pieces: seq<Piece>)
    requires PairAt(pair) && |pair| == 2 && AllSpace(gap) && gap != "" && PiecesFit(pieces)
    ensures PiecesFit([Piece(pair, gap)] + pieces)
    ensures PiecesText([Piece(pair, gap)] + pieces) == pair + (gap + PiecesText(pieces))
  {
    hide IsHex, AllSpace;
    var all := [Piece(pair, gap)] + pieces;
    assert all[1..] == pieces;
    forall i | 0 <= i < |all| - 1 ensures all[i].gap != "" { if i > 0 { assert all[i] == pieces[i - 1]; } }
  }

  lemma {:induction false} RunIsAll(p: char -> bool, s: string)
    ensures forall c | c in s[..Run(p, s)] :: p(c)
  {
    if s != "" && p(s[0]) {
      RunIsAll(p, s[1..]);
      assert s[..Run(p, s)] == [s[0]] + s[1..][..Run(p, s) - 1];
    }
  }

  lemma DigitsRead(d: string) returns (digits: string, sep: char, trail: string)
    requires DigitsLength(d) == Some(|d|)
    ensures d == digits + ([sep] + trail) && 4 <= |digits| <= 16 && AllSpace(trail) && (sep == ':' || IsSpace(sep))
    ensures forall c | c in digits :: IsHex(c)
  {
    hide IsSpace, IsHex;
    var n := Run(IsHex, d);
    RunIsAll(IsHex, d);
    digits, sep, trail := d[..n], d[n], d[n + 1..];
    RunIsAll(IsSpace, trail);
    assert trail[..Run(IsSpace, trail)] == trail;
  }

  /** The address part read from a line has the shape of one. */
  lemma AddressRead(p: string) returns (a: Address)
    requires PrefixLength(p) == Some(|p|)
    ensures a.Fits() && a.Text() == p
  {
    hide IsSpace, IsHex, DigitsLength, Run;
    var spaces, start := Run(IsSpace, p), DigitsAt(p);
    var digits, sep, trail := DigitsRead(p[start..]);
    RunIsAll(IsSpace, p);
    a := Address(p[..spaces], start != spaces, digits, sep, trail);
    AddressJoins(p, spaces, start);
  }

  lemma AddressJoins(p: string, spaces: nat, start: nat)
    requires spaces <= start <= |p| && start == if StartsWith(p[spaces..], "0x") then spaces + 2 else spaces
    ensures p == p[..spaces] + ((if start != spaces then "0x" else "") + p[start..])
  {
    if start != spaces { assert p[spaces..] == "0x" + p[start..] by { assert p[spaces..][..2] == "0x"; } }
    assert p == p[..spaces] + p[spaces..];
  }

  lemma DumpMatches(line: string)
    requires IsDump(line)
    ensures MatchesPattern(line)
  {
    hide PrefixLength, ScanBytes, PiecesFit, PiecesOf, Address.Fits, Address.Text, PiecesText;
    var n := PrefixLength(line).value;
    PrefixAlone(line);
    var a := AddressRead(line[..n]);
    PiecesCover(line[n..]);
    var pieces, rest := PiecesOf(line[n..]), ScanBytes(line[n..]).1;
    assert line == line[..n] + line[n..];
    assert a.Fits() && PiecesFit(pieces) && |pieces| >= 4 && line == a.Text() + (PiecesText(pieces) + rest);
  }

  lemma PatternIsDump(a: Address, pieces: seq<Piece>, rest: string)
    requires a.Fits() && PiecesFit(pieces) && |pieces| >= 4
    ensures IsDump(a.Text() + (PiecesText(pieces) + rest))
  {
    hide PrefixLength, ScanBytes, PiecesFit, Address.Fits, Address.Text, PiecesText, IsSpace;
    AddressFound(a);
    PairsFound(pieces, rest);
    var t := PiecesText(pieces) + rest;
    FirstPairIsInk(pieces, rest);
    PrefixExtends(a.Text(), t);
    assert (a.Text() + t)[|a.Text()|..] == t;
  }

  /** The scanner recognises exactly the lines of the pattern. */
  lemma ScannerIsThePattern(line: string)
    ensures IsDump(line) <==> MatchesPattern(line)
  {
    hide IsDump, PiecesFit, Address.Fits, Address.Text, PiecesText;
    if IsDump(line) { DumpMatches(line); }
    if MatchesPattern(line) {
      var a: Address, pieces: seq<Piece>, rest: string :|
        a.Fits() && PiecesFit(pieces) && |pieces| >= 4 && line == a.Text() + (PiecesText(pieces) + rest);
      PatternIsDump(a, pieces, rest);
    }
  }

  lemma FirstPairIsInk(pieces: seq<Piece>, rest: string)
    requires PiecesFit(pieces) && |pieces| > 0
    ensures var t := PiecesText(pieces) + rest; t != "" && !IsSpace(t[0])
  {
    hide IsSpace, IsHex;
    var x := pieces[0];
    assert x in pieces && x.Fits();
    DigitIsInk(x.pair[0]);
    assert (PiecesText(pieces) + rest)[0] == x.pair[0];
  }
}
