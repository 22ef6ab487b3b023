/** Strings as the modelled program sees them: white space, lines, trimming,
    bounded tails and UTF-8 sizes. */
module Text {

  /** The characters for which Python's `str.isspace` holds. */
  predicate IsSpace(c: char) {
    var n := c as int;
    || 0x09 <= n <= 0x0D || 0x1C <= n <= 0x20 || n == 0x85 || n == 0xA0 || n == 0x1680
    || 0x2000 <= n <= 0x200A || n == 0x2028 || n == 0x2029 || n == 0x202F || n == 0x205F || n == 0x3000
  }

  predicate Blank(s: string) {
    forall k | 0 <= k < |s| :: IsSpace(s[k])
  }

  function LStrip(s: string): (r: string)
    ensures |r| <= |s| && r == s[|s| - |r|..]
    ensures r == "" || !IsSpace(r[0])
  {
    if s == "" || !IsSpace(s[0]) then s else LStrip(s[1..])
  }

  function RStrip(s: string): (r: string)
    ensures |r| <= |s| && r == s[..|r|]
    ensures r == "" || !IsSpace(r[|r| - 1])
  {
    if s == "" || !IsSpace(s[|s| - 1]) then s else RStrip(s[..|s| - 1])
  }

  function Strip(s: string): string {
    RStrip(LStrip(s))
  }

  lemma BlankFirst(s: string)
    requires s != ""
    ensures Blank(s) <==> IsSpace(s[0]) && Blank(s[1..])
  {
    hide IsSpace;
    if IsSpace(s[0]) && Blank(s[1..]) {
      forall k | 0 <= k < |s| ensures IsSpace(s[k]) { if k > 0 { assert s[k] == s[1..][k - 1]; } }
    }
  }

  lemma {:induction false} LStripBlank(s: string)
    ensures LStrip(s) == "" <==> Blank(s)
  {
    hide IsSpace;
    if s != "" {
      hide Blank;
      BlankFirst(s);
      if IsSpace(s[0]) { LStripBlank(s[1..]); }
    }
  }

  /** Trimming removes everything exactly from the blank strings. */
  lemma StripBlank(s: string)
    ensures Strip(s) == "" <==> Blank(s)
  {
    hide IsSpace;
    LStripBlank(s);
    var l := LStrip(s);
    if l != "" && RStrip(l) == "" {
      RStripKeepsInk(l);
    }
  }

  lemma {:induction false} RStripKeepsInk(s: string)
    requires s != "" && !IsSpace(s[0])
    ensures RStrip(s) != ""
  {
    hide IsSpace;
    if IsSpace(s[|s| - 1]) {
      RStripKeepsInk(s[..|s| - 1]);
    }
  }

  /** Trimmed text is a fixed point of trimming. */
  lemma StripStrip(s: string)
    ensures Strip(Strip(s)) == Strip(s)
  {
    hide IsSpace;
    var r := Strip(s);
    if r != "" {
      assert r[0] == LStrip(s)[0];
    }
  }

  predicate StartsWith(s: string, p: string) {
    |p| <= |s| && s[..|p|] == p
  }

  // ---------------------------------------------------------------- tails

  /** Python's `s[-n:]` for n > 0. */
  function LastN<T>(s: seq<T>, n: nat): (r: seq<T>)
    ensures |r| == if |s| <= n then |s| else n
  {
    if |s| <= n then s else s[|s| - n..]
  }

  /** A window kept up to date by appending and re-cutting is the window of the whole. */
  lemma LastNAppend<T>(s: seq<T>, t: seq<T>, n: nat)
    ensures LastN(LastN(s, n) + t, n) == LastN(s + t, n)
  {
  }

  lemma LastNLastN<T>(s: seq<T>, m: nat, n: nat)
    requires m <= n
    ensures LastN(LastN(s, n), m) == LastN(s, m)
  {
  }

  // ---------------------------------------------------------------- lines

  /** Position of the first newline, or |s|. */
  function NewlineAt(s: string): (i: nat)
    ensures i <= |s|
    ensures i < |s| ==> s[i] == '\n'
    ensures forall k | 0 <= k < i :: s[k] != '\n'
  {
    if s == "" || s[0] == '\n' then 0 else 1 + NewlineAt(s[1..])
  }

  /** `s.split("\n")`: never empty, and no line holds a newline. */
  function Lines(s: string): (ls: seq<string>)
    ensures |ls| > 0
    ensures forall l | l in ls :: '\n' !in l
    decreases |s|
  {
    var i := NewlineAt(s);
    if i == |s| then [s] else [s[..i]] + Lines(s[i + 1..])
  }

  /** `"\n".join(ls)`. */
  function JoinLines(ls: seq<string>): string {
    if |ls| == 0 then "" else if |ls| == 1 then ls[0] else ls[0] + "\n" + JoinLines(ls[1..])
  }

  lemma {:induction false} JoinOfLines(s: string)
    ensures JoinLines(Lines(s)) == s
    decreases |s|
  {
    hide NewlineAt, JoinLines;
    var i := NewlineAt(s);
    if i < |s| {
      JoinOfLines(s[i + 1..]);
      JoinFirst(s[..i], Lines(s[i + 1..]));
      CutAtNewline(s, i);
    } else {
      JoinOne(s);
    }
  }

  lemma JoinOne(line: string)
    ensures JoinLines([line]) == line
  {
  }

  lemma JoinFirst(line: string, ls: seq<string>)
    requires |ls| > 0
    ensures JoinLines([line] + ls) == line + "\n" + JoinLines(ls)
  {
    assert ([line] + ls)[1..] == ls;
  }

  lemma CutAtNewline(s: string, i: nat)
    requires i < |s| && s[i] == '\n'
    ensures s[..i] + "\n" + s[i + 1..] == s
  {
  }

  lemma NewlineAtUnique(s: string, i: nat)
    requires i <= |s| && (i < |s| ==> s[i] == '\n') && forall k | 0 <= k < i :: s[k] != '\n'
    ensures NewlineAt(s) == i
  {
  }

  lemma {:induction false} LinesOfJoin(ls: seq<string>)
    requires |ls| > 0
    requires forall l | l in ls :: '\n' !in l
    ensures Lines(JoinLines(ls)) == ls
  {
    hide JoinLines, Lines;
    assert ls[0] in ls;
    if |ls| == 1 {
      JoinOne(ls[0]);
      OneLineOnly(ls[0]);
      assert ls == [ls[0]];
    } else {
      var rest := ls[1..];
      assert ls == [ls[0]] + rest;
      LinesOfJoin(rest);
      JoinFirst(ls[0], rest);
      LineThenRest(ls[0], JoinLines(rest));
    }
  }

  lemma OneLineOnly(line: string)
    requires '\n' !in line
    ensures Lines(line) == [line]
  {
    NewlineAtUnique(line, |line|);
  }

  lemma LineThenRest(line: string, rest: string)
    requires '\n' !in line
    ensures Lines(line + "\n" + rest) == [line] + Lines(rest)
  {
    hide NewlineAt;
    var s := line + "\n" + rest;
    NewlineAtUnique(s, |line|);
    assert s[..|line|] == line && s[|line| + 1..] == rest;
  }

  /** Without its own newline, text glued to the front only lengthens the first line. */
  lemma LinesPrefix(p: string, s: string)
    requires '\n' !in p
    ensures Lines(p + s) == [p + Lines(s)[0]] + Lines(s)[1..]
  {
    var i := NewlineAt(s);
    NewlineAtUnique(p + s, |p| + i);
    if i == |s| {
      assert Lines(s) == [s];
    } else {
      assert (p + s)[..|p| + i] == p + s[..i];
      assert (p + s)[|p| + i + 1..] == s[i + 1..];
    }
  }

  /** Appending text only affects the last line. */
  lemma {:induction false} LinesAppend(a: string, b: string)
    ensures var la := Lines(a);
            Lines(a + b) == la[..|la| - 1] + Lines(la[|la| - 1] + b)
    decreases |a|
  {
    hide NewlineAt, Lines;
    var i := NewlineAt(a);
    if i == |a| {
      OneLineOnly(a);
      assert [a][..0] == [] && [] + Lines(a + b) == Lines(a + b);
    } else {
      var line, rest := a[..i], a[i + 1..];
      CutAtNewline(a, i);
      LinesAppend(rest, b);
      LineThenRest(line, rest);
      AppendAssociative(line + "\n", rest, b);
      LineThenRest(line, rest + b);
      var lr := Lines(rest);
      LastOfLonger(line, lr, Lines(lr[|lr| - 1] + b));
    }
  }

  lemma LastOfLonger<T>(first: T, rest: seq<T>, more: seq<T>)
    requires |rest| > 0
    ensures var all := [first] + rest;
            all[|all| - 1] == rest[|rest| - 1] && all[..|all| - 1] + more == [first] + (rest[..|rest| - 1] + more)
  {
  }

  // ---------------------------------------------------------------- bytes

  /** Octets of one character, section 3 of RFC 3629. */
  function Utf8Size(c: char): nat {
    var n := c as int;
    if n < 0x80 then 1 else if n < 0x800 then 2 else if n < 0x1_0000 then 3 else 4
  }

  function Utf8Bytes(s: string): nat {
    if s == "" then 0 else Utf8Size(s[0]) + Utf8Bytes(s[1..])
  }

  lemma {:induction false} Utf8BytesAppend(s: string, t: string)
    ensures Utf8Bytes(s + t) == Utf8Bytes(s) + Utf8Bytes(t)
  {
    if s == "" {
      assert s + t == t;
    } else {
      Utf8BytesAppend(s[1..], t);
      assert (s + t)[1..] == s[1..] + t;
    }
  }

  /** Number of characters that are not white space. */
  function InkCount(s: string): nat {
    if s == "" then 0 else (if IsSpace(s[0]) then 0 else 1) + InkCount(s[1..])
  }

  lemma {:induction false} InkCountAppend(s: string, t: string)
    ensures InkCount(s + t) == InkCount(s) + InkCount(t)
  {
    if s == "" {
      assert s + t == t;
    } else {
      InkCountAppend(s[1..], t);
      assert (s + t)[1..] == s[1..] + t;
    }
  }

  // ---------------------------------------------------------------- joining

  lemma AppendAssociative<T>(a: seq<T>, b: seq<T>, c: seq<T>)
    ensures a + b + c == a + (b + c)
  {
  }

  /** A cut inside the second of two joined sequences. */
  lemma CutInSecond<T>(a: seq<T>, b: seq<T>, n: nat)
    requires n <= |b|
    ensures (a + b)[..|a| + n] == a + b[..n]
    ensures (a + b)[|a| + n..] == b[n..]
  {
  }

  /** A cut inside the first of two joined sequences. */
  lemma CutInFirst<T>(a: seq<T>, b: seq<T>, n: nat)
    requires n <= |a|
    ensures (a + b)[..n] == a[..n]
    ensures (a + b)[n..] == a[n..] + b
  {
  }

  lemma CutAndJoin<T>(a: seq<T>, n: nat)
    requires n <= |a|
    ensures a[..n] + a[n..] == a
  {
  }

  function Concat<T>(parts: seq<seq<T>>): seq<T> {
    if |parts| == 0 then [] else parts[0] + Concat(parts[1..])
  }

  lemma {:induction false} ConcatAppend<T>(a: seq<seq<T>>, b: seq<seq<T>>)
    ensures Concat(a + b) == Concat(a) + Concat(b)
  {
    if |a| == 0 {
      assert a + b == b;
    } else {
      ConcatAppend(a[1..], b);
      assert (a + b)[1..] == a[1..] + b && (a + b)[0] == a[0];
      assert a[0] + (Concat(a[1..]) + Concat(b)) == a[0] + Concat(a[1..]) + Concat(b);
    }
  }
}
