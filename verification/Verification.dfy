/** Independent verification of hypotheses: one reply must give a valid verdict for every one of them,
    or nothing is taken from it. */
module Verification {
  import opened Wrappers
  import opened Text
  import opened Json
  import opened Batches

  datatype Verdict = Verdict(status: string, claim: string, citations: seq<string>)

  /** What the parser returns; an unhashable status makes it raise instead. */
  datatype Parse = Parse(verdicts: map<string, Verdict>, unresolved: set<string>, error: Option<Flaw>) | TypeError

  // ---------------------------------------------------------------- one entry

  predicate OneLine(s: string) {
    s != "" && '\n' !in s
  }

  /** A prefix, then one or more characters on one line; one newline may end it. */
  predicate CitationBody(s: string) {
    OneLine(s) || (|s| > 1 && s[|s| - 1] == '\n' && OneLine(s[..|s| - 1]))
  }

  predicate IsCitation(s: string) {
    || (StartsWith(s, "function:") && CitationBody(s[|"function:"|..]))
    || (StartsWith(s, "address:") && CitationBody(s[|"address:"|..]))
    || (StartsWith(s, "tool_result:") && CitationBody(s[|"tool_result:"|..]))
  }

  predicate AllCitations(items: seq<Value>) {
    forall i | 0 <= i < |items| :: items[i].Str? && IsCitation(items[i].s)
  }

  predicate ValidStatus(v: Value) {
    v == Str("verified") || v == Str("wrong")
  }

  function CitationsOf(entry: Value): Value {
    entry.Get("citations", List([]))
  }

  /** The checks of one entry, in the program's order. */
  function CheckVerdict(entry: Value): Check {
    var id, status, citations := IdOf(entry), entry.Get("status", Null), CitationsOf(entry);
    if !status.Hashable() then Raises
    else if !ValidStatus(status) then Bad(InvalidStatus(id))
    else if !NonBlankText(entry.Get("claim", Str(""))) then Bad(MissingText(id))
    else if !citations.List? || citations.items == [] then Bad(MissingCitations(id))
    else if !AllCitations(citations.items) then Bad(MalformedCitation(id))
    else Good
  }

  /** An entry is good exactly if it gives one of the two verdicts, a claim that is not blank, and at least
      one citation, each naming a function, an address or a tool result on one line. */
  lemma GoodVerdictMeans(entry: Value)
    ensures CheckVerdict(entry) == Good
       <==> && entry.Get("status", Null) in {Str("verified"), Str("wrong")}
            && entry.Get("claim", Null).Str? && !Blank(entry.Get("claim", Null).s)
            && exists items: seq<Value> :: && items != [] && entry.Get("citations", Null) == List(items)
                               && forall i | 0 <= i < |items| :: items[i].Str? && IsCitation(items[i].s)
  {
    hide IsCitation, Strip, Blank;
    var claim, citations := entry.Get("claim", Str("")), entry.Get("citations", List([]));
    if claim.Str? { StripBlank(claim.s); }
    StripBlank("");
    assert Blank("") by { NothingIsBlank(); }
    if citations.List? && AllCitations(citations.items) {
      assert forall i | 0 <= i < |citations.items| :: citations.items[i].Str? && IsCitation(citations.items[i].s);
    }
  }

  lemma NothingIsBlank()
    ensures Blank("")
  {
  }

  function TextOf(v: Value): string {
    if v.Str? then v.s else ""
  }

  function TextsOf(v: Value): seq<string> {
    if v.List? then seq(|v.items|, i requires 0 <= i < |v.items| => TextOf(v.items[i])) else []
  }

  function VerdictOf(entry: Value): Verdict {
    Verdict(TextOf(entry.Get("status", Null)), Strip(TextOf(entry.Get("claim", Null))), TextsOf(CitationsOf(entry)))
  }

  // ---------------------------------------------------------------- one reply

  function VerdictsOf(accepted: map<string, Value>): map<string, Verdict> {
    map id | id in accepted :: VerdictOf(accepted[id])
  }

  /** The first flaw is reported; with none, missing ids are. */
  function Conclude(expected: set<string>, scan: Option<Scan>): Parse {
    if scan.None? then TypeError
    else
      var s := scan.value;
      var missing := expected - s.accepted.Keys;
      Parse(VerdictsOf(s.accepted), missing,
            if s.flaws != [] then Some(s.flaws[0]) else if missing != {} then Some(MissingIds) else None)
  }

  /** Finds the reply's object: the whole text, or what its braces enclose. */
  function Decoded(decode: Decoder, raw: string): Option<Value> {
    var whole := decode(raw);
    if whole.Some? then whole
    else
      var part := BracedPart(raw);
      if part.None? then None else decode(part.value)
  }

  function ParsedReply(decode: Decoder, raw: string, expected: set<string>): Parse {
    if Strip(raw) == "" then Parse(map[], expected, Some(EmptyResponse))
    else
      var parsed := Decoded(decode, raw);
      if parsed.None? then Parse(map[], expected, Some(InvalidJson))
      else if !parsed.value.Object? || !parsed.value.Get("verdicts", Null).List?
      then Parse(map[], expected, Some(MissingList))
      else Conclude(expected, ScanAll(CheckVerdict, expected, parsed.value.Get("verdicts", Null).items))
  }

  method ParseVerifierResponse(decode: Decoder, raw: string, expected: set<string>) returns (p: Parse)
    ensures p == ParsedReply(decode, raw, expected)
  {
    hide Step, CheckVerdict, Decoded, Strip;
    StripBlank(raw);
    if raw == "" || Strip(raw) == "" { return Parse(map[], expected, Some(EmptyResponse)); }
    var parsed := Decoded(decode, raw);
    if parsed.None? { return Parse(map[], expected, Some(InvalidJson)); }
    if !parsed.value.Object? || !parsed.value.Get("verdicts", Null).List? {
      return Parse(map[], expected, Some(MissingList));
    }
    var items := parsed.value.Get("verdicts", Null).items;
    var s := START;
    var i := 0;
    while i < |items|
      invariant i <= |items| && ScanAll(CheckVerdict, expected, items[..i]) == Some(s)
    {
      assert items[..i + 1][..i] == items[..i];
      var next := Step(CheckVerdict, expected, s, items[i]);
      if next.None? {
        RaisedStays(CheckVerdict, expected, items, i + 1);
        return TypeError;
      }
      s := next.value;
      i := i + 1;
    }
    assert items[..i] == items;
    p := Conclude(expected, Some(s));
  }

  /** The entries of a reply, when it can be read at all. */
  predicate Reads(decode: Decoder, raw: string, items: seq<Value>) {
    Strip(raw) != "" && Decoded(decode, raw).Some? && Decoded(decode, raw).value.Get("verdicts", Null) == List(items)
  }

  predicate NoError(p: Parse) {
    p.Parse? && p.error == None
  }

  /** The parser reports no error exactly when the entries are a permutation of the expected ids, each
      valid; then every id has a verdict, and none is unresolved. */
  lemma NoErrorIff(decode: Decoder, raw: string, expected: set<string>)
    ensures NoError(ParsedReply(decode, raw, expected))
       <==> exists items :: Reads(decode, raw, items) && Complete(CheckVerdict, expected, items)
    ensures NoError(ParsedReply(decode, raw, expected)) ==>
              ParsedReply(decode, raw, expected).verdicts.Keys == expected
                  && ParsedReply(decode, raw, expected).unresolved == {}
  {
    hide ScanAll, Complete, Strip, Decoded, BracedPart;
    var parsed := Decoded(decode, raw);
    if Strip(raw) != "" && parsed.Some? && parsed.value.Get("verdicts", Null).List? {
      var items := parsed.value.Get("verdicts", Null).items;
      NoErrorMeansComplete(CheckVerdict, expected, items);
      assert Reads(decode, raw, items);
    }
  }

  /** The parser raises exactly on a readable reply in which the first object to carry some expected id
      has a list or an object as its status. */
  lemma TypeErrorIff(decode: Decoder, raw: string, expected: set<string>)
    ensures ParsedReply(decode, raw, expected) == TypeError
       <==> exists items: seq<Value>, i: nat | i < |items| ::
              && Reads(decode, raw, items) && First(expected, items, i)
              && (items[i].Get("status", Null).List? || items[i].Get("status", Null).Object?)
  {
    hide ScanAll, First, Strip, Decoded, IdOf;
    var parsed := Decoded(decode, raw);
    if Strip(raw) != "" && parsed.Some? && parsed.value.Get("verdicts", Null).List? {
      var items := parsed.value.Get("verdicts", Null).items;
      RaisesIff(CheckVerdict, expected, items);
      if ParsedReply(decode, raw, expected) == TypeError {
        var i: nat :| i < |items| && First(expected, items, i) && CheckVerdict(items[i]) == Raises;
        assert Reads(decode, raw, items);
      }
    }
  }

  /** Each verdict is what the entry naming its id says. */
  lemma VerdictsAreOwn(decode: Decoder, raw: string, expected: set<string>, items: seq<Value>, i: nat)
    requires Reads(decode, raw, items) && Complete(CheckVerdict, expected, items) && i < |items|
    ensures var p := ParsedReply(decode, raw, expected);
            p.Parse? && IdOf(items[i]) in p.verdicts && p.verdicts[IdOf(items[i])] == VerdictOf(items[i])
  {
    hide ScanAll, Strip, Decoded, VerdictOf, ValidSoFar;
    AcceptedIsOwn(CheckVerdict, expected, items, i);
  }

  // ---------------------------------------------------------------- the attempt loop

  /** What happens in an attempt: the user cancels, no verifier can be built, it fails, or it answers. */
  datatype Attempt = UserCancelled | FactoryFailed | RunnerFailed(message: string) | Answered(raw: string)

  datatype Outcome =
    | ValueError
    | CancellationError
    | RaisedTypeError
    | Result(passed: bool, verdicts: map<string, Verdict>, attempts: nat)

  predicate Accepts(decode: Decoder, ids: set<string>, a: Attempt) {
    a.Answered? && NoError(ParsedReply(decode, a.raw, ids))
  }

  predicate RaisesOn(decode: Decoder, ids: set<string>, a: Attempt) {
    a.Answered? && ParsedReply(decode, a.raw, ids) == TypeError
  }

  /** The attempt fails in a way that another may follow. */
  predicate Retries(decode: Decoder, ids: set<string>, a: Attempt) {
    || a.RunnerFailed?
    || (a.Answered? && var p := ParsedReply(decode, a.raw, ids); p.Parse? && p.error.Some?)
  }

  /** The k-th attempt is the first that does not merely call for another. */
  ghost predicate Decides(decode: Decoder, ids: set<string>, world: nat -> Attempt, k: nat) {
    k >= 1 && !Retries(decode, ids, world(k)) && forall j: nat | 1 <= j < k :: Retries(decode, ids, world(j))
  }

  method VerifyHypotheses(decode: Decoder, hypotheses: seq<string>, maxAttempts: int, world: nat -> Attempt)
    returns (r: Outcome)
    ensures maxAttempts < 1 <==> r == ValueError
    ensures maxAttempts >= 1 && hypotheses == [] ==> r == Result(true, map[], 0)
    ensures maxAttempts >= 1 && hypotheses != [] ==>
              var ids := set h | h in hypotheses;
              (r.Result? && r.passed <==>
                exists k: nat | k <= maxAttempts :: Decides(decode, ids, world, k) && Accepts(decode, ids, world(k)))
    ensures r.Result? && r.passed && hypotheses != [] ==>
              var ids := set h | h in hypotheses;
              && Decides(decode, ids, world, r.attempts) && Accepts(decode, ids, world(r.attempts))
              && r.verdicts == ParsedReply(decode, world(r.attempts).raw, ids).verdicts && r.verdicts.Keys == ids
    ensures r.Result? && !r.passed ==> r.verdicts == map[]
    ensures maxAttempts >= 1 && hypotheses != [] ==>
              var ids := set h | h in hypotheses;
              && (r == RaisedTypeError <==>
                   exists k: nat | k <= maxAttempts ::
                       Decides(decode, ids, world, k) && RaisesOn(decode, ids, world(k)))
              && (r == CancellationError <==>
                   exists k: nat | k <= maxAttempts :: Decides(decode, ids, world, k) && world(k) == UserCancelled)
  {
    hide ParsedReply;
    if maxAttempts < 1 { return ValueError; }
    if hypotheses == [] { return Result(true, map[], 0); }
    var ids := set h | h in hypotheses;
    var attempt := 1;
    while attempt <= maxAttempts
      invariant 1 <= attempt <= maxAttempts + 1
      invariant forall j: nat | 1 <= j < attempt :: Retries(decode, ids, world(j))
    {
      match world(attempt) {
        case UserCancelled =>
          OnlyOneDecides(decode, ids, world, attempt);
          return CancellationError;
        case FactoryFailed =>
          OnlyOneDecides(decode, ids, world, attempt);
          return Result(false, map[], attempt);
        case RunnerFailed(_) =>
        case Answered(raw) =>
          var p := ParseVerifierResponse(decode, raw, ids);
          if p == TypeError {
            OnlyOneDecides(decode, ids, world, attempt);
            return RaisedTypeError;
          }
          if p.error == None {
            NoErrorIff(decode, raw, ids);
            assert Decides(decode, ids, world, attempt);
            if |p.verdicts| == |ids| {
              return Result(true, p.verdicts, attempt);
            }
          }
      }
      attempt := attempt + 1;
    }
    r := Result(false, map[], maxAttempts);
  }

  lemma OnlyOneDecides(decode: Decoder, ids: set<string>, world: nat -> Attempt, k: nat)
    requires k >= 1 && forall j: nat | 1 <= j < k :: Retries(decode, ids, world(j))
    requires !Retries(decode, ids, world(k))
    ensures forall m: nat :: Decides(decode, ids, world, m) ==> m == k
  {
    hide Retries;
  }

  /** So one entry with such a status is enough. */
  lemma UnhashableStatusRaises(decode: Decoder, raw: string, id: string, bad: Value)
    requires id != "" && !bad.Hashable() && Reads(decode, raw, [Object(map["id" := Str(id), "status" := bad])])
    ensures ParsedReply(decode, raw, {id}) == TypeError
  {
    hide ParsedReply, Reads;
    TypeErrorIff(decode, raw, {id});
    var items := [Object(map["id" := Str(id), "status" := bad])];
    assert First({id}, items, 0);
    assert items[0].Get("status", Null) == bad;
  }
}
