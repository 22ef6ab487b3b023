/** Review of findings before they are stored: a reviewer judges all of them, a corrector rewrites the
    ones that failed, and only contents that one reviewer cycle passed as a whole are ever returned as
    passed. */
module Review {
  import opened Wrappers
  import opened Text
  import opened Json
  import opened Batches

  // ---------------------------------------------------------------- one reply

  /** The first integer too large to become a floating-point number. */
  const FLOAT_INT_LIMIT: int :=
    0xFFFFFFFFFFFFFC00000000000000000000000000000000000000000000000000000000000000000000000000000000000000000000000000000000000000000000000000000000000000000000000000000000000000000000000000000000000000000000000000000000000000000000000000000000000000000000000000

  /** Truth values are numbers too. */
  predicate IsNumber(v: Value) {
    v.Int? || v.Bool? || v.Float? || v.NotFinite?
  }

  predicate InUnitRange(v: Value) {
    match v
    case Int(n) => 0 <= n <= 1
    case Bool(_) => true
    case Float(r) => 0.0 <= r <= 1.0
    case _ => false
  }

  function NumberOf(v: Value): real {
    match v
    case Int(n) => n as real
    case Bool(b) => if b then 1.0 else 0.0
    case Float(r) => r
    case _ => 0.0
  }

  /** The checks of one finding, in the program's order. */
  function CheckFinding(entry: Value): Check {
    var id, status, confidence := IdOf(entry), entry.Get("status", Null), entry.Get("confidence", Float(0.0));
    if status != Str("pass") && status != Str("fail") then Bad(InvalidStatus(id))
    else if !NonBlankText(entry.Get("evidence", Str(""))) then Bad(MissingText(id))
    else if confidence.Int? && !(-FLOAT_INT_LIMIT < confidence.n < FLOAT_INT_LIMIT) then Raises
    else if !IsNumber(confidence) || !InUnitRange(confidence) then Bad(ConfidenceOutOfRange(id))
    else if status == Str("fail") && !NonBlankText(entry.Get("corrected_content", Str("")))
    then Bad(MissingCorrection(id))
    else Good
  }

  /** A finding is good exactly if it says pass or fail, has evidence, a number from 0 to 1 as confidence
      (0 if absent), and a corrected content when it says fail. */
  lemma GoodFindingMeans(entry: Value)
    ensures var confidence := entry.Get("confidence", Int(0));
            CheckFinding(entry) == Good
            <==> && entry.Get("status", Null) in {Str("pass"), Str("fail")}
                 && NonBlankText(entry.Get("evidence", Null))
                 && IsNumber(confidence) && confidence != NotFinite && 0.0 <= NumberOf(confidence) <= 1.0
                 && (entry.Get("status", Null) == Str("fail") ==> NonBlankText(entry.Get("corrected_content", Null)))
  {
    hide Strip;
    assert Strip("") == "" by { StripBlank(""); }
  }

  /** What the parser returns; a huge whole number as confidence makes it raise instead. */
  datatype Parse = Parse(findings: map<string, Value>, error: Option<Flaw>) | OverflowError

  const MISSING_FINDING :=
    Object(map["status" := Str("fail"), "evidence" := Str("missing"), "corrected_content" := Str("")])

  /** The last flaw is reported; with none, missing ids are. Missing ids count as failed. */
  function Conclude(expected: set<string>, scan: Option<Scan>): Parse {
    if scan.None? then OverflowError
    else
      var s := scan.value;
      var missing := expected - s.accepted.Keys;
      Parse(s.accepted + (map id | id in missing :: MISSING_FINDING),
            if s.flaws != [] then Some(s.flaws[|s.flaws| - 1]) else if missing != {} then Some(MissingIds) else None)
  }

  /** The object between the outermost braces, or else the trimmed text. */
  function Extracted(decode: Decoder, raw: string): Option<Value> {
    if raw == "" then None
    else
      var part := BracedPart(raw);
      var parsed := decode(if part.Some? then part.value else Strip(raw));
      if parsed.Some? && parsed.value.Object? then parsed else None
  }

  function ParsedReply(decode: Decoder, raw: string, expected: set<string>): Parse {
    var parsed := Extracted(decode, raw);
    if parsed.None? then Parse(map[], Some(InvalidJson))
    else if !parsed.value.Get("findings", Null).List? then Parse(map[], Some(MissingList))
    else Conclude(expected, ScanAll(CheckFinding, expected, parsed.value.Get("findings", Null).items))
  }

  method ParseReviewResponse(decode: Decoder, raw: string, expected: set<string>) returns (p: Parse)
    ensures p == ParsedReply(decode, raw, expected)
  {
    hide Step, CheckFinding, Extracted;
    var parsed := Extracted(decode, raw);
    if parsed.None? { return Parse(map[], Some(InvalidJson)); }
    if !parsed.value.Get("findings", Null).List? { return Parse(map[], Some(MissingList)); }
    var items := parsed.value.Get("findings", Null).items;
    var s := START;
    var i := 0;
    while i < |items|
      invariant i <= |items| && ScanAll(CheckFinding, expected, items[..i]) == Some(s)
    {
      assert items[..i + 1][..i] == items[..i];
      var next := Step(CheckFinding, expected, s, items[i]);
      if next.None? {
        RaisedStays(CheckFinding, expected, items, i + 1);
        return OverflowError;
      }
      s := next.value;
      i := i + 1;
    }
    assert items[..i] == items;
    p := Conclude(expected, Some(s));
  }

  predicate Reads(decode: Decoder, raw: string, items: seq<Value>) {
    Extracted(decode, raw).Some? && Extracted(decode, raw).value.Get("findings", Null) == List(items)
  }

  predicate NoError(p: Parse) {
    p.Parse? && p.error == None
  }

  /** No error exactly when the findings are a permutation of the expected ids, each valid; then there is
      a finding for every id. */
  lemma NoErrorIff(decode: Decoder, raw: string, expected: set<string>)
    ensures NoError(ParsedReply(decode, raw, expected))
       <==> exists items :: Reads(decode, raw, items) && Complete(CheckFinding, expected, items)
    ensures NoError(ParsedReply(decode, raw, expected)) ==> ParsedReply(decode, raw, expected).findings.Keys == expected
  {
    hide ScanAll, Complete, Extracted;
    var parsed := Extracted(decode, raw);
    if parsed.Some? && parsed.value.Get("findings", Null).List? {
      var items := parsed.value.Get("findings", Null).items;
      NoErrorMeansComplete(CheckFinding, expected, items);
      assert Reads(decode, raw, items);
    }
  }

  /** The finding says pass or fail, has evidence, and a whole number beyond the floating-point range as
      its confidence. */
  predicate Overflows(entry: Value) {
    var confidence := entry.Get("confidence", Null);
    && entry.Get("status", Null) in {Str("pass"), Str("fail")} && NonBlankText(entry.Get("evidence", Null))
    && confidence.Int? && (confidence.n >= FLOAT_INT_LIMIT || confidence.n <= -FLOAT_INT_LIMIT)
  }

  lemma OverflowsMeans(entry: Value)
    ensures CheckFinding(entry) == Raises <==> Overflows(entry)
  {
    hide Strip, IdOf;
    assert Strip("") == "" by { StripBlank(""); }
  }

  /** The parser raises exactly on a readable reply in which the first object to carry some expected id
      overflows. */
  lemma OverflowErrorIff(decode: Decoder, raw: string, expected: set<string>)
    ensures ParsedReply(decode, raw, expected) == OverflowError
       <==> exists items: seq<Value>, i: nat | i < |items| ::
              Reads(decode, raw, items) && First(expected, items, i) && Overflows(items[i])
  {
    hide ScanAll, First, Extracted, IdOf, CheckFinding, Overflows;
    forall entry ensures CheckFinding(entry) == Raises <==> Overflows(entry) { OverflowsMeans(entry); }
    var parsed := Extracted(decode, raw);
    if parsed.Some? && parsed.value.Get("findings", Null).List? {
      var items := parsed.value.Get("findings", Null).items;
      RaisesIff(CheckFinding, expected, items);
      if ParsedReply(decode, raw, expected) == OverflowError {
        var i: nat :| i < |items| && First(expected, items, i) && CheckFinding(items[i]) == Raises;
        assert Reads(decode, raw, items);
      }
    }
  }

  function StatusIn(p: Parse, id: string): Value {
    if p.Parse? && id in p.findings then p.findings[id].Get("status", Null) else Null
  }

  /** Every expected finding was passed by this reply, and nothing was wrong with it. */
  predicate AllPass(decode: Decoder, raw: string, ids: set<string>) {
    var p := ParsedReply(decode, raw, ids);
    NoError(p) && forall id | id in ids :: StatusIn(p, id) == Str("pass")
  }

  /** So a passing reply holds one valid entry per id, and each says pass. */
  lemma AllPassMeans(decode: Decoder, raw: string, ids: set<string>, items: seq<Value>, i: nat)
    requires AllPass(decode, raw, ids) && Reads(decode, raw, items)
    ensures Complete(CheckFinding, ids, items)
    ensures i < |items| ==> items[i].Get("status", Null) == Str("pass")
  {
    hide ScanAll, Extracted, ValidSoFar, CheckFinding;
    NoErrorMeansComplete(CheckFinding, ids, items);
    if i < |items| {
      AcceptedIsOwn(CheckFinding, ids, items, i);
      assert IdOf(items[i]) in ids by { IdIsExpected(ids, items, i); }
      assert StatusIn(ParsedReply(decode, raw, ids), IdOf(items[i])) == Str("pass");
    }
  }

  lemma IdIsExpected(ids: set<string>, items: seq<Value>, i: nat)
    requires ValidSoFar(CheckFinding, ids, items) && i < |items|
    ensures IdOf(items[i]) in ids
  {
    hide CheckFinding;
    assert ValidEntry(CheckFinding, ids, items[i]);
  }

  // ---------------------------------------------------------------- records in memory

  datatype Record = Record(id: string, title: Value, content: string, confidence: real)

  class Memory {
    const id: string
    var title: Value
    var content: string
    var confidence: real

    constructor (r: Record)
      ensures Snapshot() == r
    {
      id, title, content, confidence := r.id, r.title, r.content, r.confidence;
    }

    function Snapshot(): Record
      reads this
    {
      Record(id, title, content, confidence)
    }

    /** The title is taken as it comes, whatever JSON it is; an empty one is not taken. */
    method Correct(entry: Value)
      modifies this
      ensures Snapshot() == Corrected(old(Snapshot()), entry)
    {
      var newTitle, newContent := entry.Get("corrected_title", Null), entry.Get("corrected_content", Null);
      if newTitle.Truthy() { title := newTitle; }
      if newContent.Str? && newContent.s != "" { content := newContent.s; }
      var c := entry.Get("confidence", Float(confidence));
      if IsNumber(c) { confidence := NumberOf(c); }
    }
  }

  function Corrected(r: Record, entry: Value): Record {
    var newTitle, newContent := entry.Get("corrected_title", Null), entry.Get("corrected_content", Null);
    var c := entry.Get("confidence", Float(r.confidence));
    Record(r.id,
           if newTitle.Truthy() then newTitle else r.title,
           if newContent.Str? && newContent.s != "" then newContent.s else r.content,
           if IsNumber(c) then NumberOf(c) else r.confidence)
  }

  function Snapshots(memories: seq<Memory>): (rs: seq<Record>)
    reads memories
    ensures |rs| == |memories|
    ensures forall i | 0 <= i < |memories| :: rs[i] == memories[i].Snapshot()
  {
    if |memories| == 0 then []
    else Snapshots(memories[..|memories| - 1]) + [memories[|memories| - 1].Snapshot()]
  }

  ghost predicate DistinctObjects(memories: seq<Memory>) {
    forall i, j | 0 <= i < j < |memories| :: memories[i] != memories[j]
  }

  function IdSet(rs: seq<Record>): set<string> {
    set r | r in rs :: r.id
  }

  ghost predicate SameIds(rs: seq<Record>, ts: seq<Record>) {
    |rs| == |ts| && forall i | 0 <= i < |rs| :: rs[i].id == ts[i].id
  }

  /** The copies the review works on; the caller's records are never touched. */
  method CopyAll(memories: seq<Memory>) returns (copies: seq<Memory>)
    ensures |copies| == |memories| && DistinctObjects(copies) && fresh(copies)
    ensures Snapshots(copies) == Snapshots(memories)
  {
    copies := [];
    var i := 0;
    while i < |memories|
      invariant i <= |memories| && |copies| == i && DistinctObjects(copies)
      invariant forall k | 0 <= k < i :: fresh(copies[k]) && copies[k].Snapshot() == memories[k].Snapshot()
    {
      var m := new Memory(memories[i].Snapshot());
      copies := copies + [m];
      i := i + 1;
    }
  }

  // ---------------------------------------------------------------- correction

  /** The entry that rewrites this record, if the corrector failed it again with a correction. */
  predicate Rewrites(p: Parse, id: string) {
    StatusIn(p, id) == Str("fail")
  }

  /** Records are looked up by id: the first one wins. */
  function FirstWith(memories: seq<Memory>, id: string): (i: nat)
    ensures i <= |memories| && (i < |memories| ==> memories[i].id == id)
    ensures forall k | 0 <= k < i :: memories[k].id != id
  {
    if |memories| == 0 || memories[0].id == id then 0 else 1 + FirstWith(memories[1..], id)
  }

  ghost predicate HasId(memories: seq<Memory>, id: string) {
    exists k | 0 <= k < |memories| :: memories[k].id == id
  }

  ghost predicate AllKnown(failed: seq<string>, memories: seq<Memory>) {
    forall i | 0 <= i < |failed| :: HasId(memories, failed[i])
  }

  lemma CorrectedTwice(r: Record, entry: Value)
    ensures Corrected(Corrected(r, entry), entry) == Corrected(r, entry)
  {
    hide Value.Truthy;
  }

  /** Exactly the first record of each failed id that the corrector rewrote takes its correction. */
  ghost predicate TakesCorrection(rs: seq<Record>, p: Parse, failed: seq<string>, i: nat)
    requires i < |rs|
  {
    rs[i].id in failed && Rewrites(p, rs[i].id) && forall k | 0 <= k < i :: rs[k].id != rs[i].id
  }

  ghost function AfterCorrection(rs: seq<Record>, p: Parse, failed: seq<string>, i: nat): Record
    requires i < |rs|
  {
    if TakesCorrection(rs, p, failed, i) then Corrected(rs[i], p.findings[rs[i].id]) else rs[i]
  }

  ghost predicate CorrectedSoFar(memories: seq<Memory>, start: seq<Record>, p: Parse, failed: seq<string>)
    reads memories
  {
    |start| == |memories| && forall i: nat | i < |memories| ::
        memories[i].Snapshot() == AfterCorrection(start, p, failed, i)
  }

  method CorrectFailed(p: Parse, failed: seq<string>, memories: seq<Memory>)
    requires DistinctObjects(memories)
    requires AllKnown(failed, memories)
    modifies memories
    ensures CorrectedSoFar(memories, old(Snapshots(memories)), p, failed)
  {
    hide Corrected, Rewrites, AfterCorrection;
    ghost var start := Snapshots(memories);
    NothingCorrected(start, p, failed[..0]);
    var n := 0;
    while n < |failed|
      invariant n <= |failed| && CorrectedSoFar(memories, start, p, failed[..n])
    {
      var id := failed[n];
      assert HasId(memories, failed[n]);
      var t := FirstWith(memories, id);
      ghost var before := Snapshots(memories);
      if Rewrites(p, id) {
        assert p.Parse? && id in p.findings by { RewritesIn(p, id); }
        memories[t].Correct(p.findings[id]);
      }
      forall i: nat | i < |memories| ensures memories[i].Snapshot() == AfterCorrection(start, p, failed[..n + 1], i) {
        assert before[i] == AfterCorrection(start, p, failed[..n], i);
        OneMore(start, p, failed, n, i, t);
        assert i != t ==> memories[i].Snapshot() == before[i];
      }
      n := n + 1;
    }
    assert failed[..n] == failed;
  }

  lemma NothingCorrected(rs: seq<Record>, p: Parse, failed: seq<string>)
    requires failed == []
    ensures forall i: nat | i < |rs| :: AfterCorrection(rs, p, failed, i) == rs[i]
  {
  }

  lemma RewritesIn(p: Parse, id: string)
    requires Rewrites(p, id)
    ensures p.Parse? && id in p.findings
  {
  }

  lemma OneMore(start: seq<Record>, p: Parse, failed: seq<string>, n: nat, i: nat, t: nat)
    requires n < |failed| && i < |start| && t < |start|
    requires start[t].id == failed[n] && forall k | 0 <= k < t :: start[k].id != failed[n]
    ensures i != t || !Rewrites(p, failed[n]) ==>
              AfterCorrection(start, p, failed[..n + 1], i) == AfterCorrection(start, p, failed[..n], i)
    ensures i == t && Rewrites(p, failed[n]) ==>
              AfterCorrection(start, p, failed[..n + 1], i)
                  == Corrected(AfterCorrection(start, p, failed[..n], i), p.findings[failed[n]])
  {
    hide Corrected;
    assert failed[..n + 1] == failed[..n] + [failed[n]];
    if Rewrites(p, failed[n]) { CorrectedTwice(start[t], p.findings[failed[n]]); }
  }

  // ---------------------------------------------------------------- the review cycles

  datatype Turn = UserCancelled | FactoryRaised | RunnerFailed(message: string) | Answered(raw: string)

  /** What the reviewer and the corrector of each cycle do, given the records put before them. */
  datatype World = World(review: (nat, seq<Record>) -> Turn, correct: (nat, seq<Record>) -> Turn)

  datatype Outcome =
    | ValueError
    | CancellationError
    | FactoryError
    | ParserRaised
    | Result(passed: bool, cycles: nat)

  /** The reviewer of this cycle was shown exactly these records, and passed every one. */
  ghost predicate PassedBy(decode: Decoder, world: World, cycle: nat, rs: seq<Record>) {
    var turn := world.review(cycle, rs);
    turn.Answered? && AllPass(decode, turn.raw, IdSet(rs))
  }

  function FailedIds(p: Parse, rs: seq<Record>): (ids: seq<string>)
    ensures forall id | id in ids :: id in IdSet(rs)
  {
    if |rs| == 0 then []
    else
      var before, last := FailedIds(p, rs[..|rs| - 1]), rs[|rs| - 1];
      assert rs == rs[..|rs| - 1] + [last];
      if StatusIn(p, last.id) == Str("fail") then before + [last.id] else before
  }

  lemma {:induction false} NoneFailed(p: Parse, rs: seq<Record>)
    requires FailedIds(p, rs) == []
    ensures forall id | id in IdSet(rs) :: StatusIn(p, id) != Str("fail")
  {
    hide StatusIn;
    if |rs| > 0 {
      NoneFailed(p, rs[..|rs| - 1]);
      assert rs == rs[..|rs| - 1] + [rs[|rs| - 1]];
    }
  }

  lemma PassOrFail(decode: Decoder, raw: string, ids: set<string>)
    requires NoError(ParsedReply(decode, raw, ids))
    ensures var p := ParsedReply(decode, raw, ids);
            forall id | id in ids :: StatusIn(p, id) == Str("pass") || StatusIn(p, id) == Str("fail")
  {
    hide ScanAll, Extracted, CheckFinding;
    NoErrorIff(decode, raw, ids);
    var items := Extracted(decode, raw).value.Get("findings", Null).items;
    AcceptedAreGood(CheckFinding, ids, items);
    var p := ParsedReply(decode, raw, ids);
    forall id | id in ids ensures StatusIn(p, id) == Str("pass") || StatusIn(p, id) == Str("fail") {
      GoodStatus(p.findings[id]);
    }
  }

  lemma GoodStatus(entry: Value)
    ensures CheckFinding(entry) == Good
            ==> entry.Get("status", Null) == Str("pass") || entry.Get("status", Null) == Str("fail")
  {
  }

  lemma CleanReplyPasses(decode: Decoder, raw: string, rs: seq<Record>)
    requires NoError(ParsedReply(decode, raw, IdSet(rs))) && FailedIds(ParsedReply(decode, raw, IdSet(rs)), rs) == []
    ensures AllPass(decode, raw, IdSet(rs))
  {
    hide ParsedReply, StatusIn;
    NoneFailed(ParsedReply(decode, raw, IdSet(rs)), rs);
    PassOrFail(decode, raw, IdSet(rs));
  }

  lemma FailedIdsAreThere(p: Parse, memories: seq<Memory>)
    ensures AllKnown(FailedIds(p, Snapshots(memories)), memories)
  {
    var rs := Snapshots(memories);
    var failed := FailedIds(p, rs);
    forall i | 0 <= i < |failed| ensures HasId(memories, failed[i]) {
      assert failed[i] in IdSet(rs);
      var k :| 0 <= k < |rs| && rs[k].id == failed[i];
      assert memories[k].id == failed[i];
    }
  }

  /** The first record with this id. */
  function FirstIn(rs: seq<Record>, id: string): (i: nat)
    ensures i <= |rs|
  {
    if |rs| == 0 || rs[0].id == id then 0 else 1 + FirstIn(rs[1..], id)
  }

  /** The records whose ids failed, first of each id, as the corrector sees them. */
  function FailedRecords(failed: seq<string>, rs: seq<Record>): seq<Record> {
    if |failed| == 0 then []
    else
      var n := |failed| - 1;
      var i := FirstIn(rs, failed[n]);
      FailedRecords(failed[..n], rs) + if i < |rs| then [rs[i]] else []
  }

  // ---------------------------------------------------------------- what the world does to a cycle

  /** What the reviewer's answer says, if there is one. */
  function Judged(decode: Decoder, world: World, cycle: nat, rs: seq<Record>): Option<Parse> {
    match world.review(cycle, rs)
    case Answered(raw) => Some(ParsedReply(decode, raw, IdSet(rs)))
    case _ => None
  }

  function Failing(decode: Decoder, world: World, cycle: nat, rs: seq<Record>): seq<string> {
    match Judged(decode, world, cycle, rs)
    case Some(p) => if NoError(p) then FailedIds(p, rs) else []
    case None => []
  }

  /** Some records failed, and there is another cycle to put them right for. */
  predicate Corrects(decode: Decoder, world: World, cycle: nat, last: bool, rs: seq<Record>) {
    !last && Failing(decode, world, cycle, rs) != []
  }

  function Corrector(decode: Decoder, world: World, cycle: nat, rs: seq<Record>): Turn {
    world.correct(cycle, FailedRecords(Failing(decode, world, cycle, rs), rs))
  }

  function Rewritten(decode: Decoder, world: World, cycle: nat, rs: seq<Record>): Option<Parse> {
    match Corrector(decode, world, cycle, rs)
    case Answered(raw) => Some(ParsedReply(decode, raw, set id | id in Failing(decode, world, cycle, rs)))
    case _ => None
  }

  /** A reply of this cycle makes the parser raise: the reviewer's, or else the corrector's. */
  predicate RaisesIn(decode: Decoder, world: World, cycle: nat, last: bool, rs: seq<Record>) {
    || Judged(decode, world, cycle, rs) == Some(OverflowError)
    || (Corrects(decode, world, cycle, last, rs) && Rewritten(decode, world, cycle, rs) == Some(OverflowError))
  }

  /** The reviewer, or else the corrector, met this turn of events. */
  predicate Meets(decode: Decoder, world: World, cycle: nat, last: bool, rs: seq<Record>, t: Turn) {
    || world.review(cycle, rs) == t
    || (Corrects(decode, world, cycle, last, rs) && Corrector(decode, world, cycle, rs) == t)
  }

  /** How a cycle ends the review, if it does. */
  ghost function EndOf(decode: Decoder, world: World, cycle: nat, last: bool, rs: seq<Record>): Option<Outcome> {
    if PassedBy(decode, world, cycle, rs) then Some(Result(true, cycle))
    else if RaisesIn(decode, world, cycle, last, rs) then Some(ParserRaised)
    else if Meets(decode, world, cycle, last, rs, UserCancelled) then Some(CancellationError)
    else if Meets(decode, world, cycle, last, rs, FactoryRaised) then Some(FactoryError)
    else None
  }

  /** The records after a cycle: corrected by a corrector's reply without a flaw, and otherwise as they were. */
  ghost function After(decode: Decoder, world: World, cycle: nat, last: bool, rs: seq<Record>): (ts: seq<Record>)
    ensures |ts| == |rs|
  {
    var p := Rewritten(decode, world, cycle, rs);
    if Corrects(decode, world, cycle, last, rs) && p.Some? && NoError(p.value)
    then seq(|rs|, i requires 0 <= i < |rs| => AfterCorrection(rs, p.value, Failing(decode, world, cycle, rs), i))
    else rs
  }

  /** The records that the k-th cycle reviews. */
  ghost function CandidatesAt(decode: Decoder, world: World, maxCycles: int, rs: seq<Record>, k: nat): seq<Record> {
    if k <= 1 then rs
    else After(decode, world, k - 1, k - 1 == maxCycles, CandidatesAt(decode, world, maxCycles, rs, k - 1))
  }

  ghost function EndAt(decode: Decoder, world: World, maxCycles: int, rs: seq<Record>, k: nat): Option<Outcome> {
    EndOf(decode, world, k, k == maxCycles, CandidatesAt(decode, world, maxCycles, rs, k))
  }

  /** The k-th cycle is the first that ends the review. */
  ghost predicate EndsIn(decode: Decoder, world: World, maxCycles: int, rs: seq<Record>, k: nat) {
    && 1 <= k <= maxCycles && EndAt(decode, world, maxCycles, rs, k).Some?
    && forall j: nat | 1 <= j < k :: EndAt(decode, world, maxCycles, rs, j).None?
  }

  /** A cycle passes exactly if the reviewer's reply has no flaw and fails nothing. */
  lemma PassedMeans(decode: Decoder, world: World, cycle: nat, rs: seq<Record>)
    ensures PassedBy(decode, world, cycle, rs)
       <==> && Judged(decode, world, cycle, rs).Some? && NoError(Judged(decode, world, cycle, rs).value)
            && Failing(decode, world, cycle, rs) == []
  {
    hide ParsedReply, StatusIn;
    if world.review(cycle, rs).Answered? {
      var raw := world.review(cycle, rs).raw;
      var p := ParsedReply(decode, raw, IdSet(rs));
      if NoError(p) && FailedIds(p, rs) == [] { CleanReplyPasses(decode, raw, rs); }
      if FailedIds(p, rs) != [] { SomeFailed(p, rs); }
    }
  }

  lemma {:induction false} SomeFailed(p: Parse, rs: seq<Record>)
    requires FailedIds(p, rs) != []
    ensures exists id | id in IdSet(rs) :: StatusIn(p, id) == Str("fail")
  {
    hide StatusIn;
    var last := rs[|rs| - 1];
    assert rs == rs[..|rs| - 1] + [last];
    if StatusIn(p, last.id) == Str("fail") {
      assert last.id in IdSet(rs);
    } else {
      SomeFailed(p, rs[..|rs| - 1]);
      var id :| id in IdSet(rs[..|rs| - 1]) && StatusIn(p, id) == Str("fail");
      assert id in IdSet(rs);
    }
  }

  /** One correction: does nothing unless the corrector answers without a flaw. */
  method RunCorrector(decode: Decoder, world: World, cycle: nat, failed: seq<string>, memories: seq<Memory>)
    returns (stop: Option<Outcome>)
    requires DistinctObjects(memories)
    requires AllKnown(failed, memories)
    modifies memories
    ensures var ids := set id | id in failed;
            var turn := world.correct(cycle, FailedRecords(failed, old(Snapshots(memories))));
            && stop == StopAfter(decode, turn, ids)
            && if turn.Answered? && NoError(ParsedReply(decode, turn.raw, ids))
               then CorrectedSoFar(memories, old(Snapshots(memories)), ParsedReply(decode, turn.raw, ids), failed)
               else Snapshots(memories) == old(Snapshots(memories))
  {
    hide ParsedReply, AfterCorrection;
    match world.correct(cycle, FailedRecords(failed, Snapshots(memories))) {
      case UserCancelled => return Some(CancellationError);
      case FactoryRaised => return Some(FactoryError);
      case RunnerFailed(_) => return None;
      case Answered(raw) =>
        var p := ParseReviewResponse(decode, raw, set id | id in failed);
        if p == OverflowError { return Some(ParserRaised); }
        if p.error.Some? { return None; }
        CorrectFailed(p, failed, memories);
        return None;
    }
  }

  function StopAfter(decode: Decoder, turn: Turn, ids: set<string>): Option<Outcome> {
    match turn
    case UserCancelled => Some(CancellationError)
    case FactoryRaised => Some(FactoryError)
    case RunnerFailed(_) => None
    case Answered(raw) => if ParsedReply(decode, raw, ids) == OverflowError then Some(ParserRaised) else None
  }

  /** One cycle: review, and unless all passed or it is the last, correct what failed. */
  method RunCycle(decode: Decoder, world: World, cycle: nat, last: bool, memories: seq<Memory>)
    returns (stop: Option<Outcome>)
    requires DistinctObjects(memories)
    modifies memories
    ensures stop == EndOf(decode, world, cycle, last, old(Snapshots(memories)))
    ensures Snapshots(memories) == After(decode, world, cycle, last, old(Snapshots(memories)))
  {
    hide ParsedReply, Snapshots, DistinctObjects, IdSet, FailedRecords, AllKnown, PassedBy, CorrectedSoFar;
    var shown := Snapshots(memories);
    PassedMeans(decode, world, cycle, shown);
    match world.review(cycle, shown) {
      case UserCancelled => return Some(CancellationError);
      case FactoryRaised => return Some(FactoryError);
      case RunnerFailed(_) => return None;
      case Answered(raw) =>
        var p := ParseReviewResponse(decode, raw, IdSet(shown));
        if p == OverflowError { return Some(ParserRaised); }
        if p.error.Some? { return None; }
        var failed := FailedIds(p, shown);
        if failed == [] { return Some(Result(true, cycle)); }
        if last { return None; }
        FailedIdsAreThere(p, memories);
        stop := RunCorrector(decode, world, cycle, failed, memories);
        CorrectionIsAfter(decode, world, cycle, shown, memories);
    }
  }

  lemma CorrectionIsAfter(decode: Decoder, world: World, cycle: nat, rs: seq<Record>, memories: seq<Memory>)
    ensures var p, failed := Rewritten(decode, world, cycle, rs), Failing(decode, world, cycle, rs);
            p.Some? && NoError(p.value) && failed != [] && CorrectedSoFar(memories, rs, p.value, failed) ==>
              Snapshots(memories) == After(decode, world, cycle, false, rs)
  {
    hide Rewritten, Failing, AfterCorrection;
  }

  lemma SameIdsReflexive(rs: seq<Record>)
    ensures SameIds(rs, rs)
  {
  }

  lemma SameIdsChain(rs: seq<Record>, ts: seq<Record>, us: seq<Record>)
    requires SameIds(rs, ts) && SameIds(ts, us)
    ensures SameIds(rs, us)
  {
  }

  /** The four ways in which a cycle can end the review exclude each other. */
  lemma EndMeans(decode: Decoder, world: World, cycle: nat, last: bool, rs: seq<Record>)
    ensures var end := EndOf(decode, world, cycle, last, rs);
            && (end == Some(Result(true, cycle)) <==> PassedBy(decode, world, cycle, rs))
            && (end == Some(ParserRaised) <==> RaisesIn(decode, world, cycle, last, rs))
            && (end == Some(CancellationError) <==> Meets(decode, world, cycle, last, rs, UserCancelled))
            && (end == Some(FactoryError) <==> Meets(decode, world, cycle, last, rs, FactoryRaised))
            && (end.Some? ==> end.value != ValueError && (end.value.Result? ==> end.value == Result(true, cycle)))
  {
    hide PassedBy, ParsedReply, Failing, FailedRecords, IdSet;
    PassedMeans(decode, world, cycle, rs);
    if Corrects(decode, world, cycle, last, rs) { CorrectsAfterReply(decode, world, cycle, rs); }
  }

  /** `r` is how the first cycle that ends the review ends it, or the failure of all. */
  ghost predicate IsOutcome(decode: Decoder, world: World, maxCycles: int, rs: seq<Record>, r: Outcome) {
    || (exists k: nat :: EndsIn(decode, world, maxCycles, rs, k) && Some(r) == EndAt(decode, world, maxCycles, rs, k))
    || (maxCycles >= 1 && r == Result(false, maxCycles) && forall k: nat :: !EndsIn(decode, world, maxCycles, rs, k))
  }

  /** So the review passes exactly if the first cycle to end it has its reviewer pass all the records it was shown,
      and ends with the parser raising exactly if a reply of that cycle makes it raise. */
  lemma OutcomeMeans(decode: Decoder, world: World, maxCycles: int, rs: seq<Record>, r: Outcome)
    requires maxCycles >= 1 && IsOutcome(decode, world, maxCycles, rs, r)
    ensures r.Result? && r.passed
       <==> exists k: nat :: && EndsIn(decode, world, maxCycles, rs, k)
                             && PassedBy(decode, world, k, CandidatesAt(decode, world, maxCycles, rs, k))
    ensures r == ParserRaised
       <==> exists k: nat :: && EndsIn(decode, world, maxCycles, rs, k)
                             && RaisesIn(decode, world, k, k == maxCycles,
                                         CandidatesAt(decode, world, maxCycles, rs, k))
    ensures r == Result(false, maxCycles) <==> forall k: nat :: !EndsIn(decode, world, maxCycles, rs, k)
  {
    hide PassedBy, RaisesIn, Meets, EndOf, CandidatesAt, EndsIn;
    forall k: nat { EndMeans(decode, world, k, k == maxCycles, CandidatesAt(decode, world, maxCycles, rs, k)); }
    forall j: nat, k: nat | EndsIn(decode, world, maxCycles, rs, j) && EndsIn(decode, world, maxCycles, rs, k)
      ensures j == k
    {
      OneEnd(decode, world, maxCycles, rs, j, k);
    }
  }

  lemma OneEnd(decode: Decoder, world: World, maxCycles: int, rs: seq<Record>, j: nat, k: nat)
    requires EndsIn(decode, world, maxCycles, rs, j) && EndsIn(decode, world, maxCycles, rs, k)
    ensures j == k
  {
    hide EndAt;
  }

  /** A cycle that ends the review changes no record, and passes only as the reviewer says. */
  lemma EndedBy(decode: Decoder, world: World, cycle: nat, last: bool, rs: seq<Record>)
    requires EndOf(decode, world, cycle, last, rs).Some?
    ensures After(decode, world, cycle, last, rs) == rs
    ensures var r := EndOf(decode, world, cycle, last, rs).value;
            && r != ValueError && (r.Result? ==> r == Result(true, cycle) && PassedBy(decode, world, cycle, rs))
  {
    hide PassedBy, AfterCorrection, ParsedReply, Failing;
    PassedMeans(decode, world, cycle, rs);
    if Corrects(decode, world, cycle, last, rs) { CorrectsAfterReply(decode, world, cycle, rs); }
  }

  lemma CorrectsAfterReply(decode: Decoder, world: World, cycle: nat, rs: seq<Record>)
    requires Failing(decode, world, cycle, rs) != []
    ensures world.review(cycle, rs).Answered? && Judged(decode, world, cycle, rs).Some?
    ensures NoError(Judged(decode, world, cycle, rs).value)
  {
  }

  lemma OnlyOneEnds(decode: Decoder, world: World, maxCycles: int, rs: seq<Record>, k: nat)
    requires 1 <= k <= maxCycles && EndAt(decode, world, maxCycles, rs, k).Some?
    requires forall j: nat | 1 <= j < k :: EndAt(decode, world, maxCycles, rs, j).None?
    ensures forall m: nat :: EndsIn(decode, world, maxCycles, rs, m) <==> m == k
  {
    hide EndAt;
  }

  lemma LastChangesNothing(decode: Decoder, world: World, maxCycles: int, rs: seq<Record>)
    requires maxCycles >= 1
    ensures CandidatesAt(decode, world, maxCycles, rs, maxCycles + 1)
            == CandidatesAt(decode, world, maxCycles, rs, maxCycles)
  {
  }

  lemma AfterKeepsIds(decode: Decoder, world: World, cycle: nat, last: bool, rs: seq<Record>)
    ensures SameIds(rs, After(decode, world, cycle, last, rs))
  {
    hide Rewritten, Failing, Rewrites;
  }

  /** The review ends as the first cycle that ends it says, and fails if none does. What is returned as passed was,
      with exactly these contents, passed as a whole by that cycle's reviewer; the caller's own records stay as
      they were. */
  method ReviewMemories(decode: Decoder, memories: seq<Memory>, maxCycles: int, world: World)
    returns (r: Outcome, candidates: seq<Memory>)
    ensures maxCycles < 1 <==> r == ValueError
    ensures r != ValueError ==> SameIds(old(Snapshots(memories)), Snapshots(candidates)) && fresh(candidates)
    ensures maxCycles >= 1 && memories == [] ==> r == Result(true, 0)
    ensures r.Result? && r.passed && memories != [] ==>
              1 <= r.cycles <= maxCycles && PassedBy(decode, world, r.cycles, Snapshots(candidates))
    ensures memories != [] && maxCycles >= 1 ==> IsOutcome(decode, world, maxCycles, old(Snapshots(memories)), r)
    ensures r.Result? && memories != [] ==>
              Snapshots(candidates) == CandidatesAt(decode, world, maxCycles, old(Snapshots(memories)), r.cycles)
  {
    hide PassedBy, DistinctObjects, Snapshots, SameIds, EndOf, After;
    ghost var original := Snapshots(memories);
    candidates := [];
    if maxCycles < 1 { return ValueError, []; }
    candidates := CopyAll(memories);
    SameIdsReflexive(original);
    if candidates == [] { return Result(true, 0), candidates; }
    var cycle := 1;
    while cycle <= maxCycles
      invariant 1 <= cycle <= maxCycles + 1
      invariant DistinctObjects(candidates) && fresh(candidates)
      invariant SameIds(original, Snapshots(candidates))
      invariant Snapshots(candidates) == CandidatesAt(decode, world, maxCycles, original, cycle)
      invariant forall j: nat | 1 <= j < cycle :: EndAt(decode, world, maxCycles, original, j).None?
    {
      ghost var before := Snapshots(candidates);
      var stop := RunCycle(decode, world, cycle, cycle == maxCycles, candidates);
      AfterKeepsIds(decode, world, cycle, cycle == maxCycles, before);
      SameIdsChain(original, before, Snapshots(candidates));
      if stop.Some? {
        EndedBy(decode, world, cycle, cycle == maxCycles, before);
        OnlyOneEnds(decode, world, maxCycles, original, cycle);
        assert EndsIn(decode, world, maxCycles, original, cycle);
        return stop.value, candidates;
      }
      cycle := cycle + 1;
    }
    LastChangesNothing(decode, world, maxCycles, original);
    r := Result(false, maxCycles);
  }

  function Huge(id: string, n: int): Value {
    Object(map["id" := Str(id), "status" := Str("pass"), "evidence" := Str("seen"), "confidence" := Int(n)])
  }

  /** So one passing finding with a huge confidence is enough. */
  lemma HugeConfidenceRaises(decode: Decoder, raw: string, id: string, n: int)
    requires id != "" && n >= FLOAT_INT_LIMIT
    requires Reads(decode, raw, [Huge(id, n)])
    ensures ParsedReply(decode, raw, {id}) == OverflowError
  {
    hide ParsedReply, Reads, NonBlankText, FLOAT_INT_LIMIT;
    OverflowErrorIff(decode, raw, {id});
    var items := [Huge(id, n)];
    SeenIsText();
    assert First({id}, items, 0) && Overflows(items[0]);
  }

  lemma SeenIsText()
    ensures NonBlankText(Str("seen"))
  {
    assert LStrip("seen") == "seen" && RStrip("seen") == "seen";
  }
}
