/** Batches of replies that are taken whole or not at all: each entry names an expected id, once, and
    passes a check of its own. */
module Batches {
  import opened Wrappers
  import opened Json

  datatype Flaw =
    | EmptyResponse
    | InvalidJson
    | MissingList
    | NotAnObject
    | MissingId
    | DuplicateId(id: string)
    | UnknownId(id: string)
    | InvalidStatus(id: string)
    | MissingText(id: string)
    | MissingCitations(id: string)
    | MalformedCitation(id: string)
    | ConfidenceOutOfRange(id: string)
    | MissingCorrection(id: string)
    | MissingIds

  /** The check of an entry whose id is expected and new; some entries make the program raise. */
  datatype Check = Raises | Bad(flaw: Flaw) | Good

  type Checker = Value -> Check

  function IdOf(entry: Value): string {
    var id := entry.Get("id", Str(""));
    if id.Str? then id.s else ""
  }

  // ---------------------------------------------------------------- the entry loop

  /** Ids met, entries accepted, and the flaws in the order they were met. */
  datatype Scan = Scan(seen: set<string>, accepted: map<string, Value>, flaws: seq<Flaw>)

  const START := Scan({}, map[], [])

  function Flawed(s: Scan, f: Flaw): Option<Scan> {
    Some(s.(flaws := s.flaws + [f]))
  }

  function Step(check: Checker, expected: set<string>, s: Scan, entry: Value): Option<Scan> {
    var id := IdOf(entry);
    if !entry.Object? then Flawed(s, NotAnObject)
    else if id == "" then Flawed(s, MissingId)
    else if id in s.seen then Flawed(s, DuplicateId(id))
    else if id !in expected then Flawed(s, UnknownId(id))
    else
      var t := s.(seen := s.seen + {id});
      match check(entry)
      case Raises => None
      case Bad(f) => Flawed(t, f)
      case Good => Some(t.(accepted := t.accepted[id := entry]))
  }

  function ScanAll(check: Checker, expected: set<string>, items: seq<Value>): Option<Scan> {
    if |items| == 0 then Some(START)
    else
      var before := ScanAll(check, expected, items[..|items| - 1]);
      if before.None? then None else Step(check, expected, before.value, items[|items| - 1])
  }

  lemma {:induction false} RaisedStays(check: Checker, expected: set<string>, items: seq<Value>, n: nat)
    requires n <= |items| && ScanAll(check, expected, items[..n]).None?
    ensures ScanAll(check, expected, items).None?
    decreases |items|
  {
    hide Step;
    if n == |items| {
      assert items[..n] == items;
    } else {
      var init := items[..|items| - 1];
      assert init[..n] == items[..n];
      RaisedStays(check, expected, init, n);
    }
  }

  // ---------------------------------------------------------------- when a batch raises

  /** The first object to carry its id, which is one of those expected. */
  predicate First(expected: set<string>, items: seq<Value>, i: nat)
    requires i < |items|
  {
    && items[i].Object? && IdOf(items[i]) != "" && IdOf(items[i]) in expected
    && forall j | 0 <= j < i :: items[j].Object? ==> IdOf(items[j]) != IdOf(items[i])
  }

  predicate RaisesAt(check: Checker, expected: set<string>, items: seq<Value>, i: nat)
    requires i < |items|
  {
    First(expected, items, i) && check(items[i]) == Raises
  }

  /** The ids met are the expected ones that some object carries. */
  ghost predicate Met(expected: set<string>, items: seq<Value>, seen: set<string>) {
    && (forall j | 0 <= j < |items| ::
          items[j].Object? && IdOf(items[j]) != "" && IdOf(items[j]) in expected ==> IdOf(items[j]) in seen)
    && (forall id | id in seen :: id != "" && exists j | 0 <= j < |items| :: items[j].Object? && IdOf(items[j]) == id)
  }

  lemma MetGrows(check: Checker, expected: set<string>, items: seq<Value>, s: Scan)
    requires |items| > 0 && Met(expected, items[..|items| - 1], s.seen)
    ensures Step(check, expected, s, items[|items| - 1]).None? <==> RaisesAt(check, expected, items, |items| - 1)
    ensures var t := Step(check, expected, s, items[|items| - 1]);
            t.Some? ==> Met(expected, items, t.value.seen)
  {
    hide IdOf;
    var n := |items| - 1;
    var init := items[..n];
    forall j | 0 <= j < n ensures items[j] == init[j] {}
    var t := Step(check, expected, s, items[n]);
    if t.Some? {
      forall id | id in t.value.seen
        ensures id != "" && exists j | 0 <= j < |items| :: items[j].Object? && IdOf(items[j]) == id
      {
        if id in s.seen {
          var j :| 0 <= j < n && init[j].Object? && IdOf(init[j]) == id;
          assert items[j].Object? && IdOf(items[j]) == id;
        }
      }
    }
  }

  lemma {:induction false} ScanMeets(check: Checker, expected: set<string>, items: seq<Value>)
    ensures ScanAll(check, expected, items).None?
            <==> exists i: nat | i < |items| :: RaisesAt(check, expected, items, i)
    ensures var s := ScanAll(check, expected, items);
            s.Some? ==> Met(expected, items, s.value.seen)
  {
    hide Met, RaisesAt, Step, IdOf;
    if |items| == 0 {
      NothingMet(expected, items);
    } else {
      var n := |items| - 1;
      var init := items[..n];
      ScanMeets(check, expected, init);
      forall i: nat | i < n ensures RaisesAt(check, expected, init, i) == RaisesAt(check, expected, items, i) {
        SameBefore(check, expected, items, n, i);
      }
      var before := ScanAll(check, expected, init);
      if before.Some? { MetGrows(check, expected, items, before.value); }
    }
  }

  lemma NothingMet(expected: set<string>, items: seq<Value>)
    requires |items| == 0
    ensures Met(expected, items, {})
  {
  }

  lemma SameBefore(check: Checker, expected: set<string>, items: seq<Value>, n: nat, i: nat)
    requires i < n <= |items|
    ensures RaisesAt(check, expected, items[..n], i) == RaisesAt(check, expected, items, i)
  {
    hide IdOf;
  }

  /** A batch makes the program raise exactly if the first object to carry some expected id does. */
  lemma RaisesIff(check: Checker, expected: set<string>, items: seq<Value>)
    ensures ScanAll(check, expected, items).None?
       <==> exists i: nat | i < |items| :: First(expected, items, i) && check(items[i]) == Raises
  {
    hide ScanAll, First;
    ScanMeets(check, expected, items);
    if exists i: nat | i < |items| :: RaisesAt(check, expected, items, i) {
      var i: nat :| i < |items| && RaisesAt(check, expected, items, i);
      assert First(expected, items, i);
    }
    if exists i: nat | i < |items| :: First(expected, items, i) && check(items[i]) == Raises {
      var i: nat :| i < |items| && First(expected, items, i) && check(items[i]) == Raises;
      assert RaisesAt(check, expected, items, i);
    }
  }

  // ---------------------------------------------------------------- all or nothing

  ghost predicate ValidEntry(check: Checker, expected: set<string>, entry: Value) {
    entry.Object? && IdOf(entry) != "" && IdOf(entry) in expected && check(entry) == Good
  }

  ghost predicate ValidSoFar(check: Checker, expected: set<string>, items: seq<Value>) {
    && (forall i | 0 <= i < |items| :: ValidEntry(check, expected, items[i]))
    && (forall i, j | 0 <= i < j < |items| :: IdOf(items[i]) != IdOf(items[j]))
  }

  /** The entries are a permutation of the expected ids, each valid. */
  ghost predicate Complete(check: Checker, expected: set<string>, items: seq<Value>) {
    ValidSoFar(check, expected, items) && |items| == |expected|
  }

  ghost predicate IdsAre(items: seq<Value>, ids: set<string>) {
    && (forall i | 0 <= i < |items| :: IdOf(items[i]) in ids)
    && (forall id | id in ids :: exists i | 0 <= i < |items| :: IdOf(items[i]) == id)
  }

  predicate Clean(s: Option<Scan>) {
    s.Some? && s.value.flaws == []
  }

  /** Without a flaw so far, exactly the entries read have been accepted. */
  lemma {:induction false} ScanIsClean(check: Checker, expected: set<string>, items: seq<Value>)
    ensures Clean(ScanAll(check, expected, items)) <==> ValidSoFar(check, expected, items)
    ensures Clean(ScanAll(check, expected, items)) ==>
              var s := ScanAll(check, expected, items).value;
              && s.accepted.Keys == s.seen && |s.seen| == |items| && s.seen <= expected && IdsAre(items, s.seen)
  {
    hide IdsAre, ValidSoFar, ValidEntry, Step, IdOf;
    if |items| == 0 {
      NothingYet(check, expected, items);
    } else {
      var n := |items| - 1;
      var init, entry := items[..n], items[n];
      ScanIsClean(check, expected, init);
      var before := ScanAll(check, expected, init);
      if Clean(before) {
        ValidStep(check, expected, items, before.value.seen);
        StepIsClean(check, expected, before.value, entry);
        IdsGrow(init, entry, before.value.seen);
        assert items == init + [entry];
      } else {
        if before.Some? { FlawsStay(check, expected, before.value, entry); }
        if ValidSoFar(check, expected, items) { ValidInit(check, expected, items); }
      }
    }
  }

  lemma FlawsStay(check: Checker, expected: set<string>, s: Scan, entry: Value)
    requires s.flaws != []
    ensures !Clean(Step(check, expected, s, entry))
  {
    hide IdOf;
  }

  lemma NothingYet(check: Checker, expected: set<string>, items: seq<Value>)
    requires |items| == 0
    ensures ValidSoFar(check, expected, items) && IdsAre(items, {})
  {
  }

  lemma IdsGrow(init: seq<Value>, entry: Value, ids: set<string>)
    requires IdsAre(init, ids)
    ensures IdsAre(init + [entry], ids + {IdOf(entry)})
  {
    hide IdOf;
    var items := init + [entry];
    forall id | id in ids + {IdOf(entry)} ensures exists i | 0 <= i < |items| :: IdOf(items[i]) == id {
      if id in ids {
        var i :| 0 <= i < |init| && IdOf(init[i]) == id;
        assert IdOf(items[i]) == id;
      } else {
        assert IdOf(items[|init|]) == id;
      }
    }
  }

  lemma ValidStep(check: Checker, expected: set<string>, items: seq<Value>, seen: set<string>)
    requires |items| > 0
    requires ValidSoFar(check, expected, items[..|items| - 1]) && IdsAre(items[..|items| - 1], seen)
    ensures ValidSoFar(check, expected, items)
       <==> ValidEntry(check, expected, items[|items| - 1]) && IdOf(items[|items| - 1]) !in seen
  {
    hide ValidEntry, IdOf;
    var n := |items| - 1;
    var init := items[..n];
    forall i | 0 <= i < n ensures items[i] == init[i] && IdOf(items[i]) in seen { assert IdOf(init[i]) in seen; }
    if IdOf(items[n]) in seen {
      var i :| 0 <= i < |init| && IdOf(init[i]) == IdOf(items[n]);
      assert IdOf(items[i]) == IdOf(items[n]);
    }
  }

  lemma StepIsClean(check: Checker, expected: set<string>, s: Scan, entry: Value)
    requires s.flaws == [] && s.accepted.Keys == s.seen && s.seen <= expected
    ensures Clean(Step(check, expected, s, entry)) <==> ValidEntry(check, expected, entry) && IdOf(entry) !in s.seen
    ensures Clean(Step(check, expected, s, entry)) ==>
              var t := Step(check, expected, s, entry).value;
              && t.seen == s.seen + {IdOf(entry)} && |t.seen| == |s.seen| + 1 && t.seen <= expected
              && t.accepted == s.accepted[IdOf(entry) := entry] && t.accepted.Keys == t.seen
  {
    hide IdOf;
  }

  lemma ValidInit(check: Checker, expected: set<string>, items: seq<Value>)
    requires |items| > 0 && ValidSoFar(check, expected, items)
    ensures ValidSoFar(check, expected, items[..|items| - 1])
  {
    hide ValidEntry, IdOf;
  }

  /** Nothing is wrong with a batch exactly when its entries are a permutation of the expected ids, each
      valid; and then every id has been accepted. */
  lemma NoErrorMeansComplete(check: Checker, expected: set<string>, items: seq<Value>)
    ensures var s := ScanAll(check, expected, items);
            Clean(s) && expected - s.value.accepted.Keys == {} <==> Complete(check, expected, items)
    ensures Complete(check, expected, items) ==> ScanAll(check, expected, items).value.accepted.Keys == expected
  {
    hide ScanAll, ValidSoFar, IdsAre;
    ScanIsClean(check, expected, items);
    var scan := ScanAll(check, expected, items);
    if Clean(scan) {
      SubsetCount(scan.value.seen, expected);
    }
  }

  lemma SubsetCount<T>(a: set<T>, b: set<T>)
    requires a <= b
    ensures |a| <= |b| && (|a| == |b| <==> a == b) && (b - a == {} <==> a == b)
  {
    assert b == a + (b - a);
  }

  /** Under each id stands the entry that names it. */
  lemma {:induction false} AcceptedIsOwn(check: Checker, expected: set<string>, items: seq<Value>, i: nat)
    requires ValidSoFar(check, expected, items) && i < |items|
    ensures var s := ScanAll(check, expected, items);
            s.Some? && IdOf(items[i]) in s.value.accepted && s.value.accepted[IdOf(items[i])] == items[i]
  {
    hide ValidSoFar, ValidEntry, IdsAre, Step, IdOf;
    var n := |items| - 1;
    ValidInit(check, expected, items);
    ScanIsClean(check, expected, items[..n]);
    ScanIsClean(check, expected, items);
    StepIsClean(check, expected, ScanAll(check, expected, items[..n]).value, items[n]);
    if i < n {
      AcceptedIsOwn(check, expected, items[..n], i);
      DifferentIds(check, expected, items, i, n);
    }
  }

  lemma DifferentIds(check: Checker, expected: set<string>, items: seq<Value>, i: nat, j: nat)
    requires ValidSoFar(check, expected, items) && i < j < |items|
    ensures IdOf(items[i]) != IdOf(items[j])
  {
  }

  /** Only entries that pass the check are accepted. */
  lemma {:induction false} AcceptedAreGood(check: Checker, expected: set<string>, items: seq<Value>)
    ensures var s := ScanAll(check, expected, items);
            s.Some? ==> forall id | id in s.value.accepted :: check(s.value.accepted[id]) == Good
  {
    hide IdOf;
    if |items| > 0 { AcceptedAreGood(check, expected, items[..|items| - 1]); }
  }
}
