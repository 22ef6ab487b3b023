/** Assembling streamed tool calls, and the strict finalisation that keeps only the
    longest prefix, in start order, of calls that ended with well-formed arguments. */
module ToolAssembly {
  import opened Wrappers
  import opened Text
  import opened Json

  /** The arguments of a call: any decoded JSON, `null` included, which the program's state cannot tell
      from arguments that were never read. */
  type Arguments = Value

  const NO_ARGUMENTS := Object(map[])

  /** One provider chunk; an empty id stands for a chunk without one. */
  datatype Chunk = Chunk(id: string, name: string, isStart: bool, args: string, isEnd: bool)

  datatype ToolCall = ToolCall(id: string, name: string, arguments: Arguments)

  datatype ToolState = ToolState(id: string, name: string, ended: bool, parseError: bool, parsed: Arguments)
  {
    predicate Complete() { ended && !parseError && parsed != Null }
  }

  datatype ToolEvent =
    | Started(id: string, name: string)
    | ArgsDelta(id: string, delta: string)
    | Warned(name: string)
    | Done(id: string, name: string, raw: string)
    | Discarded(id: string, name: string)

  /** How arguments are decoded, and whether a malformed text is refused. */
  datatype Dialect = Dialect(strict: bool, parse: Decoder) {
    function Read(raw: string): Option<Arguments> {
      if raw == "" then Some(NO_ARGUMENTS) else parse(raw)
    }
  }

  datatype Assembly = Assembly(
    argParts: map<string, seq<string>>, names: map<string, string>,
    states: seq<ToolState>, index: map<string, nat>,
    completed: set<string>, toolCalls: seq<ToolCall>, events: seq<ToolEvent>)

  const NOTHING := Assembly(map[], map[], [], map[], {}, [], [])

  function OnStart(s: Assembly, c: Chunk): Assembly {
    s.(argParts := s.argParts[c.id := []],
       names := s.names[c.id := c.name],
       states := s.states + [ToolState(c.id, c.name, false, false, Null)],
       index := s.index[c.id := |s.states|],
       events := s.events + [Started(c.id, c.name)])
  }

  function OnArgs(s: Assembly, c: Chunk): Assembly {
    var parts := if c.id in s.argParts then s.argParts[c.id] else [];
    s.(argParts := s.argParts[c.id := parts + [c.args]],
       events := s.events + [ArgsDelta(c.id, c.args)])
  }

  function MarkEnded(s: Assembly, id: string, error: bool, parsed: Arguments): Assembly {
    if id in s.index && s.index[id] < |s.states| then
      var i := s.index[id];
      s.(states := s.states[i := s.states[i].(ended := true, parseError := error, parsed := parsed)])
    else s
  }

  function OnEnd(d: Dialect, s: Assembly, c: Chunk): Assembly {
    if c.id in s.completed then s
    else
      var s1 := s.(completed := s.completed + {c.id});
      var name := if c.id in s.names then s.names[c.id] else c.name;
      var raw := Concat(if c.id in s.argParts then s.argParts[c.id] else []);
      var read := d.Read(raw);
      if read.None? && d.strict then MarkEnded(s1, c.id, true, Null)
      else
        var arguments := if read.Some? then read.value else NO_ARGUMENTS;
        var warned := if read.None? then [Warned(name)] else [];
        var s2 := MarkEnded(s1, c.id, false, arguments);
        s2.(toolCalls := s2.toolCalls + [ToolCall(c.id, name, arguments)],
            events := s2.events + warned + [Done(c.id, name, raw)])
  }

  /** One chunk: a start, then an argument delta, then an end. */
  function Step(d: Dialect, s: Assembly, c: Chunk): Assembly {
    if c.id == "" then s
    else
      var s1 := if c.isStart then OnStart(s, c) else s;
      var s2 := if c.args != "" && !c.isEnd then OnArgs(s1, c) else s1;
      if c.isEnd then OnEnd(d, s2, c) else s2
  }

  /** Length of the longest prefix of complete states. */
  function SafePrefix(states: seq<ToolState>): (n: nat)
    ensures n <= |states|
    ensures forall i | 0 <= i < n :: states[i].Complete()
    ensures n < |states| ==> !states[n].Complete()
  {
    if |states| == 0 || !states[0].Complete() then 0 else 1 + SafePrefix(states[1..])
  }

  function Kept(calls: seq<ToolCall>, drop: set<string>): seq<ToolCall> {
    if |calls| == 0 then []
    else
      var init := Kept(calls[..|calls| - 1], drop);
      var last := calls[|calls| - 1];
      if last.id in drop then init else init + [last]
  }

  function DiscardEvents(states: seq<ToolState>): seq<ToolEvent> {
    seq(|states|, i requires 0 <= i < |states| => Discarded(states[i].id, states[i].name))
  }

  function IdsOf(states: seq<ToolState>): set<string> {
    set s | s in states :: s.id
  }

  /** Finalisation: nothing for lenient dialects, the safe prefix for strict ones. */
  function Finish(d: Dialect, s: Assembly): Assembly {
    if !d.strict then s
    else
      var rest := s.states[SafePrefix(s.states)..];
      s.(toolCalls := Kept(s.toolCalls, IdsOf(rest)), events := s.events + DiscardEvents(rest))
  }

  /** The chunk loop of one stream, then its finalisation. */
  method AssembleStream(d: Dialect, chunks: seq<Chunk>) returns (s: Assembly)
    ensures s == Finish(d, RunOf(d, chunks))
  {
    hide OnStart, OnArgs, OnEnd;
    s := NOTHING;
    var i := 0;
    while i < |chunks|
      invariant i <= |chunks| && s == RunOf(d, chunks[..i])
    {
      var c := chunks[i];
      assert chunks[..i + 1][..i] == chunks[..i];
      if c.id != "" {
        if c.isStart { s := OnStart(s, c); }
        if c.args != "" && !c.isEnd { s := OnArgs(s, c); }
        if c.isEnd { s := OnEnd(d, s, c); }
      }
      i := i + 1;
    }
    assert chunks[..i] == chunks;
    if d.strict && s.states != [] {
      var prefix := SafePrefix(s.states);
      if prefix < |s.states| {
        var rest := s.states[prefix..];
        s := s.(events := s.events + DiscardEvents(rest), toolCalls := Kept(s.toolCalls, IdsOf(rest)));
      } else {
        NothingDropped(s, prefix);
      }
    } else if d.strict {
      NothingDropped(s, 0);
    }
  }

  lemma NothingDropped(s: Assembly, prefix: nat)
    requires prefix <= |s.states| && (prefix == |s.states|)
    ensures Kept(s.toolCalls, IdsOf(s.states[prefix..])) == s.toolCalls
    ensures s.events + DiscardEvents(s.states[prefix..]) == s.events
  {
    KeepAll(s.toolCalls, IdsOf(s.states[prefix..]));
  }

  lemma {:induction false} KeepAll(calls: seq<ToolCall>, drop: set<string>)
    requires drop == {}
    ensures Kept(calls, drop) == calls
  {
    if |calls| > 0 {
      KeepAll(calls[..|calls| - 1], drop);
    }
  }

  function RunOf(d: Dialect, chunks: seq<Chunk>): Assembly {
    if |chunks| == 0 then NOTHING else Step(d, RunOf(d, chunks[..|chunks| - 1]), chunks[|chunks| - 1])
  }

  // ---------------------------------------------------------------- one call on its own

  /** The end of a call: how often its id had started by then, and what was read. */
  datatype End = End(at: nat, name: string, raw: string, value: Option<Arguments>)
  {
    /** What the state of a start keeps of it. */
    function Parsed(): Arguments { if value.Some? then value.value else Null }
  }

  /** The life of one id, told by its own chunks only: the names it started under, the arguments
      buffered, and its first end. */
  datatype Call = Call(starts: seq<string>, args: string, end: Option<End>)

  const UNTOUCHED := Call([], "", None)

  function CallStart(call: Call, c: Chunk): Call {
    if c.isStart then call.(starts := call.starts + [c.name], args := "") else call
  }

  function CallArgs(call: Call, c: Chunk): Call {
    if c.args != "" && !c.isEnd then call.(args := call.args + c.args) else call
  }

  function CallEnd(d: Dialect, call: Call, c: Chunk): Call {
    if c.isEnd && call.end.None? then
      var n := |call.starts|;
      call.(end := Some(End(n, if n > 0 then call.starts[n - 1] else c.name, call.args, d.Read(call.args))))
    else call
  }

  /** What the chunks carrying `id` make of it. */
  function CallOf(d: Dialect, id: string, chunks: seq<Chunk>): Call {
    if |chunks| == 0 then UNTOUCHED
    else
      var before := CallOf(d, id, chunks[..|chunks| - 1]);
      var c := chunks[|chunks| - 1];
      if c.id != id || id == "" then before else CallEnd(d, CallArgs(CallStart(before, c), c), c)
  }

  /** Ids in the order their calls started. */
  function Starts(chunks: seq<Chunk>): (ids: seq<string>)
    ensures "" !in ids
  {
    if |chunks| == 0 then []
    else
      var before := Starts(chunks[..|chunks| - 1]);
      var c := chunks[|chunks| - 1];
      if c.id != "" && c.isStart then before + [c.id] else before
  }

  function Count(ids: seq<string>, id: string): nat {
    if |ids| == 0 then 0
    else Count(ids[..|ids| - 1], id) + if ids[|ids| - 1] == id then 1 else 0
  }

  function OwnChunks(id: string, chunks: seq<Chunk>): seq<Chunk> {
    if |chunks| == 0 then []
    else
      var before := OwnChunks(id, chunks[..|chunks| - 1]);
      if chunks[|chunks| - 1].id == id then before + [chunks[|chunks| - 1]] else before
  }

  /** Interleaving with other calls never changes a call. */
  lemma {:induction false} OnlyOwnChunksMatter(d: Dialect, id: string, chunks: seq<Chunk>)
    ensures CallOf(d, id, OwnChunks(id, chunks)) == CallOf(d, id, chunks)
  {
    hide CallStart, CallArgs, CallEnd;
    if |chunks| > 0 {
      var before := chunks[..|chunks| - 1];
      OnlyOwnChunksMatter(d, id, before);
      var own, c := OwnChunks(id, before), chunks[|chunks| - 1];
      if c.id == id {
        assert (own + [c])[..|own|] == own;
      }
    }
  }

  // ---------------------------------------------------------------- counting starts

  lemma CountSnoc(ids: seq<string>, x: string, id: string)
    ensures Count(ids + [x], id) == Count(ids, id) + if x == id then 1 else 0
  {
    assert (ids + [x])[..|ids|] == ids;
  }

  /** Every later start of an id sees a larger count. */
  lemma {:induction false} CountGrows(ids: seq<string>, i: nat, n: nat)
    requires i < n <= |ids|
    ensures Count(ids[..i], ids[i]) < Count(ids[..n], ids[i])
  {
    assert ids[..n][..n - 1] == ids[..n - 1];
    if i < n - 1 { CountGrows(ids, i, n - 1); }
  }

  // ---------------------------------------------------------------- the assembly refines the lives

  /** What each id has lived through. */
  type Lives = string -> Call

  function With(lives: Lives, id: string, call: Call): Lives {
    x => if x == id then call else lives(x)
  }

  /** The state of the k-th start of an id, from 0: ended only if the first end came while it was the latest. */
  function StateFor(id: string, call: Call, k: nat): ToolState
    requires k < |call.starts|
  {
    if call.end.Some? && call.end.value.at == k + 1
    then ToolState(id, call.starts[k], true, call.end.value.value.None?, call.end.value.Parsed())
    else ToolState(id, call.starts[k], false, false, Null)
  }

  ghost predicate StateMatches(st: ToolState, id: string, call: Call, k: nat) {
    k < |call.starts| && st == StateFor(id, call, k)
  }

  /** The call an id came to, if its first end was readable. */
  ghost predicate Ended(call: Call, tc: ToolCall) {
    call.end.Some? && call.end.value.value == Some(tc.arguments) && call.end.value.name == tc.name
  }

  ghost predicate StatesMatch(s: Assembly, lives: Lives, starts: seq<string>) {
    && |s.states| == |starts|
    && (forall i | 0 <= i < |starts| ::
       StateMatches(s.states[i], starts[i], lives(starts[i]), Count(starts[..i], starts[i])))
    && (forall id :: |lives(id).starts| == Count(starts, id))
    && (forall id | lives(id).end.Some? :: lives(id).end.value.at <= |lives(id).starts|)
  }

  ghost predicate IndexMatches(s: Assembly, starts: seq<string>) {
    && (forall id :: id in s.index <==> id in starts)
    && (forall id | id in s.index :: LatestAt(starts, id, s.index[id]))
  }

  ghost predicate LatestAt(starts: seq<string>, id: string, i: nat) {
    i < |starts| && starts[i] == id && Count(starts[..i], id) + 1 == Count(starts, id)
  }

  ghost predicate NamesMatch(s: Assembly, lives: Lives) {
    && (forall id :: id in s.names <==> lives(id).starts != [])
    && (forall id | id in s.names :: lives(id).starts != [] && s.names[id] == lives(id).starts[|lives(id).starts| - 1])
  }

  ghost predicate PartsMatch(s: Assembly, lives: Lives) {
    forall id :: Concat(Parts(s, id)) == lives(id).args
  }

  ghost predicate CompletedMatch(s: Assembly, lives: Lives) {
    forall id :: id in s.completed <==> lives(id).end.Some?
  }

  ghost predicate BuffersMatch(s: Assembly, lives: Lives) {
    NamesMatch(s, lives) && PartsMatch(s, lives) && CompletedMatch(s, lives)
  }

  function Parts(s: Assembly, id: string): seq<string> {
    if id in s.argParts then s.argParts[id] else []
  }

  ghost predicate CallsMatch(s: Assembly, lives: Lives) {
    && (forall tc :: tc in s.toolCalls <==> Ended(lives(tc.id), tc))
    && DistinctIds(s.toolCalls)
    && (forall tc | tc in s.toolCalls ::
       lives(tc.id).end.Some? && Done(tc.id, tc.name, lives(tc.id).end.value.raw) in s.events)
  }

  ghost predicate Refines(s: Assembly, lives: Lives, starts: seq<string>) {
    StatesMatch(s, lives, starts) && IndexMatches(s, starts) && BuffersMatch(s, lives) && CallsMatch(s, lives)
  }

  // A start.

  lemma StartStates(s: Assembly, lives: Lives, starts: seq<string>, c: Chunk)
    requires StatesMatch(s, lives, starts) && c.isStart
    ensures StatesMatch(OnStart(s, c), With(lives, c.id, CallStart(lives(c.id), c)), starts + [c.id])
  {
    hide Count;
    var s', lives', starts' := OnStart(s, c), With(lives, c.id, CallStart(lives(c.id), c)), starts + [c.id];
    forall i | 0 <= i < |starts'|
      ensures StateMatches(s'.states[i], starts'[i], lives'(starts'[i]), Count(starts'[..i], starts'[i]))
    {
      if i < |starts| {
        assert starts'[..i] == starts[..i];
        assert StateMatches(s.states[i], starts[i], lives(starts[i]), Count(starts[..i], starts[i]));
      } else {
        assert starts'[..i] == starts;
      }
    }
    forall id: string ensures |lives'(id).starts| == Count(starts', id) { CountSnoc(starts, c.id, id); }
  }

  lemma StartIndex(s: Assembly, starts: seq<string>, c: Chunk)
    requires IndexMatches(s, starts) && |s.states| == |starts|
    ensures IndexMatches(OnStart(s, c), starts + [c.id])
  {
    hide Count;
    var s', starts' := OnStart(s, c), starts + [c.id];
    forall id | id in s'.index ensures LatestAt(starts', id, s'.index[id]) {
      var i := s'.index[id];
      CountSnoc(starts, c.id, id);
      if id == c.id { assert starts'[..i] == starts; } else { assert starts'[..i] == starts[..i]; }
    }
  }

  lemma StartNames(s: Assembly, lives: Lives, c: Chunk)
    requires NamesMatch(s, lives) && c.isStart
    ensures NamesMatch(OnStart(s, c), With(lives, c.id, CallStart(lives(c.id), c)))
  {
  }

  lemma StartParts(s: Assembly, lives: Lives, c: Chunk)
    requires PartsMatch(s, lives) && c.isStart
    ensures PartsMatch(OnStart(s, c), With(lives, c.id, CallStart(lives(c.id), c)))
  {
    var s', lives' := OnStart(s, c), With(lives, c.id, CallStart(lives(c.id), c));
    forall id: string ensures Concat(Parts(s', id)) == lives'(id).args {
      if id != c.id { assert Parts(s', id) == Parts(s, id); }
    }
  }

  lemma StartBuffers(s: Assembly, lives: Lives, c: Chunk)
    requires BuffersMatch(s, lives) && c.isStart
    ensures BuffersMatch(OnStart(s, c), With(lives, c.id, CallStart(lives(c.id), c)))
  {
    hide NamesMatch, PartsMatch;
    StartNames(s, lives, c);
    StartParts(s, lives, c);
  }

  lemma StartCalls(s: Assembly, lives: Lives, c: Chunk)
    requires CallsMatch(s, lives)
    ensures CallsMatch(OnStart(s, c), With(lives, c.id, CallStart(lives(c.id), c)))
  {
    SameEndsSameCalls(s, lives, OnStart(s, c), With(lives, c.id, CallStart(lives(c.id), c)));
  }

  lemma SameEndsSameCalls(s: Assembly, lives: Lives, s': Assembly, lives': Lives)
    requires CallsMatch(s, lives) && s'.toolCalls == s.toolCalls && s.events <= s'.events
    requires forall id :: lives'(id).end == lives(id).end
    ensures CallsMatch(s', lives')
  {
    forall tc: ToolCall ensures Ended(lives'(tc.id), tc) <==> Ended(lives(tc.id), tc) { }
    forall tc | tc in s'.toolCalls
      ensures lives'(tc.id).end.Some? && Done(tc.id, tc.name, lives'(tc.id).end.value.raw) in s'.events
    {
      assert Done(tc.id, tc.name, lives(tc.id).end.value.raw) in s.events;
    }
  }

  lemma StartRefines(s: Assembly, lives: Lives, starts: seq<string>, c: Chunk)
    requires Refines(s, lives, starts) && c.isStart
    ensures Refines(OnStart(s, c), With(lives, c.id, CallStart(lives(c.id), c)), starts + [c.id])
  {
    assert |s.states| == |starts|;
    hide OnStart, StatesMatch, IndexMatches, BuffersMatch, CallsMatch, CallStart, With;
    StartStates(s, lives, starts, c);
    StartIndex(s, starts, c);
    StartBuffers(s, lives, c);
    StartCalls(s, lives, c);
  }

  // An argument delta.

  lemma ArgsStates(s: Assembly, lives: Lives, starts: seq<string>, c: Chunk)
    requires StatesMatch(s, lives, starts)
    ensures StatesMatch(OnArgs(s, c), With(lives, c.id, CallArgs(lives(c.id), c)), starts)
  {
    hide Count;
    var s', lives' := OnArgs(s, c), With(lives, c.id, CallArgs(lives(c.id), c));
    forall i | 0 <= i < |starts|
      ensures StateMatches(s'.states[i], starts[i], lives'(starts[i]), Count(starts[..i], starts[i]))
    {
      assert StateMatches(s.states[i], starts[i], lives(starts[i]), Count(starts[..i], starts[i]));
    }
    forall id: string ensures lives'(id).starts == lives(id).starts && lives'(id).end == lives(id).end { }
  }

  lemma ArgsParts(s: Assembly, lives: Lives, c: Chunk)
    requires PartsMatch(s, lives) && c.args != "" && !c.isEnd
    ensures PartsMatch(OnArgs(s, c), With(lives, c.id, CallArgs(lives(c.id), c)))
  {
    hide Concat;
    var s', lives' := OnArgs(s, c), With(lives, c.id, CallArgs(lives(c.id), c));
    ConcatSnoc(Parts(s, c.id), c.args);
    forall id: string ensures Concat(Parts(s', id)) == lives'(id).args {
      if id != c.id { assert Parts(s', id) == Parts(s, id); } else { assert Parts(s', id) == Parts(s, id) + [c.args]; }
    }
  }

  lemma ArgsBuffers(s: Assembly, lives: Lives, c: Chunk)
    requires BuffersMatch(s, lives) && c.args != "" && !c.isEnd
    ensures BuffersMatch(OnArgs(s, c), With(lives, c.id, CallArgs(lives(c.id), c)))
  {
    hide PartsMatch;
    ArgsParts(s, lives, c);
    SameNames(s, lives, OnArgs(s, c), With(lives, c.id, CallArgs(lives(c.id), c)));
  }

  lemma SameNames(s: Assembly, lives: Lives, s': Assembly, lives': Lives)
    requires NamesMatch(s, lives) && s'.names == s.names
    requires forall id :: lives'(id).starts == lives(id).starts
    ensures NamesMatch(s', lives')
  {
  }

  lemma ArgsRefine(s: Assembly, lives: Lives, starts: seq<string>, c: Chunk)
    requires Refines(s, lives, starts) && c.args != "" && !c.isEnd
    ensures Refines(OnArgs(s, c), With(lives, c.id, CallArgs(lives(c.id), c)), starts)
  {
    hide StatesMatch, BuffersMatch, CallsMatch;
    ArgsStates(s, lives, starts, c);
    ArgsBuffers(s, lives, c);
    SameEndsSameCalls(s, lives, OnArgs(s, c), With(lives, c.id, CallArgs(lives(c.id), c)));
  }

  lemma ConcatSnoc(parts: seq<string>, x: string)
    ensures Concat(parts + [x]) == Concat(parts) + x
  {
    ConcatAppend(parts, [x]);
    assert [x][1..] == [] && Concat<char>([]) == [] && x + [] == x;
  }

  // An end.

  /** What the first end of an id does, wherever its latest start stands, if it has one. */
  lemma EndOfLife(d: Dialect, s: Assembly, lives: Lives, starts: seq<string>, c: Chunk)
    requires d.strict && |s.states| == |starts| && IndexMatches(s, starts) && c.isEnd && c.id !in s.completed
    requires NamesMatch(s, lives) && PartsMatch(s, lives) && lives(c.id).end.None?
    ensures var call := CallEnd(d, lives(c.id), c);
            && call.end.Some?
            && (c.id in s.index ==> s.index[c.id] < |s.states|)
            && OnEnd(d, s, c) == EndedWith(s, c.id, call.end.value)
  {
    hide Concat, Count, Dialect.Read, OnEnd, EndedWith;
    assert Concat(Parts(s, c.id)) == lives(c.id).args;
    assert c.id in s.index ==> LatestAt(starts, c.id, s.index[c.id]);
    OnEndIs(d, s, c, CallEnd(d, lives(c.id), c).end.value);
  }

  lemma OnEndIs(d: Dialect, s: Assembly, c: Chunk, end: End)
    requires d.strict && c.id !in s.completed && (c.id in s.index ==> s.index[c.id] < |s.states|)
    requires end.name == if c.id in s.names then s.names[c.id] else c.name
    requires end.raw == Concat(Parts(s, c.id)) && end.value == d.Read(end.raw)
    ensures OnEnd(d, s, c) == EndedWith(s, c.id, end)
  {
    hide Concat, Dialect.Read;
  }

  function EndedState(st: ToolState, end: End): ToolState {
    st.(ended := true, parseError := end.value.None?, parsed := end.Parsed())
  }

  /** The assembly after the first end of `id`. */
  function EndedWith(s: Assembly, id: string, end: End): Assembly
    requires id in s.index ==> s.index[id] < |s.states|
  {
    var s1 := s.(completed := s.completed + {id},
                 states := if id in s.index
                           then s.states[s.index[id] := EndedState(s.states[s.index[id]], end)]
                           else s.states);
    if end.value.None? then s1
    else s1.(toolCalls := s.toolCalls + [ToolCall(id, end.name, end.value.value)],
             events := s.events + [Done(id, end.name, end.raw)])
  }

  lemma EndStates(d: Dialect, s: Assembly, lives: Lives, starts: seq<string>, c: Chunk)
    requires StatesMatch(s, lives, starts) && IndexMatches(s, starts) && lives(c.id).end.None? && c.isEnd
    requires c.id in s.index ==> s.index[c.id] < |s.states|
    ensures var call := CallEnd(d, lives(c.id), c);
            StatesMatch(EndedWith(s, c.id, call.end.value), With(lives, c.id, call), starts)
  {
    hide Count;
    var call := CallEnd(d, lives(c.id), c);
    var s', lives' := EndedWith(s, c.id, call.end.value), With(lives, c.id, call);
    assert c.id in s.index ==> LatestAt(starts, c.id, s.index[c.id]);
    forall i | 0 <= i < |starts|
      ensures StateMatches(s'.states[i], starts[i], lives'(starts[i]), Count(starts[..i], starts[i]))
    {
      assert StateMatches(s.states[i], starts[i], lives(starts[i]), Count(starts[..i], starts[i]));
      if starts[i] == c.id && i != s.index[c.id] { OneLatest(starts, i, s.index[c.id]); }
    }
    forall id: string ensures |lives'(id).starts| == Count(starts, id) { }
  }

  lemma OneLatest(starts: seq<string>, i: nat, j: nat)
    requires i < |starts| && LatestAt(starts, starts[i], j) && i != j
    ensures Count(starts[..i], starts[i]) + 1 < Count(starts, starts[i])
  {
    hide Count;
    assert starts[..|starts|] == starts;
    if i < j { CountGrows(starts, i, j); } else { CountGrows(starts, j, i); CountGrows(starts, i, |starts|); }
  }

  lemma EndParts(s: Assembly, lives: Lives, s': Assembly, lives': Lives)
    requires PartsMatch(s, lives) && s'.argParts == s.argParts
    requires forall id :: lives'(id).args == lives(id).args
    ensures PartsMatch(s', lives')
  {
    hide Concat;
    forall id: string ensures Concat(Parts(s', id)) == lives'(id).args { assert Parts(s', id) == Parts(s, id); }
  }

  lemma EndBuffers(d: Dialect, s: Assembly, lives: Lives, c: Chunk)
    requires BuffersMatch(s, lives) && lives(c.id).end.None? && c.isEnd
    requires c.id in s.index ==> s.index[c.id] < |s.states|
    ensures var call := CallEnd(d, lives(c.id), c);
            BuffersMatch(EndedWith(s, c.id, call.end.value), With(lives, c.id, call))
  {
    hide NamesMatch, PartsMatch;
    var call := CallEnd(d, lives(c.id), c);
    var s', lives' := EndedWith(s, c.id, call.end.value), With(lives, c.id, call);
    EndParts(s, lives, s', lives');
    SameNames(s, lives, s', lives');
  }

  lemma EndCalls(d: Dialect, s: Assembly, lives: Lives, c: Chunk)
    requires CallsMatch(s, lives) && lives(c.id).end.None? && c.isEnd
    requires c.id in s.index ==> s.index[c.id] < |s.states|
    ensures var call := CallEnd(d, lives(c.id), c);
            CallsMatch(EndedWith(s, c.id, call.end.value), With(lives, c.id, call))
  {
    var call := CallEnd(d, lives(c.id), c);
    var s', lives' := EndedWith(s, c.id, call.end.value), With(lives, c.id, call);
    hide CallEnd, EndedWith;
    EndedCalls(s, c.id, call.end.value);
    forall tc | tc in s.toolCalls
      ensures tc.id != c.id && Done(tc.id, tc.name, lives'(tc.id).end.value.raw) in s'.events
    {
      assert Ended(lives(tc.id), tc);
    }
    forall tc: ToolCall ensures tc in s'.toolCalls <==> Ended(lives'(tc.id), tc) {
      if tc.id != c.id { assert Ended(lives'(tc.id), tc) <==> Ended(lives(tc.id), tc); }
    }
  }

  lemma EndedCalls(s: Assembly, id: string, end: End)
    requires id in s.index ==> s.index[id] < |s.states|
    ensures var s' := EndedWith(s, id, end);
            if end.value.None? then s'.toolCalls == s.toolCalls && s'.events == s.events
            else s'.toolCalls == s.toolCalls + [ToolCall(id, end.name, end.value.value)]
                 && s'.events == s.events + [Done(id, end.name, end.raw)]
  {
  }

  lemma EndRefines(d: Dialect, s: Assembly, lives: Lives, starts: seq<string>, c: Chunk)
    requires d.strict && Refines(s, lives, starts) && c.isEnd
    ensures Refines(OnEnd(d, s, c), With(lives, c.id, CallEnd(d, lives(c.id), c)), starts)
  {
    assert (c.id in s.completed <==> lives(c.id).end.Some?) && |s.states| == |starts| by {
      hide IndexMatches, CallsMatch, NamesMatch, PartsMatch;
    }
    hide NamesMatch, PartsMatch;
    if c.id in s.completed {
      hide StatesMatch, IndexMatches, BuffersMatch, CallsMatch;
      Unchanged(s, lives, starts, c.id);
    } else {
      EndOfLife(d, s, lives, starts, c);
      EndIndex(s, starts, c.id, CallEnd(d, lives(c.id), c).end.value);
      hide OnEnd, EndedWith, StatesMatch, IndexMatches, BuffersMatch, CallsMatch, With;
      EndStates(d, s, lives, starts, c);
      EndBuffers(d, s, lives, c);
      EndCalls(d, s, lives, c);
    }
  }

  lemma EndIndex(s: Assembly, starts: seq<string>, id: string, end: End)
    requires IndexMatches(s, starts) && (id in s.index ==> s.index[id] < |s.states|)
    ensures IndexMatches(EndedWith(s, id, end), starts)
  {
    hide LatestAt;
    assert EndedWith(s, id, end).index == s.index;
  }

  lemma Unchanged(s: Assembly, lives: Lives, starts: seq<string>, id: string)
    requires Refines(s, lives, starts)
    ensures Refines(s, With(lives, id, lives(id)), starts)
  {
    SameLives(s, lives, With(lives, id, lives(id)), starts);
  }

  lemma SameLives(s: Assembly, lives: Lives, others: Lives, starts: seq<string>)
    requires Refines(s, lives, starts) && forall id :: others(id) == lives(id)
    ensures Refines(s, others, starts)
  {
    hide Count;
    assert StatesMatch(s, others, starts) by { hide BuffersMatch, CallsMatch; }
    assert BuffersMatch(s, others) by { hide StatesMatch, CallsMatch; }
    assert CallsMatch(s, others) by {
      hide StatesMatch, BuffersMatch;
      SameEndsSameCalls(s, lives, s, others);
    }
  }

  /** The lives that the chunks so far tell. */
  function LivesOf(d: Dialect, chunks: seq<Chunk>): Lives {
    id => CallOf(d, id, chunks)
  }

  /** Names, buffers, states and calls of the loop are those of the separate lives, for every stream. */
  lemma {:induction false} RunRefines(d: Dialect, chunks: seq<Chunk>)
    requires d.strict
    ensures Refines(RunOf(d, chunks), LivesOf(d, chunks), Starts(chunks))
  {
    hide OnStart, OnArgs, OnEnd, Refines, CallStart, CallArgs, CallEnd;
    if |chunks| == 0 {
      NothingRefines(LivesOf(d, chunks));
    } else {
      var c := chunks[|chunks| - 1];
      var before := chunks[..|chunks| - 1];
      var lives := LivesOf(d, before);
      RunRefines(d, before);
      if c.id != "" {
        lives := StepRefines(d, RunOf(d, before), lives, Starts(before), c);
      }
      SameLives(RunOf(d, chunks), lives, LivesOf(d, chunks), Starts(chunks));
    }
  }

  lemma NothingRefines(lives: Lives)
    requires forall id :: lives(id) == UNTOUCHED
    ensures Refines(NOTHING, lives, [])
  {
  }

  lemma StepRefines(d: Dialect, s: Assembly, known: Lives, starts: seq<string>, c: Chunk) returns (lives: Lives)
    requires d.strict && Refines(s, known, starts)
    ensures c.id != "" ==> Refines(Step(d, s, c), lives, if c.isStart then starts + [c.id] else starts)
    ensures lives(c.id) == CallEnd(d, CallArgs(CallStart(known(c.id), c), c), c)
    ensures forall id | id != c.id :: lives(id) == known(id)
  {
    hide OnStart, OnArgs, OnEnd, Refines;
    var s1, l1, st := s, known, starts;
    if c.isStart {
      StartRefines(s, known, starts, c);
      s1, l1, st := OnStart(s, c), With(known, c.id, CallStart(known(c.id), c)), starts + [c.id];
    }
    var s2, l2 := s1, l1;
    if c.args != "" && !c.isEnd {
      ArgsRefine(s1, l1, st, c);
      s2, l2 := OnArgs(s1, c), With(l1, c.id, CallArgs(l1(c.id), c));
    }
    lives := l2;
    if c.isEnd {
      EndRefines(d, s2, l2, st, c);
      lives := With(l2, c.id, CallEnd(d, l2(c.id), c));
    }
  }

  // ---------------------------------------------------------------- main results

  /** Calls with pairwise different ids. */
  ghost predicate DistinctIds(calls: seq<ToolCall>) {
    forall i, j | 0 <= i < j < |calls| :: calls[i].id != calls[j].id
  }

  lemma {:induction false} KeptMeans(calls: seq<ToolCall>, drop: set<string>)
    requires DistinctIds(calls)
    ensures forall tc :: tc in Kept(calls, drop) <==> tc in calls && tc.id !in drop
    ensures DistinctIds(Kept(calls, drop))
  {
    if |calls| > 0 {
      var init, last := calls[..|calls| - 1], calls[|calls| - 1];
      KeptMeans(init, drop);
      assert calls == init + [last];
      var k := Kept(init, drop);
      forall i | 0 <= i < |k| ensures k[i].id != last.id {
        assert k[i] in init;
      }
    }
  }

  /** The i-th start met the first end of its id while it was the latest, and its arguments were readable
      and not `null`. */
  predicate GoodStart(d: Dialect, chunks: seq<Chunk>, i: nat)
    requires i < |Starts(chunks)|
  {
    var ids := Starts(chunks);
    var end := CallOf(d, ids[i], chunks).end;
    end.Some? && end.value.at == Count(ids[..i], ids[i]) + 1 && end.value.Parsed() != Null
  }

  function GoodFrom(d: Dialect, chunks: seq<Chunk>, i: nat): (n: nat)
    requires i <= |Starts(chunks)|
    ensures i <= n <= |Starts(chunks)|
    ensures forall k | i <= k < n :: GoodStart(d, chunks, k)
    ensures n < |Starts(chunks)| ==> !GoodStart(d, chunks, n)
    decreases |Starts(chunks)| - i
  {
    if i == |Starts(chunks)| || !GoodStart(d, chunks, i) then i else GoodFrom(d, chunks, i + 1)
  }

  /** The number of starts before the first that is not good. */
  function GoodPrefix(d: Dialect, chunks: seq<Chunk>): nat {
    GoodFrom(d, chunks, 0)
  }

  /** The id came to this call, and did not start at or after the first start that is not good. */
  ghost predicate Survives(d: Dialect, chunks: seq<Chunk>, tc: ToolCall) {
    Ended(CallOf(d, tc.id, chunks), tc) && tc.id !in Starts(chunks)[GoodPrefix(d, chunks)..]
  }

  lemma CompleteIsGood(d: Dialect, chunks: seq<Chunk>, s: Assembly)
    requires StatesMatch(s, LivesOf(d, chunks), Starts(chunks))
    ensures forall i | 0 <= i < |s.states| ::
            s.states[i].id == Starts(chunks)[i] && (s.states[i].Complete() <==> GoodStart(d, chunks, i))
  {
    hide CallOf, Starts, Count;
    var ids := Starts(chunks);
    forall i | 0 <= i < |s.states|
      ensures s.states[i].id == ids[i] && (s.states[i].Complete() <==> GoodStart(d, chunks, i))
    {
      assert StateMatches(s.states[i], ids[i], CallOf(d, ids[i], chunks), Count(ids[..i], ids[i]));
    }
  }

  lemma PrefixesAgree(d: Dialect, chunks: seq<Chunk>)
    requires d.strict
    ensures var s := RunOf(d, chunks);
            && |s.states| == |Starts(chunks)| && SafePrefix(s.states) == GoodPrefix(d, chunks)
            && forall i | 0 <= i < |s.states| :: s.states[i].id == Starts(chunks)[i]
  {
    RunRefines(d, chunks);
    hide RunOf, CallOf, Starts, BuffersMatch, CallsMatch, IndexMatches, SafePrefix, StateMatches, GoodStart, LivesOf;
    var s := RunOf(d, chunks);
    CompleteIsGood(d, chunks, s);
  }

  lemma IdsOfRest(states: seq<ToolState>, starts: seq<string>, n: nat, id: string)
    requires |states| == |starts| && n <= |starts|
    requires forall i | 0 <= i < |starts| :: states[i].id == starts[i]
    ensures id in IdsOf(states[n..]) <==> id in starts[n..]
  {
    var rest := states[n..];
    if id in IdsOf(rest) {
      var i :| 0 <= i < |rest| && rest[i].id == id;
      assert starts[n..][i] == id;
    }
    if id in starts[n..] {
      var i :| 0 <= i < |starts[n..]| && starts[n..][i] == id;
      assert rest[i].id == id;
    }
  }

  /** Strict assembly, for every stream: the surviving calls are, once each, exactly those of the ids with a
      readable first end that never started at or after the first start that did not come to a good end. */
  lemma SurvivorsAreTheGoodPrefix(d: Dialect, chunks: seq<Chunk>)
    requires d.strict
    ensures var out := Finish(d, RunOf(d, chunks)).toolCalls;
            DistinctIds(out) && forall tc :: tc in out <==> Survives(d, chunks, tc)
  {
    RunRefines(d, chunks);
    PrefixesAgree(d, chunks);
    var s, starts := RunOf(d, chunks), Starts(chunks);
    hide RunOf, Starts, CallOf, Kept, IdsOf, GoodPrefix, SafePrefix, BuffersMatch, StatesMatch, IndexMatches, Ended;
    var n := SafePrefix(s.states);
    KeptMeans(s.toolCalls, IdsOf(s.states[n..]));
    forall tc: ToolCall ensures tc in Kept(s.toolCalls, IdsOf(s.states[n..])) <==> Survives(d, chunks, tc) {
      IdsOfRest(s.states, starts, n, tc.id);
      assert tc in s.toolCalls <==> Ended(LivesOf(d, chunks)(tc.id), tc);
    }
  }

  /** The id ended, and the arguments at its first end were well-formed JSON, be it `null`. */
  predicate Readable(d: Dialect, chunks: seq<Chunk>, id: string) {
    CallOf(d, id, chunks).end.Some? && CallOf(d, id, chunks).end.value.value.Some?
  }

  /** The first end of this id was readable, and it never started. */
  predicate Loose(d: Dialect, chunks: seq<Chunk>, id: string) {
    id !in Starts(chunks) && Readable(d, chunks, id)
  }

  /** Every surviving call started before the first start that is not good. */
  ghost predicate PrefixRule(d: Dialect, chunks: seq<Chunk>) {
    forall tc | tc in Finish(d, RunOf(d, chunks)).toolCalls :: tc.id in Starts(chunks)[..GoodPrefix(d, chunks)]
  }

  /** The rule that only such a prefix survives holds exactly if no id that never started has a readable
      first end. */
  lemma PrefixRuleIff(d: Dialect, chunks: seq<Chunk>)
    requires d.strict
    ensures PrefixRule(d, chunks) <==> forall id :: !Loose(d, chunks, id)
  {
    SurvivorsAreTheGoodPrefix(d, chunks);
    hide Finish, RunOf, Starts, CallOf, GoodPrefix;
    var starts, n := Starts(chunks), GoodPrefix(d, chunks);
    assert n <= |starts| by { GoodPrefixFits(d, chunks); }
    CutAndJoin(starts, n);
    forall id | Loose(d, chunks, id) ensures !PrefixRule(d, chunks) {
      var end := CallOf(d, id, chunks).end.value;
      assert Survives(d, chunks, ToolCall(id, end.name, end.value.value));
    }
    if forall id :: !Loose(d, chunks, id) {
      forall tc | tc in Finish(d, RunOf(d, chunks)).toolCalls ensures tc.id in starts[..n] {
        assert Survives(d, chunks, tc);
        assert !Loose(d, chunks, tc.id);
      }
    }
  }

  lemma GoodPrefixFits(d: Dialect, chunks: seq<Chunk>)
    ensures GoodPrefix(d, chunks) <= |Starts(chunks)|
  {
  }

  ghost predicate NoDuplicates(ids: seq<string>) {
    forall i, j | 0 <= i < j < |ids| :: ids[i] != ids[j]
  }

  lemma OnlyBefore(starts: seq<string>, n: nat, id: string) returns (i: nat)
    requires NoDuplicates(starts) && n <= |starts| && id in starts[..n]
    ensures i < n && starts[i] == id && id !in starts[n..]
  {
    i :| 0 <= i < n && starts[..n][i] == id;
    forall j | 0 <= j < |starts[n..]| ensures starts[n..][j] != id { assert starts[n + j] == starts[n..][j]; }
  }

  /** When each id starts at most once, the survivors are the calls of the good prefix, and those of the
      ids that never started. */
  lemma SurvivorsOfSingleStarts(d: Dialect, chunks: seq<Chunk>, id: string)
    requires d.strict && NoDuplicates(Starts(chunks))
    ensures (exists tc: ToolCall :: tc in Finish(d, RunOf(d, chunks)).toolCalls && tc.id == id)
       <==> id in Starts(chunks)[..GoodPrefix(d, chunks)] || Loose(d, chunks, id)
  {
    SurvivorsAreTheGoodPrefix(d, chunks);
    GoodPrefixFits(d, chunks);
    hide Finish, RunOf, Starts, CallOf, Count;
    var starts, n := Starts(chunks), GoodPrefix(d, chunks);
    CutAndJoin(starts, n);
    if id in starts[..n] {
      var i := OnlyBefore(starts, n, id);
      assert GoodStart(d, chunks, i);
    }
    if id in starts[..n] || Loose(d, chunks, id) {
      var end := CallOf(d, id, chunks).end.value;
      assert Survives(d, chunks, ToolCall(id, end.name, end.value.value));
    }
  }

  ghost predicate HasDone(events: seq<ToolEvent>, id: string) {
    exists e | e in events :: e.Done? && e.id == id
  }

  ghost predicate HasDiscarded(events: seq<ToolEvent>, id: string) {
    exists e | e in events :: e.Discarded? && e.id == id
  }

  lemma ReadableIsDone(s: Assembly, lives: Lives, id: string)
    requires CallsMatch(s, lives) && lives(id).end.Some? && lives(id).end.value.value.Some?
    ensures HasDone(s.events, id)
  {
    var end := lives(id).end.value;
    var tc := ToolCall(id, end.name, end.value.value);
    assert Ended(lives(id), tc);
    assert tc in s.toolCalls;
    assert Done(id, end.name, end.raw) in s.events;
  }

  lemma DroppedStateIsDiscarded(states: seq<ToolState>, n: nat, i: nat, events: seq<ToolEvent>)
    requires n <= i < |states|
    ensures HasDiscarded(events + DiscardEvents(states[n..]), states[i].id)
  {
    var rest := states[n..];
    var out := DiscardEvents(rest);
    assert rest[i - n] == states[i];
    assert out[i - n] == Discarded(states[i].id, states[i].name);
    assert (events + out)[|events| + i - n] == out[i - n];
  }

  lemma MoreEvents(events: seq<ToolEvent>, more: seq<ToolEvent>, id: string)
    requires HasDone(events, id)
    ensures HasDone(events + more, id)
  {
    var e :| e in events && e.Done? && e.id == id;
    assert e in events + more;
  }

  /** Every start is closed for the reader: those of the good prefix by a done event, the rest by a discarded one. */
  lemma EveryStartIsClosed(d: Dialect, chunks: seq<Chunk>, i: nat)
    requires d.strict && i < |Starts(chunks)|
    ensures var id, events := Starts(chunks)[i], Finish(d, RunOf(d, chunks)).events;
            if i < GoodPrefix(d, chunks) then HasDone(events, id) else HasDiscarded(events, id)
  {
    RunRefines(d, chunks);
    PrefixesAgree(d, chunks);
    var s, starts := RunOf(d, chunks), Starts(chunks);
    FinishEvents(d, s);
    if i < GoodPrefix(d, chunks) {
      assert GoodStart(d, chunks, i);
      hide RunOf, Starts, CallOf, Finish, Count, StatesMatch, IndexMatches, BuffersMatch, CallsMatch, HasDone,
           HasDiscarded, DiscardEvents, SafePrefix, GoodPrefix;
      ReadableIsDone(s, LivesOf(d, chunks), starts[i]);
      MoreEvents(s.events, DiscardEvents(s.states[SafePrefix(s.states)..]), starts[i]);
    } else {
      hide *;
      DroppedStateIsDiscarded(s.states, SafePrefix(s.states), i, s.events);
    }
  }

  lemma DiscardedState(states: seq<ToolState>, starts: seq<string>, n: nat, id: string)
    requires |states| == |starts| && n <= |starts|
    requires forall i | 0 <= i < |starts| :: states[i].id == starts[i]
    ensures HasDiscarded(DiscardEvents(states[n..]), id) <==> id in starts[n..]
    ensures forall e | e in DiscardEvents(states[n..]) :: e.Discarded?
  {
    var rest := states[n..];
    var out := DiscardEvents(rest);
    forall i | 0 <= i < |rest| ensures out[i].Discarded? && out[i].id == starts[n..][i] { }
    if HasDiscarded(out, id) {
      var i :| 0 <= i < |out| && out[i].Discarded? && out[i].id == id;
      assert starts[n..][i] == id;
    }
    if id in starts[n..] {
      var i :| 0 <= i < |starts[n..]| && starts[n..][i] == id;
      assert out[i] in out;
    }
  }

  ghost predicate HasCall(calls: seq<ToolCall>, id: string) {
    exists tc | tc in calls :: tc.id == id
  }

  /** Before the finalisation nothing is discarded, and every done event is that of a call. */
  ghost predicate EventsFit(events: seq<ToolEvent>, calls: seq<ToolCall>) {
    forall e | e in events :: !e.Discarded? && (e.Done? ==> HasCall(calls, e.id))
  }

  lemma EventsStep(d: Dialect, s: Assembly, c: Chunk)
    requires EventsFit(s.events, s.toolCalls)
    ensures var t := Step(d, s, c); EventsFit(t.events, t.toolCalls)
  {
    hide Concat, Dialect.Read;
    var t := Step(d, s, c);
    MoreCalls(s.toolCalls, t.toolCalls);
    if |t.toolCalls| > |s.toolCalls| {
      var tc := t.toolCalls[|s.toolCalls|];
      assert tc in t.toolCalls && tc.id == c.id;
    }
  }

  lemma MoreCalls(calls: seq<ToolCall>, more: seq<ToolCall>)
    ensures calls <= more ==> forall id :: HasCall(calls, id) ==> HasCall(more, id)
  {
    if calls <= more {
      forall tc | tc in calls ensures tc in more { var i :| 0 <= i < |calls| && calls[i] == tc; assert more[i] == tc; }
    }
  }

  lemma {:induction false} RunEventsFit(d: Dialect, chunks: seq<Chunk>)
    ensures var s := RunOf(d, chunks); EventsFit(s.events, s.toolCalls)
  {
    hide Step, EventsFit;
    if |chunks| == 0 {
      assert EventsFit([], []) by { NoEventsFit(); }
    } else {
      RunEventsFit(d, chunks[..|chunks| - 1]);
      EventsStep(d, RunOf(d, chunks[..|chunks| - 1]), chunks[|chunks| - 1]);
    }
  }

  lemma NoEventsFit()
    ensures EventsFit([], [])
  {
  }

  lemma EventsOfBoth(events: seq<ToolEvent>, out: seq<ToolEvent>, id: string)
    requires forall e | e in events :: !e.Discarded?
    requires forall e | e in out :: e.Discarded?
    ensures HasDone(events + out, id) <==> HasDone(events, id)
    ensures HasDiscarded(events + out, id) <==> HasDiscarded(out, id)
  {
    assert forall e :: e in events + out <==> e in events || e in out;
    if HasDone(events, id) {
      var e :| e in events && e.Done? && e.id == id;
      assert e in events + out;
    }
    if HasDiscarded(out, id) {
      var e :| e in out && e.Discarded? && e.id == id;
      assert e in events + out;
    }
  }

  /** What the reader is told of an id: that it is done exactly if its first end was readable, and that it is
      discarded exactly if it started outside the good prefix. A started call whose arguments are `null` is
      announced done and then discarded. */
  lemma EventsTell(d: Dialect, chunks: seq<Chunk>, id: string)
    requires d.strict
    ensures var events := Finish(d, RunOf(d, chunks)).events;
            && (HasDone(events, id) <==> Readable(d, chunks, id))
            && (HasDiscarded(events, id) <==> id in Starts(chunks)[GoodPrefix(d, chunks)..])
  {
    RunRefines(d, chunks);
    PrefixesAgree(d, chunks);
    RunEventsFit(d, chunks);
    var s, starts := RunOf(d, chunks), Starts(chunks);
    FinishEvents(d, s);
    assert CallsMatch(s, LivesOf(d, chunks));
    hide RunOf, Starts, CallOf, Finish, HasDone, HasDiscarded, DiscardEvents, SafePrefix, GoodPrefix, CallsMatch;
    var n := SafePrefix(s.states);
    DiscardedState(s.states, starts, n, id);
    EventsOfBoth(s.events, DiscardEvents(s.states[n..]), id);
    DoneIsReadable(s, LivesOf(d, chunks), id);
  }

  lemma DoneIsReadable(s: Assembly, lives: Lives, id: string)
    requires CallsMatch(s, lives) && EventsFit(s.events, s.toolCalls)
    ensures HasDone(s.events, id) <==> lives(id).end.Some? && lives(id).end.value.value.Some?
  {
    if lives(id).end.Some? && lives(id).end.value.value.Some? { ReadableIsDone(s, lives, id); }
    if HasDone(s.events, id) {
      assert HasCall(s.toolCalls, id);
      var tc :| tc in s.toolCalls && tc.id == id;
      assert Ended(lives(tc.id), tc);
    }
  }

  /** So a start whose end carries `null` gets both events, and its call goes with everything after it. */
  lemma NullIsDoneAndDiscarded(d: Dialect, chunks: seq<Chunk>, i: nat)
    requires d.strict && i < |Starts(chunks)|
    requires var end := CallOf(d, Starts(chunks)[i], chunks).end; end.Some? && end.value.value == Some(Null)
    ensures var id, out := Starts(chunks)[i], Finish(d, RunOf(d, chunks));
            && HasDone(out.events, id) && HasDiscarded(out.events, id)
            && forall j: nat | i <= j < |Starts(chunks)| :: forall tc | tc in out.toolCalls ::
               tc.id != Starts(chunks)[j]
  {
    hide Finish, RunOf, Starts, CallOf, Count, HasDone, HasDiscarded, GoodPrefix, Ended;
    var starts, n := Starts(chunks), GoodPrefix(d, chunks);
    EventsTell(d, chunks, starts[i]);
    SurvivorsAreTheGoodPrefix(d, chunks);
    GoodPrefixFits(d, chunks);
    assert !GoodStart(d, chunks, i) && n <= i by { GoodBefore(d, chunks, i); }
    forall j: nat | i <= j < |starts| ensures starts[j] in starts[n..] { assert starts[n..][j - n] == starts[j]; }
  }

  lemma GoodBefore(d: Dialect, chunks: seq<Chunk>, i: nat)
    requires i < |Starts(chunks)|
    ensures i < GoodPrefix(d, chunks) ==> GoodStart(d, chunks, i)
  {
  }

  lemma FinishEvents(d: Dialect, s: Assembly)
    requires d.strict
    ensures Finish(d, s).events == s.events + DiscardEvents(s.states[SafePrefix(s.states)..])
  {
  }

  /** Repeated end chunks never duplicate a call, in either dialect and for any stream at all. */
  lemma {:induction false} NoDuplicateIds(d: Dialect, chunks: seq<Chunk>)
    ensures var s := RunOf(d, chunks);
            DistinctIds(s.toolCalls) && forall tc | tc in s.toolCalls :: tc.id in s.completed
    ensures DistinctIds(Finish(d, RunOf(d, chunks)).toolCalls)
  {
    if |chunks| > 0 {
      NoDuplicateIds(d, chunks[..|chunks| - 1]);
      hide Concat, SafePrefix, IdsOf, Kept;
      var before := RunOf(d, chunks[..|chunks| - 1]);
      EndKeepsDistinct(d, before, chunks[|chunks| - 1]);
    }
    var s := RunOf(d, chunks);
    KeptMeans(s.toolCalls, IdsOf(s.states[SafePrefix(s.states)..]));
  }

  lemma EndKeepsDistinct(d: Dialect, s: Assembly, c: Chunk)
    requires DistinctIds(s.toolCalls) && forall tc | tc in s.toolCalls :: tc.id in s.completed
    ensures var s' := Step(d, s, c);
            DistinctIds(s'.toolCalls) && forall tc | tc in s'.toolCalls :: tc.id in s'.completed
  {
    hide Concat;
    var s1 := if c.isStart then OnStart(s, c) else s;
    var s2 := if c.args != "" && !c.isEnd then OnArgs(s1, c) else s1;
    forall i | 0 <= i < |s2.toolCalls| ensures s2.toolCalls[i].id in s.completed {
      assert s.toolCalls[i] in s.toolCalls;
    }
  }

  /** The smallest escape: one end chunk whose id never started. */
  lemma EndWithoutStartSurvives(d: Dialect, id: string, name: string)
    requires d.strict && id != ""
    ensures var chunks := [Chunk(id, name, false, "", true)];
            && Starts(chunks) == [] && Loose(d, chunks, id) && !PrefixRule(d, chunks)
            && ToolCall(id, name, NO_ARGUMENTS) in Finish(d, RunOf(d, chunks)).toolCalls
  {
    var c := Chunk(id, name, false, "", true);
    var chunks := [c];
    assert chunks[..0] == [] && chunks[0] == c;
    assert Starts(chunks[..0]) == [] && CallOf(d, id, chunks[..0]) == UNTOUCHED;
    hide Finish, RunOf, GoodPrefix;
    SurvivorsAreTheGoodPrefix(d, chunks);
    GoodPrefixFits(d, chunks);
    assert Survives(d, chunks, ToolCall(id, name, NO_ARGUMENTS));
    PrefixRuleIff(d, chunks);
  }
}
