/** The coalescing bridge between the agent's event stream and a bounded queue.
    Every produced event is accounted for once, in production order. */
module Bridge {
  import opened Wrappers
  import opened Text

  datatype Channel = TextChannel | ReasoningChannel

  datatype Event =
    | Delta(channel: Channel, text: string)
    | RecoveryStart(discardReasoning: bool)
    | Control(name: string)
    | Other(name: string)

  datatype Item = Carries(event: Event) | Sentinel

  /** What became of the produced events `from..to`. */
  datatype Fate =
    | Delivered(event: Event, from: nat, to: nat)
    | TimedOut(event: Event, from: nat, to: nat)
    | Discarded(from: nat, to: nat)

  // ---------------------------------------------------------------- merging

  /** Only deltas of one channel. */
  ghost predicate AllOn(channel: Channel, es: seq<Event>) {
    forall e | e in es :: e.Delta? && e.channel == channel
  }

  function Joined(es: seq<Event>): string {
    if |es| == 0 then "" else (if es[0].Delta? then es[0].text else "") + Joined(es[1..])
  }

  /** `e` stands for exactly the events `es`. */
  ghost predicate Merges(es: seq<Event>, e: Event) {
    es == [e] || (e.Delta? && |es| > 0 && AllOn(e.channel, es) && e.text == Joined(es))
  }

  /** A fate is right about the events it speaks of. */
  ghost predicate Faithful(produced: seq<Event>, f: Fate) {
    && f.from < f.to <= |produced|
    && match f
       case Delivered(e, i, j) => Merges(produced[i..j], e)
       case TimedOut(e, i, j) => Merges(produced[i..j], e)
       case Discarded(i, j) =>
         AllOn(ReasoningChannel, produced[i..j]) && j < |produced| && produced[j] == RecoveryStart(true)
  }

  /** The fates cover the first `upto` events, once each and in order. */
  ghost predicate Accounts(produced: seq<Event>, fates: seq<Fate>, upto: nat)
    decreases |fates|
  {
    if |fates| == 0 then upto == 0
    else
      var f := fates[|fates| - 1];
      f.to == upto && Faithful(produced, f) && Accounts(produced, fates[..|fates| - 1], f.from)
  }

  /** The buffered texts are the last produced events, all on the pending channel. */
  ghost predicate Buffers(produced: seq<Event>, channel: Option<Channel>, buffer: seq<string>) {
    && |buffer| <= |produced|
    && (buffer != [] ==>
        && channel.Some?
        && produced[|produced| - |buffer|..] == Deltas(channel.value, buffer))
  }

  ghost function Deltas(channel: Channel, texts: seq<string>): (es: seq<Event>)
    ensures |es| == |texts|
  {
    seq(|texts|, k requires 0 <= k < |texts| => Delta(channel, texts[k]))
  }

  function DeliveredEvents(fates: seq<Fate>): seq<Event> {
    if |fates| == 0 then []
    else
      var f := fates[|fates| - 1];
      DeliveredEvents(fates[..|fates| - 1]) + if f.Delivered? then [f.event] else []
  }

  function Carried(events: seq<Event>): (items: seq<Item>)
    ensures |items| == |events|
  {
    seq(|events|, k requires 0 <= k < |events| => Carries(events[k]))
  }

  // ---------------------------------------------------------------- accounting steps

  lemma SnocLast<T>(s: seq<T>, x: T)
    ensures (s + [x])[..|s + [x]| - 1] == s && (s + [x])[|s|] == x
  {
  }

  lemma {:induction false} AccountsGrows(produced: seq<Event>, e: Event, fates: seq<Fate>, upto: nat)
    requires Accounts(produced, fates, upto)
    ensures Accounts(produced + [e], fates, upto)
    decreases |fates|
  {
    if |fates| > 0 {
      var f := fates[|fates| - 1];
      CutInFirstRange(produced, [e], f.from, f.to);
      AccountsGrows(produced, e, fates[..|fates| - 1], f.from);
    }
  }

  lemma CutInFirstRange<T>(a: seq<T>, b: seq<T>, i: nat, j: nat)
    requires i <= j <= |a|
    ensures (a + b)[i..j] == a[i..j]
  {
  }

  lemma AccountOne(produced: seq<Event>, fates: seq<Fate>, f: Fate)
    requires Accounts(produced, fates, f.from) && Faithful(produced, f)
    ensures Accounts(produced, fates + [f], f.to)
  {
    SnocLast(fates, f);
  }

  lemma DeliveredSnoc(fates: seq<Fate>, f: Fate)
    ensures DeliveredEvents(fates + [f]) == DeliveredEvents(fates) + if f.Delivered? then [f.event] else []
  {
    SnocLast(fates, f);
  }

  lemma {:induction false} JoinedDeltas(channel: Channel, texts: seq<string>)
    ensures Joined(Deltas(channel, texts)) == Concat(texts)
  {
    if |texts| > 0 {
      JoinedDeltas(channel, texts[1..]);
      assert Deltas(channel, texts)[1..] == Deltas(channel, texts[1..]);
    }
  }

  lemma DeltasMerge(channel: Channel, texts: seq<string>)
    requires |texts| > 0
    ensures Merges(Deltas(channel, texts), Delta(channel, Concat(texts)))
  {
    JoinedDeltas(channel, texts);
  }

  lemma BufferMore(produced: seq<Event>, channel: Channel, buffer: seq<string>, text: string)
    requires Buffers(produced, Some(channel), buffer)
    ensures Buffers(produced + [Delta(channel, text)], Some(channel), buffer + [text])
  {
    var d := Delta(channel, text);
    assert Deltas(channel, buffer + [text]) == Deltas(channel, buffer) + [d];
    var from := |produced| - |buffer|;
    CutInFirst(produced, [d], from);
    if buffer == [] { assert produced[from..] == []; }
  }

  lemma BufferHandled(produced: seq<Event>, pending: Option<Channel>, buffer: seq<string>, channel: Channel,
      text: string)
    requires produced != [] && produced[|produced| - 1] == Delta(channel, text)
    requires Buffers(produced[..|produced| - 1], pending, buffer) && (pending == None || pending == Some(channel))
    ensures Buffers(produced, Some(channel), buffer + [text])
  {
    BufferOnChannel(produced[..|produced| - 1], pending, buffer, channel);
    BufferMore(produced[..|produced| - 1], channel, buffer, text);
    InitAndLast(produced);
  }

  /** Emitting the buffer as one event, one way or the other. */
  lemma FlushFate(produced: seq<Event>, channel: Channel, buffer: seq<string>, from: nat, to: nat)
    requires buffer != [] && from + |buffer| == to <= |produced|
    requires produced[from..to] == Deltas(channel, buffer)
    ensures Faithful(produced, Delivered(Delta(channel, Concat(buffer)), from, to))
    ensures Faithful(produced, TimedOut(Delta(channel, Concat(buffer)), from, to))
  {
    DeltasMerge(channel, buffer);
  }

  // ---------------------------------------------------------------- the runner

  class BackgroundAgentRunner {
    const capacity: nat

    var queue: seq<Item>
    var pendingType: Option<Channel>
    var pendingBuffer: seq<string>

    ghost var consumed: seq<Item>
    ghost var produced: seq<Event>
    ghost var fates: seq<Fate>

    /** Everything ever enqueued is what the fates call delivered. */
    ghost predicate Enqueued()
      reads this`queue, this`consumed, this`fates
    {
      consumed + queue == Carried(DeliveredEvents(fates))
    }

    ghost predicate Valid()
      reads this
    {
      && |queue| <= capacity
      && Enqueued()
      && Buffers(produced, pendingType, pendingBuffer)
      && Accounts(produced, fates, |produced| - |pendingBuffer|)
    }

    constructor (capacity: nat)
      requires capacity > 0
      ensures Valid() && this.capacity == capacity
      ensures produced == [] && fates == [] && consumed == [] && queue == [] && pendingBuffer == []
    {
      this.capacity := capacity;
      queue, pendingType, pendingBuffer := [], None, [];
      consumed, produced, fates := [], [], [];
    }

    /** The consumer takes any number of items, at any time. */
    method Consume()
      requires |queue| <= capacity
      modifies this`queue, this`consumed
      ensures |queue| <= capacity && |queue| <= |old(queue)|
      ensures consumed + queue == old(consumed) + old(queue)
      ensures old(consumed) <= consumed
      ensures old(Enqueued()) ==> Enqueued()
    {
      var n: nat :| n <= |queue|;
      ConsumeSplit(consumed, queue, n);
      consumed := consumed + queue[..n];
      queue := queue[n..];
    }

    /** A bounded put: it gives up only on a queue that is still full. */
    method Put(event: Event, ghost from: nat, ghost to: nat) returns (ok: bool)
      requires |queue| <= capacity && Enqueued()
      requires Accounts(produced, fates, from)
      requires Faithful(produced, Delivered(event, from, to)) && Faithful(produced, TimedOut(event, from, to))
      modifies this`queue, this`consumed, this`fates
      ensures |queue| <= capacity && Enqueued()
      ensures Accounts(produced, fates, to)
      ensures fates == old(fates) + [if ok then Delivered(event, from, to) else TimedOut(event, from, to)]
      ensures !ok ==> |queue| == capacity
    {
      hide Accounts, Faithful, DeliveredEvents;
      Consume();
      DeliveredSnoc(fates, Delivered(event, from, to));
      DeliveredSnoc(fates, TimedOut(event, from, to));
      AccountOne(produced, fates, Delivered(event, from, to));
      AccountOne(produced, fates, TimedOut(event, from, to));
      ok := |queue| < capacity;
      if ok {
        EnqueueOne(consumed, queue, DeliveredEvents(fates), event);
        queue := queue + [Carries(event)];
        fates := fates + [Delivered(event, from, to)];
      } else {
        fates := fates + [TimedOut(event, from, to)];
        AppendNone(DeliveredEvents(old(fates)));
      }
    }

    /** The bridge is handling the event produced last. */
    ghost predicate Handling()
      reads this
    {
      && |queue| <= capacity && produced != []
      && Enqueued()
      && Buffers(produced[..|produced| - 1], pendingType, pendingBuffer)
      && Accounts(produced, fates, |produced| - 1 - |pendingBuffer|)
    }

    /** Emit the buffered deltas as one event, while a later event is being handled. */
    method FlushPending()
      requires Handling()
      modifies this`queue, this`consumed, this`fates, this`pendingType, this`pendingBuffer
      ensures Handling()
      ensures pendingType == None && pendingBuffer == []
      ensures old(pendingBuffer) == [] ==> fates == old(fates)
      ensures old(pendingBuffer) != [] ==>
              var to := |produced| - 1;
              var from := to - |old(pendingBuffer)|;
              var e := Delta(old(pendingType).value, Concat(old(pendingBuffer)));
              fates == old(fates) + [Delivered(e, from, to)] || fates == old(fates) + [TimedOut(e, from, to)]
    {
      hide Accounts, DeliveredEvents, Faithful, Enqueued;
      if pendingBuffer != [] {
        ghost var to := |produced| - 1;
        ghost var from := to - |pendingBuffer|;
        TakeThenDrop(produced, from, to);
        FlushFate(produced, pendingType.value, pendingBuffer, from, to);
        var _ := Put(Delta(pendingType.value, Concat(pendingBuffer)), from, to);
        pendingBuffer := [];
      }
      pendingType := None;
    }

    /** The handled delta follows the buffered ones on its own channel. */
    ghost predicate HandlingDelta(channel: Channel, text: string)
      reads this
    {
      && |queue| <= capacity && Enqueued()
      && pendingType == Some(channel)
      && Buffers(produced, pendingType, pendingBuffer + [text])
      && Accounts(produced, fates, |produced| - |pendingBuffer| - 1)
    }

    /** Deliver the handled delta at once, together with anything buffered. */
    method DeliverDelta(channel: Channel, text: string)
      requires HandlingDelta(channel, text) && |queue| < capacity
      modifies this`queue, this`consumed, this`fates, this`pendingType, this`pendingBuffer
      ensures Valid() && pendingBuffer == []
      ensures Extends(old(fates), fates) && NoDiscard(old(fates), fates)
      ensures old(pendingBuffer) == []
              ==> fates == old(fates) + [Delivered(Delta(channel, text), |produced| - 1, |produced|)]
    {
      hide Accounts, DeliveredEvents, Enqueued, Faithful, Concat;
      ghost var from, to := |produced| - |pendingBuffer| - 1, |produced|;
      BufferedSlice(produced, channel, pendingBuffer + [text], from);
      FlushFate(produced, channel, pendingBuffer + [text], from, to);
      var event := Delta(channel, text);
      if pendingBuffer != [] {
        event := Delta(channel, Concat(pendingBuffer + [text]));
        pendingBuffer := [];
        pendingType := None;
      } else {
        ConcatOne(text);
        assert [] + [text] == [text];
      }
      PutNow(event, from, to);
      NothingBuffered(produced, pendingType);
    }

    /** A delta: pass it on while the queue has room, buffer it when the queue is full. */
    method OnDelta(channel: Channel, text: string)
      requires Handling() && produced[|produced| - 1] == Delta(channel, text)
      modifies this`queue, this`consumed, this`fates, this`pendingType, this`pendingBuffer
      ensures Valid()
      ensures pendingBuffer != [] ==> pendingType == Some(channel)
      ensures Extends(old(fates), fates) && NoDiscard(old(fates), fates)
    {
      hide Accounts, DeliveredEvents, Enqueued, Faithful, Buffers;
      if pendingType != None && pendingType != Some(channel) {
        FlushPending();
      }
      BufferHandled(produced, pendingType, pendingBuffer, channel, text);
      pendingType := Some(channel);
      Consume();
      if |queue| == capacity {
        // A full queue: keep the text and send it merged later.
        pendingBuffer := pendingBuffer + [text];
      } else {
        // Room in the queue: send it with whatever is pending.
        DeliverDelta(channel, text);
      }
    }

    /** The recovery boundary: drop buffered reasoning when told to, otherwise flush. */
    method OnRecoveryStart(discard: bool)
      requires Handling() && produced[|produced| - 1] == RecoveryStart(discard)
      modifies this`queue, this`consumed, this`fates, this`pendingType, this`pendingBuffer
      ensures Valid() && pendingBuffer == []
      ensures Extends(old(fates), fates)
      ensures !discard ==> NoDiscard(old(fates), fates)
    {
      hide Accounts, DeliveredEvents, Faithful;
      if discard && pendingType == Some(ReasoningChannel) {
        ghost var to := |produced| - 1;
        ghost var from := to - |pendingBuffer|;
        if pendingBuffer != [] {
          TakeThenDrop(produced, from, to);
          DiscardFate(produced, pendingBuffer, from, to);
          AccountOne(produced, fates, Discarded(from, to));
          DeliveredSnoc(fates, Discarded(from, to));
          AppendNone(DeliveredEvents(fates));
          DiscardKeepsQueue(consumed, queue, fates, Discarded(from, to));
          fates := fates + [Discarded(from, to)];
        }
        pendingBuffer := [];
        pendingType := None;
      } else {
        FlushPending();
      }
      PutHandled(RecoveryStart(discard));
    }

    /** Any other event: flush first, then a bounded put. */
    method OnOther(event: Event)
      requires Handling() && produced[|produced| - 1] == event && !event.Delta?
      modifies this`queue, this`consumed, this`fates, this`pendingType, this`pendingBuffer
      ensures Valid() && pendingBuffer == []
      ensures Extends(old(fates), fates) && NoDiscard(old(fates), fates)
    {
      FlushPending();
      PutHandled(event);
    }

    /** The handled event itself, put with a timeout. */
    method PutHandled(event: Event)
      requires Handling() && pendingBuffer == [] && produced[|produced| - 1] == event
      modifies this`queue, this`consumed, this`fates
      ensures Valid()
      ensures Extends(old(fates), fates) && NoDiscard(old(fates), fates)
    {
      hide Accounts, DeliveredEvents, Enqueued, Faithful;
      ghost var n := |produced| - 1;
      OneEventFate(produced, n);
      var _ := Put(event, n, n + 1);
      NothingBuffered(produced, pendingType);
    }

    /** One event of the agent's stream. */
    method Handle(event: Event)
      requires Valid()
      modifies this
      ensures Valid() && produced == old(produced) + [event]
      ensures !event.Delta? ==> pendingBuffer == []
      ensures Extends(old(fates), fates)
      ensures event != RecoveryStart(true) ==> NoDiscard(old(fates), fates)
    {
      hide Accounts, Buffers, Enqueued, DeliveredEvents;
      BufferBound(produced, pendingType, pendingBuffer);
      AccountsGrows(produced, event, fates, |produced| - |pendingBuffer|);
      SnocLast(produced, event);
      produced := produced + [event];
      match event
      case Delta(channel, text) => OnDelta(channel, text);
      case RecoveryStart(discard) => OnRecoveryStart(discard);
      case Control(_) => OnOther(event);
      case Other(_) => OnOther(event);
    }

    /** An unbounded put into a queue that was seen with room: nobody else adds to it. */
    method PutNow(event: Event, ghost from: nat, ghost to: nat)
      requires |queue| < capacity && Enqueued()
      requires Accounts(produced, fates, from) && Faithful(produced, Delivered(event, from, to))
      modifies this`queue, this`consumed, this`fates
      ensures |queue| <= capacity && Enqueued()
      ensures Accounts(produced, fates, to)
      ensures fates == old(fates) + [Delivered(event, from, to)]
    {
      hide Accounts, Faithful, DeliveredEvents;
      Consume();
      DeliveredSnoc(fates, Delivered(event, from, to));
      AccountOne(produced, fates, Delivered(event, from, to));
      EnqueueOne(consumed, queue, DeliveredEvents(fates), event);
      queue := queue + [Carries(event)];
      fates := fates + [Delivered(event, from, to)];
    }

    /** The whole stream; `raised` when the agent's generator failed after `events`.
        Nothing flushes a buffer that is still pending when the generator just returns. */
    method Run(events: seq<Event>, raised: Option<string>) returns (sentinelSent: bool)
      requires Valid()
      modifies this
      ensures produced == old(produced) + events + if raised.Some? then [Control(raised.value)] else []
      ensures Buffers(produced, pendingType, pendingBuffer)
      ensures Accounts(produced, fates, |produced| - |pendingBuffer|)
      ensures consumed + queue == Carried(DeliveredEvents(fates)) + if sentinelSent then [Sentinel] else []
      ensures raised.Some? || (events != [] && !events[|events| - 1].Delta?) ==> pendingBuffer == []
      ensures Extends(old(fates), fates)
      ensures RecoveryStart(true) !in events ==> NoDiscard(old(fates), fates)
    {
      hide Accounts, Buffers, Enqueued, DeliveredEvents;
      var i := 0;
      AppendNone(produced);
      while i < |events|
        invariant i <= |events| && Valid()
        invariant produced == old(produced) + events[..i]
        invariant i > 0 && !events[i - 1].Delta? ==> pendingBuffer == []
        invariant Extends(old(fates), fates)
        invariant RecoveryStart(true) !in events[..i] ==> NoDiscard(old(fates), fates)
      {
        TakeOneMore(old(produced), events, i);
        Handle(events[i]);
        i := i + 1;
      }
      TakeAll(events);
      AppendNone(old(produced) + events);
      if raised.Some? {
        Handle(Control(raised.value));
      }
      Consume();
      sentinelSent := |queue| < capacity;
      SentinelLast(consumed, queue);
      AppendNone(Carried(DeliveredEvents(fates)));
      EnqueuedMeans();
      if sentinelSent { queue := queue + [Sentinel]; }
    }

    lemma EnqueuedMeans()
      requires Enqueued()
      ensures consumed + queue == Carried(DeliveredEvents(fates))
    {
    }
  }

  /** The fates only grow. */
  ghost predicate Extends(before: seq<Fate>, after: seq<Fate>) {
    before <= after
  }

  /** Nothing was discarded since `before`. */
  ghost predicate NoDiscard(before: seq<Fate>, after: seq<Fate>) {
    forall k | |before| <= k < |after| :: !after[k].Discarded?
  }

  lemma TakeThenDrop<T>(s: seq<T>, from: nat, to: nat)
    requires from <= to <= |s|
    ensures s[..to][from..] == s[from..to]
  {
  }

  lemma InitAndLast<T>(s: seq<T>)
    requires s != []
    ensures s[..|s| - 1] + [s[|s| - 1]] == s
  {
  }

  lemma TakeOneMore(before: seq<Event>, events: seq<Event>, i: nat)
    requires i < |events|
    ensures before + events[..i + 1] == before + events[..i] + [events[i]]
    ensures RecoveryStart(true) !in events[..i + 1]
            ==> RecoveryStart(true) !in events[..i] && events[i] != RecoveryStart(true)
  {
    assert events[..i + 1] == events[..i] + [events[i]];
  }

  lemma TakeAll<T>(s: seq<T>)
    ensures s[..|s|] == s
  {
  }

  lemma SentinelLast(consumed: seq<Item>, queue: seq<Item>)
    ensures consumed + (queue + [Sentinel]) == consumed + queue + [Sentinel]
  {
  }

  lemma ConcatOne(text: string)
    ensures Concat([text]) == text
  {
    assert [text][1..] == [] && Concat<char>([]) == [];
    AppendNone(text);
  }

  lemma BufferedSlice(produced: seq<Event>, channel: Channel, buffer: seq<string>, from: nat)
    requires Buffers(produced, Some(channel), buffer) && buffer != [] && from + |buffer| == |produced|
    ensures produced[from..|produced|] == Deltas(channel, buffer)
  {
  }

  lemma DiscardFate(produced: seq<Event>, buffer: seq<string>, from: nat, to: nat)
    requires buffer != [] && from + |buffer| == to < |produced|
    requires produced[from..to] == Deltas(ReasoningChannel, buffer) && produced[to] == RecoveryStart(true)
    ensures Faithful(produced, Discarded(from, to))
  {
  }

  lemma DiscardKeepsQueue(consumed: seq<Item>, queue: seq<Item>, fates: seq<Fate>, f: Fate)
    requires consumed + queue == Carried(DeliveredEvents(fates)) && f.Discarded?
    ensures consumed + queue == Carried(DeliveredEvents(fates + [f]))
  {
    DeliveredSnoc(fates, f);
    AppendNone(DeliveredEvents(fates));
  }

  lemma OneEventFate(produced: seq<Event>, n: nat)
    requires n < |produced|
    ensures Faithful(produced, Delivered(produced[n], n, n + 1)) && Faithful(produced, TimedOut(produced[n], n, n + 1))
  {
    assert produced[n..n + 1] == [produced[n]];
  }

  lemma ConsumeSplit(consumed: seq<Item>, queue: seq<Item>, n: nat)
    requires n <= |queue|
    ensures consumed + queue[..n] + queue[n..] == consumed + queue
  {
  }

  lemma EnqueueOne(consumed: seq<Item>, queue: seq<Item>, events: seq<Event>, event: Event)
    requires consumed + queue == Carried(events)
    ensures consumed + (queue + [Carries(event)]) == Carried(events + [event])
  {
    assert Carried(events + [event]) == Carried(events) + [Carries(event)];
  }

  lemma AppendNone<T>(s: seq<T>)
    ensures s + [] == s
  {
  }

  lemma NothingBuffered(produced: seq<Event>, channel: Option<Channel>)
    ensures Buffers(produced, channel, [])
  {
  }

  lemma BufferBound(produced: seq<Event>, channel: Option<Channel>, buffer: seq<string>)
    requires Buffers(produced, channel, buffer)
    ensures |buffer| <= |produced|
  {
  }

  lemma BufferOnChannel(produced: seq<Event>, pending: Option<Channel>, buffer: seq<string>, channel: Channel)
    requires Buffers(produced, pending, buffer) && (pending == None || pending == Some(channel))
    ensures Buffers(produced, Some(channel), buffer)
  {
  }

  // ---------------------------------------------------------------- conservation

  /** The smallest parts of a stream: characters on a channel, and whole other events. */
  datatype Atom = Char(channel: Channel, c: char) | Mark(event: Event)

  function AtomsOf(e: Event): seq<Atom> {
    match e
    case Delta(channel, text) => seq(|text|, k requires 0 <= k < |text| => Char(channel, text[k]))
    case _ => [Mark(e)]
  }

  /** A stream up to merging of adjacent deltas of one channel. */
  function Atoms(es: seq<Event>): seq<Atom> {
    if |es| == 0 then [] else AtomsOf(es[0]) + Atoms(es[1..])
  }

  lemma {:induction false} AtomsAppend(a: seq<Event>, b: seq<Event>)
    ensures Atoms(a + b) == Atoms(a) + Atoms(b)
  {
    hide AtomsOf;
    if |a| == 0 {
      assert a + b == b;
    } else {
      AtomsAppend(a[1..], b);
      CutInFirst(a, b, 1);
      AppendAssociative(AtomsOf(a[0]), Atoms(a[1..]), Atoms(b));
    }
  }

  lemma AtomsOne(e: Event)
    ensures Atoms([e]) == AtomsOf(e)
  {
    hide AtomsOf;
    assert [e][1..] == [];
    AppendNone(AtomsOf(e));
  }

  lemma AtomsOfText(channel: Channel, s: string, t: string)
    ensures AtomsOf(Delta(channel, s)) + AtomsOf(Delta(channel, t)) == AtomsOf(Delta(channel, s + t))
  {
  }

  lemma {:induction false} AtomsJoined(channel: Channel, es: seq<Event>)
    requires AllOn(channel, es)
    ensures Atoms(es) == AtomsOf(Delta(channel, Joined(es)))
  {
    if |es| > 0 {
      assert es[0] in es;
      assert AllOn(channel, es[1..]);
      AtomsJoined(channel, es[1..]);
      AtomsOfText(channel, es[0].text, Joined(es[1..]));
    }
  }

  /** Merging keeps every character, on its channel and in its place. */
  lemma MergeKeepsAtoms(es: seq<Event>, e: Event)
    requires Merges(es, e)
    ensures Atoms(es) == AtomsOf(e)
  {
    hide AtomsOf, Atoms;
    if es == [e] { AtomsOne(e); } else { AtomsJoined(e.channel, es); }
  }

  /** What a fate accounts for, as a stream. */
  ghost function FateAtoms(produced: seq<Event>, f: Fate): seq<Atom>
    requires f.from <= f.to <= |produced|
  {
    match f
    case Delivered(e, _, _) => AtomsOf(e)
    case TimedOut(e, _, _) => AtomsOf(e)
    case Discarded(i, j) => Atoms(produced[i..j])
  }

  ghost function AllFateAtoms(produced: seq<Event>, fates: seq<Fate>, upto: nat): seq<Atom>
    requires Accounts(produced, fates, upto)
    decreases |fates|
  {
    if |fates| == 0 then []
    else
      var f := fates[|fates| - 1];
      AllFateAtoms(produced, fates[..|fates| - 1], f.from) + FateAtoms(produced, f)
  }

  lemma FateIsItsSlice(produced: seq<Event>, f: Fate)
    requires Faithful(produced, f)
    ensures FateAtoms(produced, f) == Atoms(produced[f.from..f.to])
  {
    hide AtomsOf, Atoms, Merges;
    match f
    case Delivered(e, i, j) => MergeKeepsAtoms(produced[i..j], e);
    case TimedOut(e, i, j) => MergeKeepsAtoms(produced[i..j], e);
    case Discarded(_, _) =>
  }

  /** Conservation: what was produced is exactly what was delivered, timed out or discarded, in order. */
  lemma {:induction false} StreamIsConserved(produced: seq<Event>, fates: seq<Fate>, upto: nat)
    requires Accounts(produced, fates, upto)
    ensures upto <= |produced| && Atoms(produced[..upto]) == AllFateAtoms(produced, fates, upto)
    decreases |fates|
  {
    hide AtomsOf, Atoms, Faithful;
    if |fates| == 0 {
      assert Atoms(produced[..0]) == [] by { NoAtoms(produced); }
    } else {
      var f := fates[|fates| - 1];
      FaithfulBounds(produced, f);
      StreamIsConserved(produced, fates[..|fates| - 1], f.from);
      FateIsItsSlice(produced, f);
      assert produced[..upto] == produced[..f.from] + produced[f.from..upto];
      AtomsAppend(produced[..f.from], produced[f.from..upto]);
    }
  }

  lemma NoAtoms(produced: seq<Event>)
    ensures Atoms(produced[..0]) == []
  {
  }

  lemma FaithfulBounds(produced: seq<Event>, f: Fate)
    requires Faithful(produced, f)
    ensures f.from < f.to <= |produced|
  {
  }

  /** Without time-outs and discards the consumer's stream is the produced one, up to merging. */
  lemma {:induction false} NothingLostNothingReordered(produced: seq<Event>, fates: seq<Fate>, upto: nat)
    requires Accounts(produced, fates, upto)
    requires forall f | f in fates :: f.Delivered?
    ensures upto <= |produced| && Atoms(DeliveredEvents(fates)) == Atoms(produced[..upto])
    decreases |fates|
  {
    hide AtomsOf, Faithful;
    if |fates| > 0 {
      var f := fates[|fates| - 1];
      var init := fates[..|fates| - 1];
      FaithfulBounds(produced, f);
      NothingLostNothingReordered(produced, init, f.from);
      FateIsItsSlice(produced, f);
      AtomsOne(f.event);
      AtomsAppend(DeliveredEvents(init), [f.event]);
      assert produced[..upto] == produced[..f.from] + produced[f.from..upto];
      AtomsAppend(produced[..f.from], produced[f.from..upto]);
    }
  }

  /** Every accounted event has one fate, and fates follow production order. */
  lemma {:induction false} EachEventOnce(produced: seq<Event>, fates: seq<Fate>, upto: nat, n: nat)
      returns (k: nat)
    requires Accounts(produced, fates, upto) && n < upto
    ensures k < |fates| && fates[k].from <= n < fates[k].to
    ensures forall j | 0 <= j < k :: fates[j].to <= n
    ensures forall j | k < j < |fates| :: n < fates[j].from
    decreases |fates|
  {
    hide Merges, AllOn;
    var last := |fates| - 1;
    var f := fates[last];
    FatesBelow(produced, fates[..last], f.from);
    if f.from <= n {
      k := last;
    } else {
      k := EachEventOnce(produced, fates[..last], f.from, n);
      forall j | k < j < |fates| ensures n < fates[j].from {
        if j < last { assert fates[j] == fates[..last][j]; }
      }
    }
  }

  lemma {:induction false} FatesBelow(produced: seq<Event>, fates: seq<Fate>, upto: nat)
    requires Accounts(produced, fates, upto)
    ensures forall f | f in fates :: f.to <= upto
    decreases |fates|
  {
    hide Merges, AllOn;
    if |fates| > 0 {
      FatesBelow(produced, fates[..|fates| - 1], fates[|fates| - 1].from);
    }
  }
}
