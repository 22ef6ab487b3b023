/** What reaches the guard's two channels: one drained fragment, and a whole turn of text deltas
    with the provider's own reasoning between them. */
module Routes {
  import opened Wrappers
  import opened Text
  import opened ThinkTags

  /** Both channels, the mode and the text held back. */
  datatype Channels = Channels(reasoning: string, visible: string, thinking: bool, held: string)
  {
    /** Text goes to the channel of the current mode. */
    function Emit(text: string): Channels {
      this.(reasoning := reasoning + if thinking then text else "", visible := visible + if thinking then "" else text)
    }
  }

  ghost function Route(final: bool, thinking: bool, pending: string): Routing {
    if final then Scan(thinking, pending) else Drain(thinking, pending)
  }

  /** `r` sent on top of the channels. */
  function Sent(c: Channels, r: Routing): Channels {
    Channels(c.reasoning + r.reasoning, c.visible + r.visible, r.thinking, r.held)
  }

  lemma AppendNothing<T>(s: seq<T>)
    ensures s + [] == s && [] + s == s
  {
  }

  lemma NothingSent(c: Channels)
    ensures Sent(c, Routing("", "", c.thinking, c.held)) == c
  {
    AppendNothing(c.reasoning);
    AppendNothing(c.visible);
  }

  /** Emitting one span and then sending the rest sends both. */
  lemma EmitThenSend(c: Channels, text: string, rest: Routing)
    ensures Sent(c.Emit(text), rest) == Sent(c, rest.Prepend(c.thinking, text))
  {
    if c.thinking {
      AppendAssociative(c.reasoning, text, rest.reasoning);
      AppendNothing(c.visible);
    } else {
      AppendAssociative(c.visible, text, rest.visible);
      AppendNothing(c.reasoning);
    }
  }

  lemma RouteAtTag(final: bool, thinking: bool, pending: string, i: nat)
    requires Find(pending, Tag(thinking), 0) == Some(i)
    ensures Route(final, thinking, pending)
         == Route(final, !thinking, pending[i + |Tag(thinking)|..]).Prepend(thinking, pending[..i])
  {
    hide Find, Tag, Scan, Drain;
    ScanAtTag(thinking, pending, i);
    DrainAtTag(thinking, pending, i);
  }

  lemma RouteRestFinal(thinking: bool, pending: string)
    requires Find(pending, Tag(thinking), 0) == None
    ensures Route(true, thinking, pending) == Routing("", "", thinking, "").Prepend(thinking, pending)
  {
    ScanNoTag(thinking, pending);
  }

  lemma RouteRestHeld(thinking: bool, pending: string)
    requires Find(pending, Tag(thinking), 0) == None
    ensures var cut := |pending| - HoldLength(pending, Tag(thinking));
            Route(false, thinking, pending)
                == Routing("", "", thinking, pending[cut..]).Prepend(thinking, pending[..cut])
  {
    DrainNoTag(thinking, pending);
  }

  lemma RouteNothing(final: bool, thinking: bool)
    ensures Route(final, thinking, "") == Routing("", "", thinking, "")
  {
    hide Find, Tag, Scan, Drain;
    assert Find("", Tag(thinking), 0) == None by { NoTagInNothing(thinking); }
    DrainNothing(thinking);
    ScanNoTag(thinking, "");
  }

  lemma NoTagInNothing(thinking: bool)
    ensures Find("", Tag(thinking), 0) == None
  {
  }

  lemma {:induction false} ScanHoldsNothing(thinking: bool, text: string)
    ensures Scan(thinking, text).held == ""
    decreases |text|
  {
    hide Find, Tag, Scan;
    var m := Find(text, Tag(thinking), 0);
    if m.Some? {
      ScanHoldsNothing(!thinking, text[m.value + |Tag(thinking)|..]);
      ScanAtTag(thinking, text, m.value);
    } else {
      ScanNoTag(thinking, text);
    }
  }

  // ---------------------------------------------------------------- a whole turn

  /** What the loop tells the guard, chunk by chunk; `Checked` is its look at the trigger. A chunk that
      ends a call twice, or with unreadable arguments, is left before that look. */
  datatype Signal = TextDelta(text: string) | ReasoningDelta(text: string) | ToolCallStart | Checked

  ghost function Receive(c: Channels, s: Signal): Channels {
    match s
    case TextDelta(text) => if text == "" then c else Sent(c, Drain(c.thinking, c.held + text))
    case ReasoningDelta(text) => c.(reasoning := c.reasoning + text)
    case ToolCallStart => c
    case Checked => c
  }

  ghost function ReceiveAll(c: Channels, signals: seq<Signal>): Channels {
    if |signals| == 0 then c
    else Receive(ReceiveAll(c, signals[..|signals| - 1]), signals[|signals| - 1])
  }

  /** The stream ended: what is held is routed too. */
  function Ended(c: Channels): Channels {
    Sent(c, Scan(c.thinking, c.held))
  }

  lemma ReceiveNothing(c: Channels, signals: seq<Signal>)
    ensures ReceiveAll(c, signals[..0]) == c
  {
  }

  lemma ReceiveOneMore(c: Channels, signals: seq<Signal>, s: Signal)
    ensures ReceiveAll(c, signals + [s]) == Receive(ReceiveAll(c, signals), s)
  {
    assert (signals + [s])[..|signals|] == signals;
  }

  /** The provider's text, and its own reasoning. */
  function Texts(signals: seq<Signal>): string {
    if |signals| == 0 then "" else
      var s := signals[|signals| - 1];
      Texts(signals[..|signals| - 1]) + if s.TextDelta? then s.text else ""
  }

  function OwnReasoning(signals: seq<Signal>): string {
    if |signals| == 0 then "" else
      var s := signals[|signals| - 1];
      OwnReasoning(signals[..|signals| - 1]) + if s.ReasoningDelta? then s.text else ""
  }

  /** A stretch of the reasoning channel: from inside the text, or the provider's own. */
  datatype Stretch = Stretch(inText: bool, text: string)

  function Joined(ps: seq<Stretch>): string {
    if |ps| == 0 then "" else Joined(ps[..|ps| - 1]) + ps[|ps| - 1].text
  }

  function OfKind(ps: seq<Stretch>, inText: bool): string {
    if |ps| == 0 then "" else
      var p := ps[|ps| - 1];
      OfKind(ps[..|ps| - 1], inText) + if p.inText == inText then p.text else ""
  }

  /** `r` is `a` and `b` woven together, each in its own order. */
  ghost predicate Woven(r: string, a: string, b: string) {
    exists ps: seq<Stretch> :: Joined(ps) == r && OfKind(ps, true) == a && OfKind(ps, false) == b
  }

  lemma WeaveOneMore(r: string, a: string, b: string, inText: bool, text: string)
    requires Woven(r, a, b)
    ensures inText ==> Woven(r + text, a + text, b)
    ensures !inText ==> Woven(r + text, a, b + text)
  {
    var ps :| Joined(ps) == r && OfKind(ps, true) == a && OfKind(ps, false) == b;
    var p := Stretch(inText, text);
    var more := ps + [p];
    assert more[..|more| - 1] == ps && more[|more| - 1] == p;
    AppendNothing(a);
    AppendNothing(b);
    assert Joined(more) == r + text && OfKind(more, inText) == (if inText then a else b) + text;
    assert OfKind(more, !inText) == (if inText then b else a) + "";
  }

  /** The channels of a turn against the drain of its text alone. */
  ghost predicate Follows(c: Channels, d: Routing, own: string) {
    && c.visible == d.visible && c.thinking == d.thinking && c.held == d.held
    && Woven(c.reasoning, d.reasoning, own)
  }

  lemma FollowText(c: Channels, thinking: bool, all: string, own: string, text: string)
    requires Follows(c, Drain(thinking, all), own)
    ensures Follows(Sent(c, Drain(c.thinking, c.held + text)), Drain(thinking, all + text), own)
  {
    hide Drain, Woven;
    DrainAppend(thinking, all, text);
    var more := Drain(c.thinking, c.held + text);
    WeaveOneMore(c.reasoning, Drain(thinking, all).reasoning, own, true, more.reasoning);
  }

  lemma FollowReasoning(c: Channels, d: Routing, own: string, text: string)
    requires Follows(c, d, own)
    ensures Follows(c.(reasoning := c.reasoning + text), d, own + text)
  {
    hide Woven;
    WeaveOneMore(c.reasoning, d.reasoning, own, false, text);
  }

  lemma FollowNothing(thinking: bool)
    ensures Follows(Channels("", "", thinking, ""), Drain(thinking, ""), "")
  {
    DrainNothing(thinking);
    assert Joined([]) == "" && OfKind([], true) == "" && OfKind([], false) == "";
  }

  lemma {:induction false} TurnFollows(thinking: bool, signals: seq<Signal>)
    ensures Follows(ReceiveAll(Channels("", "", thinking, ""), signals), Drain(thinking, Texts(signals)),
            OwnReasoning(signals))
  {
    hide Follows, Drain;
    if |signals| == 0 {
      FollowNothing(thinking);
    } else {
      var before, s := signals[..|signals| - 1], signals[|signals| - 1];
      var c := ReceiveAll(Channels("", "", thinking, ""), before);
      TurnFollows(thinking, before);
      AppendNothing(Texts(before));
      AppendNothing(OwnReasoning(before));
      match s
      case TextDelta(text) => if text != "" { FollowText(c, thinking, Texts(before), OwnReasoning(before), text); }
      case ReasoningDelta(text) => FollowReasoning(c, Drain(thinking, Texts(before)), OwnReasoning(before), text);
      case _ =>
    }
  }

  /** However a turn was cut into chunks: the visible channel is what one scan of all its text makes visible,
      and the reasoning channel weaves the spans inside tags with the provider's own reasoning. */
  lemma TurnChannels(signals: seq<Signal>)
    ensures var c, s := Ended(ReceiveAll(Channels("", "", false, ""), signals)), Scan(false, Texts(signals));
            && c.visible == s.visible && c.thinking == s.thinking && c.held == ""
            && Woven(c.reasoning, s.reasoning, OwnReasoning(signals))
  {
    hide Drain, Scan, Woven;
    var c := ReceiveAll(Channels("", "", false, ""), signals);
    TurnFollows(false, signals);
    ScanIsDrainThenFlush(false, Texts(signals));
    ScanHoldsNothing(c.thinking, c.held);
    WeaveOneMore(c.reasoning, Drain(false, Texts(signals)).reasoning, OwnReasoning(signals), true,
                 Scan(c.thinking, c.held).reasoning);
  }
}
