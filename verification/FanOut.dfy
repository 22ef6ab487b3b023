/** The two-phase subagent fan-out: one thread dispatches a batch of tool calls, spawning children
    under a concurrency cap and then joining them, while the children run on their own threads.
    Every read of a child's status, every clear, set and wait of the shared event is one step. */
module FanOut {
  import opened Wrappers

  const HARD_MAX_CONCURRENT := 16

  datatype ToolResult = ToolResult(callId: string, content: string, isError: bool)

  /** A call answered in place, or a request for a child; `builds` tells whether its runner can be built. */
  datatype Request = Inline(answer: ToolResult) | Spawn(callId: string, task: string, builds: bool)

  datatype Outcome = Completed(summary: string) | Failed(error: string)

  /** `Finished` children have published their outcome but not yet set the event. */
  datatype Status = Pending | Running | Finished(outcome: Outcome) | Signalled(outcome: Outcome) {
    predicate Active() { Pending? || Running? }
  }

  datatype Agent = Agent(task: string, status: Status)

  datatype Ticket = Ticket(call: nat, agent: nat)

  /** Where the dispatching thread is. `woken` marks a loop re-entered because the event was set. */
  datatype Pc =
    | Dispatch(k: nat)
    | CapScan(k: nat, i: nat, count: nat, woken: bool)
    | CapClear(k: nat, woken: bool)
    | CapRecheck(k: nat, i: nat, count: nat)
    | CapWait(k: nat)
    | Start(k: nat)
    | JoinScan(i: nat, woken: bool)
    | JoinClear(woken: bool)
    | JoinRecheck(i: nat)
    | JoinWait(i: nat)
    | Emit(i: nat)
    | Returned

  datatype State = State(agents: seq<Agent>, event: bool, pc: Pc, pending: seq<Ticket>, slots: seq<Option<ToolResult>>)

  datatype Config = Config(calls: seq<Request>, maxConcurrent: int, sanitize: string -> string) {
    function Cap(): (c: nat)
      ensures 1 <= c <= HARD_MAX_CONCURRENT
    {
      var m := if maxConcurrent < HARD_MAX_CONCURRENT then maxConcurrent else HARD_MAX_CONCURRENT;
      if m < 1 then 1 else m
    }

    function Render(callId: string, o: Outcome): ToolResult {
      match o
      case Completed(summary) =>
        ToolResult(callId, sanitize(if summary == "" then "(Subagent produced no output)" else summary), false)
      case Failed(error) => ToolResult(callId, "Subagent error: " + error, true)
    }
  }

  function ActiveCount(agents: seq<Agent>): nat {
    if |agents| == 0 then 0
    else ActiveCount(agents[..|agents| - 1]) + if agents[|agents| - 1].status.Active() then 1 else 0
  }

  // ---------------------------------------------------------------- steps

  datatype Actor = Main | Timeout | Worker(id: nat, outcome: Outcome)

  predicate Enabled(c: Config, s: State, a: Actor) {
    match a
    case Main => s.pc != Returned && ((s.pc.CapWait? || s.pc.JoinWait?) ==> s.event)
    case Timeout => s.pc.CapWait? || s.pc.JoinWait?
    case Worker(id, _) => id < |s.agents| && !s.agents[id].status.Signalled?
  }

  function Work(s: State, id: nat, o: Outcome): State
    requires id < |s.agents|
  {
    var a := s.agents[id];
    match a.status
    case Pending => s.(agents := s.agents[id := a.(status := Running)])
    case Running => s.(agents := s.agents[id := a.(status := Finished(o))])
    case Finished(outcome) => s.(agents := s.agents[id := a.(status := Signalled(outcome))], event := true)
    case Signalled(_) => s
  }

  /** Phase one on call k: answered in place, refused, or queued for a free slot. */
  function DispatchStep(c: Config, s: State, k: nat): State {
    if k >= |c.calls| || k >= |s.slots| then s.(pc := if s.pending == [] then Returned else JoinScan(0, false))
    else
      match c.calls[k]
      case Inline(answer) => s.(slots := s.slots[k := Some(answer)], pc := Dispatch(k + 1))
      case Spawn(callId, task, _) =>
        if task == "" then
          s.(slots := s.slots[k := Some(ToolResult(callId, "Error: 'task' is required.", true))], pc := Dispatch(k + 1))
        else s.(pc := CapScan(k, 0, 0, false))
  }

  function StartStep(c: Config, s: State, k: nat): State {
    if k < |c.calls| && k < |s.slots| && c.calls[k].Spawn? then
      var call := c.calls[k];
      if call.builds then
        s.(agents := s.agents + [Agent(call.task, Pending)],
           pending := s.pending + [Ticket(k, |s.agents|)], pc := Dispatch(k + 1))
      else
        s.(slots := s.slots[k := Some(ToolResult(call.callId, "Subagent error: spawn failed", true))],
           pc := Dispatch(k + 1))
    else s
  }

  function CapStep(c: Config, s: State): State
    requires s.pc.CapScan? || s.pc.CapClear? || s.pc.CapRecheck? || s.pc.CapWait?
  {
    match s.pc
    case CapScan(k, i, count, woken) =>
      if i < |s.agents| then s.(pc := CapScan(k, i + 1, count + if s.agents[i].status.Active() then 1 else 0, woken))
      else s.(pc := if count >= c.Cap() then CapClear(k, woken) else Start(k))
    case CapClear(k, woken) => s.(event := false, pc := CapRecheck(k, 0, 0))
    case CapRecheck(k, i, count) =>
      if i < |s.agents| then s.(pc := CapRecheck(k, i + 1, count + if s.agents[i].status.Active() then 1 else 0))
      else s.(pc := if count < c.Cap() then Start(k) else CapWait(k))
    case CapWait(k) => s.(pc := CapScan(k, 0, 0, s.event))
  }

  /** The i-th pending child has not reached a terminal status; an unknown child counts as terminal. */
  predicate StillActive(s: State, i: nat) {
    i < |s.pending| && s.pending[i].agent < |s.agents| && s.agents[s.pending[i].agent].status.Active()
  }

  function JoinStep(s: State): State
    requires s.pc.JoinScan? || s.pc.JoinClear? || s.pc.JoinRecheck? || s.pc.JoinWait?
  {
    match s.pc
    case JoinScan(i, woken) =>
      s.(pc := if i >= |s.pending| then Emit(0)
               else if StillActive(s, i) then JoinClear(woken)
               else JoinScan(i + 1, woken))
    case JoinClear(woken) => s.(event := false, pc := JoinRecheck(0))
    case JoinRecheck(i) =>
      s.(pc := if i >= |s.pending| then Emit(0) else if StillActive(s, i) then JoinWait(i) else JoinRecheck(i + 1))
    case JoinWait(i) => s.(pc := JoinScan(0, s.event))
  }

  function EmitStep(c: Config, s: State, i: nat): State {
    if i >= |s.pending| then s.(pc := Returned)
    else
      var t := s.pending[i];
      if t.call < |c.calls| && t.call < |s.slots| && c.calls[t.call].Spawn? && t.agent < |s.agents| then
        var status := s.agents[t.agent].status;
        var result := if status.Active() then ToolResult(c.calls[t.call].callId, "Subagent was cancelled.", true)
                      else c.Render(c.calls[t.call].callId, status.outcome);
        s.(slots := s.slots[t.call := Some(result)], pc := Emit(i + 1))
      else s.(pc := Emit(i + 1))
  }

  function MainStep(c: Config, s: State): State {
    match s.pc
    case Dispatch(k) => DispatchStep(c, s, k)
    case Start(k) => StartStep(c, s, k)
    case Emit(i) => EmitStep(c, s, i)
    case Returned => s
    case CapScan(_, _, _, _) => CapStep(c, s)
    case CapClear(_, _) => CapStep(c, s)
    case CapRecheck(_, _, _) => CapStep(c, s)
    case CapWait(_) => CapStep(c, s)
    case _ => JoinStep(s)
  }

  function Act(c: Config, s: State, a: Actor): State
    requires Enabled(c, s, a)
  {
    match a
    case Worker(id, o) => Work(s, id, o)
    case _ => MainStep(c, s)
  }

  ghost predicate Next(c: Config, s: State, t: State) {
    exists a :: Enabled(c, s, a) && t == Act(c, s, a)
  }

  /** Children of earlier batches may still be there, and the event in any state. */
  ghost predicate Initial(c: Config, s: State) {
    && s.pc == Dispatch(0) && s.pending == []
    && s.slots == seq(|c.calls|, _ => None)
    && ActiveCount(s.agents) <= c.Cap()
  }

  ghost predicate IsRun(c: Config, run: seq<State>) {
    && run != []
    && if |run| == 1 then Initial(c, run[0])
       else IsRun(c, run[..|run| - 1]) && Next(c, run[|run| - 2], run[|run| - 1])
  }

  // ---------------------------------------------------------------- counting children

  lemma {:induction false} CountPrefix(agents: seq<Agent>, i: nat)
    requires i < |agents|
    ensures ActiveCount(agents[..i + 1]) == ActiveCount(agents[..i]) + if agents[i].status.Active() then 1 else 0
  {
    assert agents[..i + 1][..i] == agents[..i];
  }

  lemma {:induction false} CountUpdate(agents: seq<Agent>, id: nat, a: Agent, n: nat)
    requires id < |agents| && n <= |agents|
    ensures ActiveCount(agents[id := a][..n])
         == ActiveCount(agents[..n])
            + if id < n then (if a.status.Active() then 1 else 0) - (if agents[id].status.Active() then 1 else 0) else 0
  {
    if n > 0 {
      CountPrefix(agents, n - 1);
      CountPrefix(agents[id := a], n - 1);
      CountUpdate(agents, id, a, n - 1);
    }
  }

  lemma {:induction false} SomeActive(agents: seq<Agent>) returns (id: nat)
    requires ActiveCount(agents) > 0
    ensures id < |agents| && agents[id].status.Active()
  {
    var n := |agents| - 1;
    if agents[n].status.Active() { id := n; } else { id := SomeActive(agents[..n]); }
  }

  ghost predicate AboutToSet(agents: seq<Agent>) {
    exists id | 0 <= id < |agents| :: agents[id].status.Finished?
  }

  // ---------------------------------------------------------------- the cap

  /** A finished count never understates what is still running: children only leave. */
  ghost predicate CountsHold(c: Config, s: State) {
    match s.pc
    case CapScan(_, i, count, _) => i <= |s.agents| && ActiveCount(s.agents[..i]) <= count
    case CapRecheck(_, i, count) => i <= |s.agents| && ActiveCount(s.agents[..i]) <= count
    case Start(_) => ActiveCount(s.agents) < c.Cap()
    case _ => true
  }

  ghost predicate WithinCap(c: Config, s: State) {
    ActiveCount(s.agents) <= c.Cap() && CountsHold(c, s)
  }

  lemma CapKeptByWorker(c: Config, s: State, id: nat, o: Outcome)
    requires WithinCap(c, s) && id < |s.agents|
    ensures WithinCap(c, Work(s, id, o))
  {
    hide ActiveCount;
    var t := Work(s, id, o);
    CountUpdate(s.agents, id, t.agents[id], |s.agents|);
    assert s.agents[..|s.agents|] == s.agents && t.agents[..|s.agents|] == t.agents;
    assert t.agents == s.agents[id := t.agents[id]];
    if s.pc.CapScan? || s.pc.CapRecheck? {
      CountUpdate(s.agents, id, t.agents[id], s.pc.i);
    }
  }

  lemma CapKeptByMain(c: Config, s: State)
    requires WithinCap(c, s)
    ensures WithinCap(c, MainStep(c, s))
  {
    hide ActiveCount;
    if (s.pc.CapScan? || s.pc.CapRecheck?) && s.pc.i < |s.agents| {
      CountPrefix(s.agents, s.pc.i);
    }
    assert s.agents[..0] == [] && s.agents[..|s.agents|] == s.agents;
    assert ActiveCount([]) == 0 by { EmptyCount(); }
    if s.pc.Start? && |MainStep(c, s).agents| > |s.agents| {
      var t := MainStep(c, s);
      CountPrefix(t.agents, |s.agents|);
      assert t.agents[..|s.agents| + 1] == t.agents && t.agents[..|s.agents|] == s.agents;
    }
  }

  lemma EmptyCount()
    ensures ActiveCount([]) == 0
  {
  }

  // ---------------------------------------------------------------- no lost wake-up

  /** After the clear, a child that stops counting has set the event or is about to. */
  ghost predicate WakeUpSafe(c: Config, s: State) {
    match s.pc
    case CapRecheck(_, i, count) =>
      i <= |s.agents| && (s.event || AboutToSet(s.agents) || ActiveCount(s.agents[..i]) == count)
    case CapWait(_) => s.event || AboutToSet(s.agents) || ActiveCount(s.agents) >= c.Cap()
    case JoinWait(i) => s.event || AboutToSet(s.agents) || StillActive(s, i)
    case CapScan(_, _, _, woken) => woken ==> s.event
    case CapClear(_, woken) => woken ==> s.event
    case JoinScan(_, woken) => woken ==> s.event
    case JoinClear(woken) => woken ==> s.event
    case _ => true
  }

  lemma AboutToSetKept(s: State, id: nat, o: Outcome)
    requires id < |s.agents|
    ensures var t := Work(s, id, o);
            && (s.event ==> t.event)
            && (AboutToSet(s.agents) ==> t.event || AboutToSet(t.agents))
            && (s.agents[id].status.Active() && !t.agents[id].status.Active() ==> AboutToSet(t.agents))
  {
    var t := Work(s, id, o);
    if AboutToSet(s.agents) {
      var f :| 0 <= f < |s.agents| && s.agents[f].status.Finished?;
      assert f != id ==> t.agents[f].status.Finished?;
    }
    assert t.agents[id].status.Finished? ==> AboutToSet(t.agents);
  }

  lemma WakeUpKeptByWorker(c: Config, s: State, id: nat, o: Outcome)
    requires WakeUpSafe(c, s) && id < |s.agents|
    ensures WakeUpSafe(c, Work(s, id, o))
  {
    hide ActiveCount, AboutToSet;
    var t := Work(s, id, o);
    AboutToSetKept(s, id, o);
    assert t.agents == s.agents[id := t.agents[id]];
    assert s.agents[..|s.agents|] == s.agents && t.agents[..|s.agents|] == t.agents;
    CountUpdate(s.agents, id, t.agents[id], if s.pc.CapRecheck? then s.pc.i else |s.agents|);
  }

  lemma WakeUpKeptByMain(c: Config, s: State)
    requires WakeUpSafe(c, s)
    ensures WakeUpSafe(c, MainStep(c, s))
  {
    hide ActiveCount, AboutToSet;
    if s.pc.CapRecheck? && s.pc.i < |s.agents| { CountPrefix(s.agents, s.pc.i); }
    assert s.agents[..0] == [] && s.agents[..|s.agents|] == s.agents;
    EmptyCount();
  }

  /** The waiter's condition: what the loop around the wait is waiting for. */
  ghost predicate AwaitedHolds(c: Config, s: State) {
    match s.pc
    case CapWait(_) => ActiveCount(s.agents) < c.Cap()
    case JoinWait(_) => forall i: nat | i < |s.pending| :: !StillActive(s, i)
    case _ => false
  }

  lemma SleeperIsWoken(c: Config, s: State)
    requires WakeUpSafe(c, s) && AwaitedHolds(c, s)
    ensures s.event || AboutToSet(s.agents)
  {
  }

  lemma SomeoneToMove(c: Config, s: State) returns (a: Actor)
    requires WakeUpSafe(c, s) && s.pc != Returned
    ensures Enabled(c, s, a) && a != Timeout
  {
    hide ActiveCount;
    if Enabled(c, s, Main) {
      a := Main;
    } else if AboutToSet(s.agents) {
      var id :| 0 <= id < |s.agents| && s.agents[id].status.Finished?;
      a := Worker(id, Completed(""));
    } else if s.pc.JoinWait? {
      a := Worker(s.pending[s.pc.i].agent, Completed(""));
    } else {
      var id := SomeActive(s.agents);
      a := Worker(id, Completed(""));
    }
  }

  // ---------------------------------------------------------------- whose result is whose

  predicate NeedsChild(c: Config, j: nat)
    requires j < |c.calls|
  {
    c.calls[j].Spawn? && c.calls[j].task != "" && c.calls[j].builds
  }

  /** The answer of a call that never gets a child. */
  function Immediate(c: Config, j: nat): ToolResult
    requires j < |c.calls| && !NeedsChild(c, j)
  {
    match c.calls[j]
    case Inline(answer) => answer
    case Spawn(callId, task, _) =>
      ToolResult(callId, if task == "" then "Error: 'task' is required." else "Subagent error: spawn failed", true)
  }

  /** Calls before the frontier have been through phase one. */
  function Frontier(c: Config, s: State): nat {
    match s.pc
    case Dispatch(k) => k
    case CapScan(k, _, _, _) => k
    case CapClear(k, _) => k
    case CapRecheck(k, _, _) => k
    case CapWait(k) => k
    case Start(k) => k
    case _ => |c.calls|
  }

  predicate AtCall(s: State) {
    s.pc.CapScan? || s.pc.CapClear? || s.pc.CapRecheck? || s.pc.CapWait? || s.pc.Start?
  }

  /** Tickets with a lower number have had their result stored. */
  function Emitted(s: State): nat {
    match s.pc
    case Emit(i) => i
    case Returned => |s.pending|
    case _ => 0
  }

  ghost predicate Placed(c: Config, s: State) {
    && |s.slots| == |c.calls|
    && Frontier(c, s) <= |c.calls|
    && (AtCall(s) ==>
          && Frontier(c, s) < |c.calls|
          && c.calls[Frontier(c, s)].Spawn? && c.calls[Frontier(c, s)].task != "")
    && Emitted(s) <= |s.pending|
  }

  ghost predicate TicketFits(c: Config, s: State, t: Ticket) {
    && t.call < |c.calls| && t.call < Frontier(c, s) && NeedsChild(c, t.call)
    && t.agent < |s.agents| && s.agents[t.agent].task == c.calls[t.call].task
  }

  /** Tickets follow call order, and no child serves two calls. */
  ghost predicate TicketsHold(c: Config, s: State) {
    && (forall n | 0 <= n < |s.pending| :: TicketFits(c, s, s.pending[n]))
    && (forall m, n | 0 <= m < n < |s.pending| ::
          s.pending[m].call < s.pending[n].call && s.pending[m].agent < s.pending[n].agent)
  }

  predicate HasTicket(s: State, j: nat) {
    exists n | 0 <= n < |s.pending| :: s.pending[n].call == j
  }

  ghost predicate ImmediateHold(c: Config, s: State)
    requires |s.slots| == |c.calls|
  {
    && (forall j: nat | j < |c.calls| && j < Frontier(c, s) ::
          if NeedsChild(c, j) then HasTicket(s, j) else s.slots[j] == Some(Immediate(c, j)))
    && (forall j: nat | Frontier(c, s) <= j < |c.calls| :: s.slots[j] == None)
  }

  /** Joined children are terminal: all of them once results are being stored. */
  ghost predicate JoinedHold(s: State) {
    var joined := match s.pc
                  case JoinScan(i, _) => i
                  case JoinRecheck(i) => i
                  case Emit(_) => |s.pending|
                  case Returned => |s.pending|
                  case _ => 0;
    forall n: nat | n < joined :: !StillActive(s, n)
  }

  /** The slot of a ticket holds its own child's outcome once stored, and nothing before. */
  ghost predicate SlotHolds(c: Config, s: State, n: nat)
    requires n < |s.pending|
  {
    var t := s.pending[n];
    && t.call < |c.calls| && t.call < |s.slots| && c.calls[t.call].Spawn? && t.agent < |s.agents|
    && if n < Emitted(s)
       then !s.agents[t.agent].status.Active()
            && s.slots[t.call] == Some(c.Render(c.calls[t.call].callId, s.agents[t.agent].status.outcome))
       else s.slots[t.call] == None
  }

  ghost predicate SlotsHold(c: Config, s: State) {
    forall n: nat | n < |s.pending| :: SlotHolds(c, s, n)
  }

  ghost predicate ResultsHold(c: Config, s: State) {
    Placed(c, s) && TicketsHold(c, s) && ImmediateHold(c, s) && JoinedHold(s) && SlotsHold(c, s)
  }

  /** Children keep their tasks and never become active again. */
  ghost predicate Grown(s: State, t: State) {
    && |s.agents| <= |t.agents|
    && forall id | 0 <= id < |s.agents| ::
         && t.agents[id].task == s.agents[id].task
         && (!s.agents[id].status.Active()
            ==> !t.agents[id].status.Active() && t.agents[id].status.outcome == s.agents[id].status.outcome)
  }

  lemma TicketsKept(c: Config, s: State, t: State)
    requires TicketsHold(c, s) && t.pending == s.pending && Grown(s, t) && Frontier(c, s) <= Frontier(c, t)
    ensures TicketsHold(c, t)
  {
    forall n | 0 <= n < |t.pending| ensures TicketFits(c, t, t.pending[n]) { assert TicketFits(c, s, s.pending[n]); }
  }

  lemma ImmediateKept(c: Config, s: State, t: State)
    requires |s.slots| == |c.calls| && ImmediateHold(c, s)
    requires t.pending == s.pending && t.slots == s.slots && Frontier(c, s) == Frontier(c, t)
    ensures ImmediateHold(c, t)
  {
    forall j: nat | HasTicket(s, j) ensures HasTicket(t, j) { }
  }

  lemma SlotsKept(c: Config, s: State, t: State)
    requires SlotsHold(c, s) && t.pending == s.pending && t.slots == s.slots && Grown(s, t) && Emitted(s) == Emitted(t)
    ensures SlotsHold(c, t)
  {
    hide Emitted;
    forall n: nat | n < |t.pending| ensures SlotHolds(c, t, n) { assert SlotHolds(c, s, n); }
  }

  lemma JoinedKept(s: State, t: State)
    requires JoinedHold(s) && t.pending == s.pending && t.pc == s.pc && Grown(s, t)
    requires forall n | 0 <= n < |s.pending| :: s.pending[n].agent < |s.agents|
    ensures JoinedHold(t)
  {
    forall n: nat | !StillActive(s, n) ensures !StillActive(t, n) { }
  }

  lemma WorkGrows(s: State, id: nat, o: Outcome)
    requires id < |s.agents|
    ensures var t := Work(s, id, o); Grown(s, t) && t.pending == s.pending && t.slots == s.slots && t.pc == s.pc
  {
  }

  lemma ResultsKeptByWorker(c: Config, s: State, id: nat, o: Outcome)
    requires ResultsHold(c, s) && id < |s.agents|
    ensures ResultsHold(c, Work(s, id, o))
  {
    hide Work, Grown, TicketsHold, ImmediateHold, SlotsHold, JoinedHold;
    var t := Work(s, id, o);
    WorkGrows(s, id, o);
    TicketsKept(c, s, t);
    ImmediateKept(c, s, t);
    SlotsKept(c, s, t);
    TicketsHaveAgents(c, s);
    JoinedKept(s, t);
  }

  lemma TicketsHaveAgents(c: Config, s: State)
    requires TicketsHold(c, s)
    ensures forall n | 0 <= n < |s.pending| :: s.pending[n].agent < |s.agents|
  {
    forall n | 0 <= n < |s.pending| ensures s.pending[n].agent < |s.agents| { assert TicketFits(c, s, s.pending[n]); }
  }

  lemma ResultsKeptByCapStep(c: Config, s: State)
    requires ResultsHold(c, s) && (s.pc.CapScan? || s.pc.CapClear? || s.pc.CapRecheck? || s.pc.CapWait?)
    ensures ResultsHold(c, CapStep(c, s))
  {
    hide TicketsHold, ImmediateHold, SlotsHold;
    var t := CapStep(c, s);
    TicketsKept(c, s, t);
    ImmediateKept(c, s, t);
    SlotsKept(c, s, t);
  }

  lemma ResultsKeptByJoinStep(c: Config, s: State)
    requires ResultsHold(c, s) && (s.pc.JoinScan? || s.pc.JoinClear? || s.pc.JoinRecheck? || s.pc.JoinWait?)
    ensures ResultsHold(c, JoinStep(s))
  {
    hide TicketsHold, ImmediateHold, SlotsHold, JoinedHold;
    var t := JoinStep(s);
    TicketsKept(c, s, t);
    ImmediateKept(c, s, t);
    SlotsKept(c, s, t);
    JoinAdvances(s);
  }

  lemma JoinAdvances(s: State)
    requires JoinedHold(s) && (s.pc.JoinScan? || s.pc.JoinClear? || s.pc.JoinRecheck? || s.pc.JoinWait?)
    ensures JoinedHold(JoinStep(s))
  {
    var t := JoinStep(s);
    forall n: nat | !StillActive(s, n) ensures !StillActive(t, n) { }
  }

  lemma ResultsKeptByDispatch(c: Config, s: State)
    requires ResultsHold(c, s) && s.pc.Dispatch?
    ensures ResultsHold(c, DispatchStep(c, s, s.pc.k))
  {
    hide TicketsHold, ImmediateHold, SlotsHold;
    var t := DispatchStep(c, s, s.pc.k);
    TicketsKept(c, s, t);
    if t.slots == s.slots && Frontier(c, s) == Frontier(c, t) {
      assert Emitted(s) == Emitted(t) == 0;
      ImmediateKept(c, s, t);
      SlotsKept(c, s, t);
    } else {
      AnswerPlaced(c, s, t, s.pc.k);
    }
  }

  /** A slot at the frontier takes an immediate answer. */
  lemma AnswerPlaced(c: Config, s: State, t: State, k: nat)
    requires |s.slots| == |c.calls| && k < |c.calls| && !NeedsChild(c, k)
    requires ImmediateHold(c, s) && SlotsHold(c, s) && TicketsHold(c, s)
    requires Frontier(c, s) == k && Frontier(c, t) == k + 1 && Emitted(s) == Emitted(t) == 0
    requires t.pending == s.pending && t.agents == s.agents && t.slots == s.slots[k := Some(Immediate(c, k))]
    ensures ImmediateHold(c, t) && SlotsHold(c, t)
  {
    hide Immediate, NeedsChild, Frontier;
    forall j: nat | HasTicket(s, j) ensures HasTicket(t, j) { }
    forall n: nat | n < |t.pending| ensures SlotHolds(c, t, n) {
      assert SlotHolds(c, s, n) && TicketFits(c, s, s.pending[n]);
    }
  }

  lemma ResultsKeptByStart(c: Config, s: State)
    requires ResultsHold(c, s) && s.pc.Start?
    ensures ResultsHold(c, StartStep(c, s, s.pc.k))
  {
    hide TicketsHold, ImmediateHold, SlotsHold, Immediate;
    var t := StartStep(c, s, s.pc.k);
    if NeedsChild(c, s.pc.k) {
      ChildStarted(c, s, t, s.pc.k);
    } else {
      TicketsKept(c, s, t);
      ImmediateFailure(c, s.pc.k);
      AnswerPlaced(c, s, t, s.pc.k);
    }
  }

  lemma ImmediateFailure(c: Config, k: nat)
    requires k < |c.calls| && c.calls[k].Spawn? && c.calls[k].task != "" && !c.calls[k].builds
    ensures Immediate(c, k) == ToolResult(c.calls[k].callId, "Subagent error: spawn failed", true)
  {
  }

  lemma ChildStarted(c: Config, s: State, t: State, k: nat)
    requires |s.slots| == |c.calls| && k < |c.calls| && NeedsChild(c, k)
    requires ImmediateHold(c, s) && SlotsHold(c, s) && TicketsHold(c, s)
    requires Frontier(c, s) == k && Frontier(c, t) == k + 1 && Emitted(s) == Emitted(t) == 0
    requires t.agents == s.agents + [Agent(c.calls[k].task, Pending)]
    requires t.pending == s.pending + [Ticket(k, |s.agents|)] && t.slots == s.slots
    ensures TicketsHold(c, t) && ImmediateHold(c, t) && SlotsHold(c, t)
  {
    hide Frontier, Immediate, TicketsHold;
    var last := |s.pending|;
    TicketAdded(c, s, t, k);
    forall j: nat | HasTicket(s, j) ensures HasTicket(t, j) {
      var n :| 0 <= n < |s.pending| && s.pending[n].call == j;
      assert t.pending[n].call == j;
    }
    assert t.pending[last].call == k;
    forall n: nat | n < |t.pending| ensures SlotHolds(c, t, n) {
      if n < last { assert SlotHolds(c, s, n); }
    }
  }

  lemma TicketAdded(c: Config, s: State, t: State, k: nat)
    requires k < |c.calls| && NeedsChild(c, k) && TicketsHold(c, s)
    requires Frontier(c, s) == k && Frontier(c, t) == k + 1
    requires t.agents == s.agents + [Agent(c.calls[k].task, Pending)]
    requires t.pending == s.pending + [Ticket(k, |s.agents|)]
    ensures TicketsHold(c, t)
    ensures forall n | 0 <= n < |s.pending| :: TicketFits(c, s, s.pending[n])
  {
    hide Frontier;
    forall n | 0 <= n < |t.pending|
      ensures TicketFits(c, t, t.pending[n]) && (n < |s.pending| ==> TicketFits(c, s, s.pending[n]))
    {
      if n < |s.pending| { assert TicketFits(c, s, s.pending[n]); }
    }
  }

  lemma ResultsKeptByEmit(c: Config, s: State)
    requires ResultsHold(c, s) && s.pc.Emit?
    ensures ResultsHold(c, EmitStep(c, s, s.pc.i))
  {
    hide TicketsHold, ImmediateHold, SlotsHold, Config.Render;
    var t := EmitStep(c, s, s.pc.i);
    TicketsKept(c, s, t);
    TicketsHaveAgents(c, s);
    if s.pc.i < |s.pending| {
      ResultStored(c, s, t, s.pc.i);
    } else {
      ImmediateKept(c, s, t);
      SlotsKept(c, s, t);
    }
    forall n: nat | !StillActive(s, n) ensures !StillActive(t, n) { }
  }

  lemma ResultStored(c: Config, s: State, t: State, i: nat)
    requires Placed(c, s) && TicketsHold(c, s) && ImmediateHold(c, s) && SlotsHold(c, s)
    requires s.pc == Emit(i) && i < |s.pending| && !StillActive(s, i)
    requires t == EmitStep(c, s, i)
    ensures ImmediateHold(c, t) && SlotsHold(c, t)
  {
    hide Config.Render;
    assert TicketFits(c, s, s.pending[i]);
    forall j: nat | HasTicket(s, j) ensures HasTicket(t, j) { }
    forall n: nat | n < |t.pending| ensures SlotHolds(c, t, n) {
      assert SlotHolds(c, s, n) && TicketFits(c, s, s.pending[n]);
    }
  }

  lemma ResultsKeptByMain(c: Config, s: State)
    requires ResultsHold(c, s)
    ensures ResultsHold(c, MainStep(c, s))
  {
    hide ResultsHold, DispatchStep, StartStep, CapStep, JoinStep, EmitStep;
    match s.pc
    case Dispatch(_) => ResultsKeptByDispatch(c, s);
    case Start(_) => ResultsKeptByStart(c, s);
    case Emit(_) => ResultsKeptByEmit(c, s);
    case Returned =>
    case CapScan(_, _, _, _) => ResultsKeptByCapStep(c, s);
    case CapClear(_, _) => ResultsKeptByCapStep(c, s);
    case CapRecheck(_, _, _) => ResultsKeptByCapStep(c, s);
    case CapWait(_) => ResultsKeptByCapStep(c, s);
    case _ => ResultsKeptByJoinStep(c, s);
  }

  lemma FilledStays(c: Config, s: State, t: State, j: nat)
    requires ResultsHold(c, s) && Next(c, s, t) && j < |s.slots| && s.slots[j].Some?
    ensures j < |t.slots| && t.slots[j] == s.slots[j]
  {
    if s.pc.Emit? && s.pc.i < |s.pending| {
      assert SlotHolds(c, s, s.pc.i) && TicketFits(c, s, s.pending[s.pc.i]);
    }
  }

  // ---------------------------------------------------------------- whole runs

  ghost predicate Safe(c: Config, s: State) {
    WithinCap(c, s) && WakeUpSafe(c, s) && ResultsHold(c, s)
  }

  lemma SafeKept(c: Config, s: State, t: State)
    requires Safe(c, s) && Next(c, s, t)
    ensures Safe(c, t)
  {
    hide WithinCap, WakeUpSafe, ResultsHold, Work, MainStep;
    var a :| Enabled(c, s, a) && t == Act(c, s, a);
    match a
    case Worker(id, o) =>
      CapKeptByWorker(c, s, id, o);
      WakeUpKeptByWorker(c, s, id, o);
      ResultsKeptByWorker(c, s, id, o);
    case _ =>
      CapKeptByMain(c, s);
      WakeUpKeptByMain(c, s);
      ResultsKeptByMain(c, s);
  }

  /** Every state of every run, timeouts included, is safe. */
  lemma {:induction false} RunsAreSafe(c: Config, run: seq<State>)
    requires IsRun(c, run)
    ensures Safe(c, run[|run| - 1])
  {
    hide Safe, Next;
    var n := |run| - 1;
    if n == 0 {
      InitialIsSafe(c, run[0]);
    } else {
      RunsAreSafe(c, run[..n]);
      SafeKept(c, run[n - 1], run[n]);
    }
  }

  lemma InitialIsSafe(c: Config, s: State)
    requires Initial(c, s)
    ensures Safe(c, s)
  {
  }

  /** Pending and running children never exceed the cap. */
  lemma CapIsRespected(c: Config, run: seq<State>)
    requires IsRun(c, run)
    ensures ActiveCount(run[|run| - 1].agents) <= c.Cap() <= HARD_MAX_CONCURRENT
  {
    RunsAreSafe(c, run);
  }

  /** In every run, a sleeper whose condition already holds will be woken: the event is set or a child is
      about to set it. */
  lemma NoLostWakeUp(c: Config, run: seq<State>)
    requires IsRun(c, run) && AwaitedHolds(c, run[|run| - 1])
    ensures run[|run| - 1].event || AboutToSet(run[|run| - 1].agents)
  {
    hide AwaitedHolds, WithinCap, ResultsHold, WakeUpSafe;
    RunsAreSafe(c, run);
    SleeperIsWoken(c, run[|run| - 1]);
  }

  /** In every run, nobody is ever stuck before the batch returns, even if the wait never times out. */
  lemma AlwaysSomeoneToMove(c: Config, run: seq<State>) returns (a: Actor)
    requires IsRun(c, run) && run[|run| - 1].pc != Returned
    ensures Enabled(c, run[|run| - 1], a) && a != Timeout
  {
    hide WithinCap, ResultsHold, WakeUpSafe;
    RunsAreSafe(c, run);
    a := SomeoneToMove(c, run[|run| - 1]);
  }

  /** In every run, a result slot never changes once it is filled. */
  lemma {:induction false} FilledOnce(c: Config, run: seq<State>, k: nat, j: nat)
    requires IsRun(c, run) && k < |run| && j < |run[k].slots| && run[k].slots[j].Some?
    ensures j < |run[|run| - 1].slots| && run[|run| - 1].slots[j] == run[k].slots[j]
  {
    hide Next, WithinCap, WakeUpSafe, ResultsHold;
    var n := |run| - 1;
    if k < n {
      FilledOnce(c, run[..n], k, j);
      RunsAreSafe(c, run[..n]);
      FilledStays(c, run[n - 1], run[n], j);
    }
  }

  /** When the batch returns, every call has its own result: its immediate answer, or the rendered
      outcome of the one child that was started for it. */
  ghost predicate OwnResult(c: Config, s: State, j: nat)
    requires j < |c.calls|
  {
    && j < |s.slots|
    && if NeedsChild(c, j) then
         exists n | 0 <= n < |s.pending| ::
           && s.pending[n].call == j && s.pending[n].agent < |s.agents|
           && s.agents[s.pending[n].agent].task == c.calls[j].task
           && !s.agents[s.pending[n].agent].status.Active()
           && s.slots[j] == Some(c.Render(c.calls[j].callId, s.agents[s.pending[n].agent].status.outcome))
       else s.slots[j] == Some(Immediate(c, j))
  }

  lemma EveryCallGetsItsOwnResult(c: Config, run: seq<State>, j: nat)
    requires IsRun(c, run) && run[|run| - 1].pc == Returned && j < |c.calls|
    ensures OwnResult(c, run[|run| - 1], j)
  {
    RunsAreSafe(c, run);
    var s := run[|run| - 1];
    assert j < Frontier(c, s);
    if NeedsChild(c, j) {
      assert HasTicket(s, j);
      var n :| 0 <= n < |s.pending| && s.pending[n].call == j;
      assert SlotHolds(c, s, n) && TicketFits(c, s, s.pending[n]);
    }
  }

  // ---------------------------------------------------------------- termination without timeouts

  /** Steps the children still have to make. */
  function Remaining(agents: seq<Agent>): nat {
    if |agents| == 0 then 0
    else
      var status := agents[|agents| - 1].status;
      Remaining(agents[..|agents| - 1])
      + match status case Pending => 3 case Running => 2 case Finished(_) => 1 case Signalled(_) => 0
  }

  lemma {:induction false} RemainingFalls(agents: seq<Agent>, id: nat, a: Agent)
    requires id < |agents|
    requires match agents[id].status
             case Pending => a.status == Running
             case Running => a.status.Finished?
             case Finished(_) => a.status.Signalled?
             case Signalled(_) => false
    ensures Remaining(agents[id := a]) == Remaining(agents) - 1
  {
    var n := |agents| - 1;
    if id < n {
      RemainingFalls(agents[..n], id, a);
      assert agents[id := a][..n] == agents[..n][id := a];
    } else {
      assert agents[id := a][..n] == agents[..n];
    }
  }

  function Stage(c: Config, s: State): nat {
    var left := if !s.pc.Dispatch? && !AtCall(s) then 0
                else if Frontier(c, s) <= |c.calls| then |c.calls| - Frontier(c, s)
                else 0;
    match s.pc
    case Dispatch(_) => 3 * left + 5
    case Start(_) => 3 * left + 3
    case Emit(_) => 1
    case Returned => 0
    case CapScan(_, _, _, _) => 3 * left + 4
    case CapClear(_, _) => 3 * left + 4
    case CapRecheck(_, _, _) => 3 * left + 4
    case CapWait(_) => 3 * left + 4
    case _ => 2
  }

  function Unspent(s: State): nat {
    2 * Remaining(s.agents) + if s.event then 1 else 0
  }

  function Until(n: nat, i: nat): nat {
    if i <= n then n - i else 0
  }

  /** Position in a wait loop; a loop re-entered by a wake-up ranks below the wait. */
  function Position(s: State): nat {
    var m := |s.agents| + |s.pending| + 1;
    match s.pc
    case CapScan(_, i, _, woken) => (if woken then m else 5 * m) + Until(|s.agents|, i)
    case CapClear(_, woken) => if woken then m - 1 else 4 * m
    case CapRecheck(_, i, _) => 3 * m + Until(|s.agents|, i)
    case CapWait(_) => 3 * m - 1
    case JoinScan(i, woken) => (if woken then m else 5 * m) + Until(|s.pending|, i)
    case JoinClear(woken) => if woken then m - 1 else 4 * m
    case JoinRecheck(i) => 3 * m + Until(|s.pending|, i)
    case JoinWait(_) => 3 * m - 1
    case Emit(i) => Until(|s.pending|, i)
    case _ => 0
  }

  ghost predicate Below(c: Config, t: State, s: State) {
    || Stage(c, t) < Stage(c, s)
    || (Stage(c, t) == Stage(c, s) && Unspent(t) < Unspent(s))
    || (Stage(c, t) == Stage(c, s) && Unspent(t) == Unspent(s) && Position(t) < Position(s))
  }

  lemma WorkerDescends(c: Config, s: State, id: nat, o: Outcome)
    requires Enabled(c, s, Worker(id, o))
    ensures Below(c, Work(s, id, o), s)
  {
    hide Remaining;
    var t := Work(s, id, o);
    RemainingFalls(s.agents, id, t.agents[id]);
    assert t.agents == s.agents[id := t.agents[id]];
  }

  lemma CapDescends(c: Config, s: State)
    requires Safe(c, s) && Enabled(c, s, Main)
    requires s.pc.CapScan? || s.pc.CapClear? || s.pc.CapRecheck? || s.pc.CapWait?
    ensures Below(c, MainStep(c, s), s)
  {
    hide Remaining, ActiveCount, ResultsHold, AboutToSet;
  }

  lemma JoinDescends(c: Config, s: State)
    requires Safe(c, s) && Enabled(c, s, Main)
    requires s.pc.JoinScan? || s.pc.JoinClear? || s.pc.JoinRecheck? || s.pc.JoinWait?
    ensures Below(c, MainStep(c, s), s)
  {
    hide Remaining, ActiveCount, ResultsHold, AboutToSet, WithinCap, StillActive;
  }

  lemma MainDescends(c: Config, s: State)
    requires Safe(c, s) && Enabled(c, s, Main)
    ensures Below(c, MainStep(c, s), s)
  {
    hide Remaining, ActiveCount, TicketsHold, ImmediateHold, SlotsHold, JoinedHold, WithinCap, WakeUpSafe, CapStep,
         JoinStep;
    if s.pc.CapScan? || s.pc.CapClear? || s.pc.CapRecheck? || s.pc.CapWait? {
      hide Below, Safe;
      CapDescends(c, s);
    } else if s.pc.JoinScan? || s.pc.JoinClear? || s.pc.JoinRecheck? || s.pc.JoinWait? {
      hide Below, Safe;
      JoinDescends(c, s);
    }
  }

  /** Without timeouts every step descends a well-founded order. */
  lemma StepsDescend(c: Config, s: State, a: Actor)
    requires Safe(c, s) && a != Timeout && Enabled(c, s, a)
    ensures Below(c, Act(c, s, a), s)
  {
    hide Safe, Below, Work, MainStep;
    match a
    case Worker(id, o) => WorkerDescends(c, s, id, o);
    case Main => MainDescends(c, s);
  }

  ghost predicate NextUntimed(c: Config, s: State, t: State) {
    exists a :: a != Timeout && Enabled(c, s, a) && t == Act(c, s, a)
  }

  /** An execution in which no wait ever times out and someone moves until the batch has returned. */
  ghost predicate KeepsMoving(c: Config, f: nat -> State) {
    forall i: nat :: f(i).pc == Returned || NextUntimed(c, f(i), f(i + 1))
  }

  /** Every such execution returns: the handshake never needs the poll timeout. */
  lemma {:induction false} AlwaysReturns(c: Config, f: nat -> State, n: nat) returns (m: nat)
    requires Safe(c, f(n)) && KeepsMoving(c, f)
    ensures m >= n && f(m).pc == Returned && Safe(c, f(m))
    decreases Stage(c, f(n)), Unspent(f(n)), Position(f(n))
  {
    hide Safe, Stage, Unspent, Position, Act, Enabled;
    if f(n).pc == Returned {
      m := n;
    } else {
      assert NextUntimed(c, f(n), f(n + 1));
      var a :| a != Timeout && Enabled(c, f(n), a) && f(n + 1) == Act(c, f(n), a);
      StepsDescend(c, f(n), a);
      SafeKept(c, f(n), f(n + 1));
      m := AlwaysReturns(c, f, n + 1);
    }
  }
}
