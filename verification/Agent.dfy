/** The agent loop as a machine over events: what the model, the gate, the tools and the owner say. */
module Agent {
  import opened Lifecycle

  const HANDOFF := "handoff_to_human"
  const MAX_NUDGES: int := 2
  const NUDGE := "not a valid tool call, nothing was executed"
  const REFUSED := "tool is not in your allowlist"
  const GATE_FAILED := "gate evaluation failed"
  const DENIED := "tool call denied by gate"

  datatype Call = Call(name: string, payload: string)

  datatype Role = System | User | Assistant | ToolResult

  datatype Message = Message(role: Role, content: string)

  datatype Turn = Turn(role: Role, content: string, calls: seq<Call>)

  datatype Verdict = Approve | Request | Deny | GateError | OtherVerdict

  datatype Outcome = Ok(text: string) | Failed(error: string)

  /** A model turn; `suspected` marks content that looks like a botched tool call. */
  datatype Reply = ChatError | Reply(content: string, calls: seq<Call>, suspected: bool)

  datatype Result = Answer(content: string) | FailClose(reason: string) | Broken

  datatype Config = Config(maxIter: int, budget: int, system: string, prompt: string, allowlist: Option<seq<nat>>)

  /** What a segment saves: the conversation, the counters and the iteration it stopped in. */
  datatype Talk = Talk(messages: seq<Message>, transcript: seq<Turn>, gateCalls: int, nudges: int)

  type Allowed = map<string, nat>

  datatype Event =
    | Open(allowed: Option<Allowed>)
    | Chat(reply: Reply)
    | GiveUp
    | Nudge
    | Finish
    | HandOff(call: Call)
    | Refuse(call: Call)
    | Exhaust(call: Call)
    | Gate(call: Call, tool: nat, verdict: Verdict)
    | Dispatch(call: Call, tool: nat, outcome: Outcome)
    | Resume(injected: string, allowed: Option<Allowed>)

  datatype Phase =
    | Idle
    | Ready
    | Silent(content: string, suspected: bool)
    | Calling(calls: seq<Call>)
    | Dispatching(call: Call, tool: nat, rest: seq<Call>)
    | Parked(call: Call, tool: nat)
    | Ended(result: Result)

  datatype State = State(phase: Phase, iter: int, allowed: Allowed, talk: Talk)

  const IDLE := State(Idle, 0, map[], Talk([], [], 0, 0))

  function Opening(cfg: Config): Talk {
    Talk([Message(User, cfg.prompt)],
         (if cfg.system != "" then [Turn(System, cfg.system, [])] else []) + [Turn(User, cfg.prompt, [])], 0, 0)
  }

  /** A tool observation goes to the model and to the record alike. */
  function Observe(t: Talk, content: string): Talk {
    t.(messages := t.messages + [Message(ToolResult, content)], transcript := t.transcript + [Turn(ToolResult, content, [])])
  }

  function Say(t: Talk, content: string): Talk {
    t.(messages := t.messages + [Message(Assistant, content)])
  }

  function RecordTurn(t: Talk, content: string, calls: seq<Call>): Talk {
    t.(transcript := t.transcript + [Turn(Assistant, content, calls)])
  }

  /** The loop head after the last call of a turn, else the next call. */
  function Continue(st: State, rest: seq<Call>, talk: Talk): State {
    if rest == [] then State(Ready, st.iter + 1, st.allowed, talk) else State(Calling(rest), st.iter, st.allowed, talk)
  }

  function End(st: State, result: Result): State {
    st.(phase := Ended(result))
  }

  function OutcomeText(o: Outcome): string {
    match o case Ok(text) => text case Failed(error) => "error: " + error
  }

  function AfterChat(st: State, reply: Reply): State {
    match reply
    case ChatError => End(st, FailClose("gateway_error"))
    case Reply(content, calls, suspected) =>
      var talk := RecordTurn(st.talk, content, calls);
      if calls == [] then State(Silent(content, suspected), st.iter, st.allowed, talk)
      else State(Calling(calls), st.iter, st.allowed, Say(talk, content))
  }

  function AfterGate(st: State, call: Call, tool: nat, verdict: Verdict, rest: seq<Call>): State {
    var talk := st.talk.(gateCalls := st.talk.gateCalls + 1);
    match verdict
    case Approve => State(Dispatching(call, tool, rest), st.iter, st.allowed, talk)
    case Request => State(Parked(call, tool), st.iter, st.allowed, talk)
    case Deny => Continue(st, rest, Observe(talk, DENIED))
    case GateError => Continue(st, rest, Observe(talk, GATE_FAILED))
    case OtherVerdict => Continue(st, rest, talk)
  }

  predicate Nudges(st: State)
    requires st.phase.Silent?
  {
    st.phase.suspected && st.talk.nudges < MAX_NUDGES
  }

  function AfterCall(cfg: Config, st: State, ev: Event): Option<State>
    requires st.phase.Calling? && st.phase.calls != []
  {
    var call, rest := st.phase.calls[0], st.phase.calls[1..];
    if call.name == HANDOFF then
      if ev == HandOff(call) then Some(End(st, FailClose("agent_handoff"))) else None
    else if call.name !in st.allowed then
      if ev == Refuse(call) then Some(Continue(st, rest, Observe(st.talk, REFUSED))) else None
    else if st.talk.gateCalls + 1 > cfg.budget then
      if ev == Exhaust(call) then
        Some(State(Ended(FailClose("budget_exhausted")), st.iter, st.allowed, st.talk.(gateCalls := st.talk.gateCalls + 1)))
      else None
    else if ev.Gate? && ev.call == call && ev.tool == st.allowed[call.name] then
      Some(AfterGate(st, call, ev.tool, ev.verdict, rest))
    else None
  }

  /** The state after one more event, None when the loop cannot do that here. */
  function Next(cfg: Config, st: State, ev: Event): Option<State> {
    match st.phase
    case Idle =>
      if !ev.Open? then None
      else if ev.allowed.None? then Some(End(st, Broken))
      else Some(State(Ready, 0, ev.allowed.value, Opening(cfg)))
    case Ready =>
      if st.iter < cfg.maxIter then
        if ev.Chat? then Some(AfterChat(st, ev.reply)) else None
      else if ev == GiveUp then Some(End(st, FailClose("max_iterations")))
      else None
    case Silent(content, suspected) =>
      if Nudges(st) then
        if ev == Nudge then
          Some(State(Ready, st.iter + 1, st.allowed, Observe(Say(st.talk, content), NUDGE).(nudges := st.talk.nudges + 1)))
        else None
      else if ev == Finish then Some(End(st, Answer(content)))
      else None
    case Calling(calls) => if calls == [] then None else AfterCall(cfg, st, ev)
    case Dispatching(call, tool, rest) =>
      if ev.Dispatch? && ev.call == call && ev.tool == tool then
        Some(Continue(st, rest, Observe(st.talk, OutcomeText(ev.outcome))))
      else None
    case Parked(call, tool) =>
      if !ev.Resume? then None
      else if ev.allowed.None? then Some(End(st, Broken))
      else Some(State(Ready, st.iter, ev.allowed.value, if ev.injected != "" then Observe(st.talk, ev.injected) else st.talk))
    case Ended(result) => None
  }

  /** The state a log of events leads to, None when no run of the loop produces that log. */
  function After(cfg: Config, log: seq<Event>): Option<State>
    decreases |log|
  {
    if log == [] then Some(IDLE)
    else
      match After(cfg, log[..|log| - 1])
      case None => None
      case Some(st) => Next(cfg, st, log[|log| - 1])
  }

  lemma AfterSnoc(cfg: Config, log: seq<Event>, ev: Event)
    requires After(cfg, log).Some?
    ensures After(cfg, log + [ev]) == Next(cfg, After(cfg, log).value, ev)
  {
    assert (log + [ev])[..|log|] == log;
  }

  /** Every prefix of a run is a run. */
  lemma {:induction false} PrefixRuns(cfg: Config, log: seq<Event>, k: nat)
    requires After(cfg, log).Some? && k <= |log|
    ensures After(cfg, log[..k]).Some?
    ensures k < |log| ==> Next(cfg, After(cfg, log[..k]).value, log[k]) == After(cfg, log[..k + 1])
    decreases |log|
  {
    if k == |log| {
      assert log[..k] == log;
    } else {
      var init := log[..|log| - 1];
      PrefixRuns(cfg, init, k);
      assert init[..k] == log[..k];
      if k == |init| {
        assert log[..k + 1] == log;
      } else {
        assert init[..k + 1] == log[..k + 1];
      }
    }
  }

  // ---------------------------------------------------------------- bounds

  function Count(log: seq<Event>, p: Event -> bool): nat
    decreases |log|
  {
    if log == [] then 0 else Count(log[..|log| - 1], p) + if p(log[|log| - 1]) then 1 else 0
  }

  function Chats(log: seq<Event>): nat { Count(log, (e: Event) => e.Chat?) }

  function Evaluations(log: seq<Event>): nat { Count(log, (e: Event) => e.Gate?) }

  function Resumes(log: seq<Event>): nat { Count(log, (e: Event) => e.Resume?) }

  function NudgesGiven(log: seq<Event>): nat { Count(log, (e: Event) => e.Nudge?) }

  function Max0(n: int): nat { if n < 0 then 0 else n }

  predicate MidIteration(st: State) {
    st.phase.Silent? || st.phase.Calling? || st.phase.Dispatching? || st.phase.Parked?
  }

  ghost predicate Ledger(cfg: Config, log: seq<Event>, st: State) {
    && (st.phase.Idle? ==> log == [])
    && (st.phase.Ready? ==> 0 <= st.iter <= Max0(cfg.maxIter))
    && (MidIteration(st) ==> 0 <= st.iter < cfg.maxIter)
    && NudgesGiven(log) == st.talk.nudges <= MAX_NUDGES
    && Evaluations(log) <= Max0(cfg.budget)
    && (!st.phase.Ended? ==> Evaluations(log) == st.talk.gateCalls)
    && (if st.phase.Parked? then Resumes(log) < Evaluations(log) else Resumes(log) <= Evaluations(log))
    && (!st.phase.Ended? ==> Chats(log) == st.iter + Resumes(log) + if MidIteration(st) then 1 else 0)
    && Chats(log) <= Max0(cfg.maxIter) + Resumes(log)
  }

  /** What one more event adds to each count. */
  lemma Tally(log: seq<Event>, ev: Event)
    ensures Chats([]) == Evaluations([]) == Resumes([]) == NudgesGiven([]) == 0
    ensures Chats(log + [ev]) == Chats(log) + if ev.Chat? then 1 else 0
    ensures Evaluations(log + [ev]) == Evaluations(log) + if ev.Gate? then 1 else 0
    ensures Resumes(log + [ev]) == Resumes(log) + if ev.Resume? then 1 else 0
    ensures NudgesGiven(log + [ev]) == NudgesGiven(log) + if ev.Nudge? then 1 else 0
  {
    assert (log + [ev])[..|log|] == log;
  }

  lemma LedgerStep(cfg: Config, log: seq<Event>, st: State, ev: Event)
    requires Ledger(cfg, log, st) && Next(cfg, st, ev).Some?
    requires 0 <= st.iter
    ensures Ledger(cfg, log + [ev], Next(cfg, st, ev).value) && 0 <= Next(cfg, st, ev).value.iter
  {
    hide Count;
    Tally(log, ev);
  }

  lemma {:induction false} LedgerHolds(cfg: Config, log: seq<Event>)
    requires After(cfg, log).Some?
    ensures Ledger(cfg, log, After(cfg, log).value) && 0 <= After(cfg, log).value.iter
    decreases |log|
  {
    hide Count, Next;
    if log == [] {
      Tally([], GiveUp);
    } else {
      var n := |log| - 1;
      LedgerHolds(cfg, log[..n]);
      LedgerStep(cfg, log[..n], After(cfg, log[..n]).value, log[n]);
      assert log[..n] + [log[n]] == log;
    }
  }

  /** Over all segments of one stage run: gate evaluations stay within the budget, resumes within the
      evaluations (so segments within budget + 1), nudges within 2, model calls within maxIter + budget. */
  lemma RunIsBounded(cfg: Config, log: seq<Event>)
    requires After(cfg, log).Some?
    ensures Evaluations(log) <= Max0(cfg.budget) && Resumes(log) <= Evaluations(log)
    ensures NudgesGiven(log) <= MAX_NUDGES
    ensures Chats(log) <= Max0(cfg.maxIter) + Resumes(log) <= Max0(cfg.maxIter) + Max0(cfg.budget)
  {
    LedgerHolds(cfg, log);
  }
}
