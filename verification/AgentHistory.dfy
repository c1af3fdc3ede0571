/** What every run of the agent loop guarantees: dispatch discipline, honest results, a faithful record. */
module AgentHistory {
  import opened Lifecycle
  import opened Agent

  // ---------------------------------------------------------------- dispatch discipline

  /** The tools the segment under way resolved from the allowlist. */
  function AllowedNow(log: seq<Event>): Allowed
    decreases |log|
  {
    if log == [] then map[]
    else
      var last := log[|log| - 1];
      if (last.Open? || last.Resume?) && last.allowed.Some? then last.allowed.value else AllowedNow(log[..|log| - 1])
  }

  predicate Permits(allowed: Allowed, call: Call, tool: nat) {
    call.name != HANDOFF && call.name in allowed && allowed[call.name] == tool
  }

  /** The last event explains the phase. */
  ghost predicate LastExplains(log: seq<Event>, st: State) {
    && (st.phase.Dispatching? ==> log != [] && log[|log| - 1] == Gate(st.phase.call, st.phase.tool, Approve))
    && (log != [] && log[|log| - 1].Gate? && log[|log| - 1].verdict == Approve ==>
          st.phase.Dispatching? && st.phase.call == log[|log| - 1].call && st.phase.tool == log[|log| - 1].tool)
    && (st.phase.Silent? ==> log != [] && log[|log| - 1] == Chat(Reply(st.phase.content, [], st.phase.suspected)))
  }

  ghost predicate Disciplined(log: seq<Event>, st: State) {
    && (!st.phase.Idle? && !st.phase.Ended? ==> st.allowed == AllowedNow(log))
    && (st.phase.Dispatching? ==> Permits(st.allowed, st.phase.call, st.phase.tool))
    && LastExplains(log, st)
  }

  lemma LastStep(cfg: Config, log: seq<Event>, st: State, ev: Event)
    requires Next(cfg, st, ev).Some?
    ensures LastExplains(log + [ev], Next(cfg, st, ev).value)
  {
  }

  lemma AllowedStep(cfg: Config, st: State, ev: Event)
    requires Next(cfg, st, ev).Some? && !Next(cfg, st, ev).value.phase.Ended?
    ensures Next(cfg, st, ev).value.allowed == (
      if (ev.Open? || ev.Resume?) && ev.allowed.Some? then ev.allowed.value else st.allowed)
    ensures st.phase.Idle? ==> ev.Open? && ev.allowed.Some?
    ensures !st.phase.Ended? && !Next(cfg, st, ev).value.phase.Idle?
  {
  }

  lemma DisciplineStep(cfg: Config, log: seq<Event>, st: State, ev: Event)
    requires Disciplined(log, st) && Next(cfg, st, ev).Some?
    ensures Disciplined(log + [ev], Next(cfg, st, ev).value)
  {
    assert (log + [ev])[..|log|] == log;
    LastStep(cfg, log, st, ev);
    if !Next(cfg, st, ev).value.phase.Ended? {
      AllowedStep(cfg, st, ev);
    }
    PermitStep(cfg, st, ev);
  }

  lemma PermitStep(cfg: Config, st: State, ev: Event)
    requires Next(cfg, st, ev).Some?
    ensures var next := Next(cfg, st, ev).value;
      next.phase.Dispatching? ==> Permits(next.allowed, next.phase.call, next.phase.tool)
    ensures ev.Gate? ==> Permits(st.allowed, ev.call, ev.tool)
    ensures ev.HandOff? ==> Next(cfg, st, ev).value.phase == Ended(FailClose("agent_handoff"))
    ensures ev.Dispatch? ==> st.phase.Dispatching? && ev.call == st.phase.call && ev.tool == st.phase.tool
    ensures st.phase.Dispatching? ==> ev.Dispatch?
    ensures !st.phase.Ended? && (ev.Gate? || ev.Dispatch? ==> !st.phase.Idle?)
  {
  }

  lemma {:induction false} DisciplineHolds(cfg: Config, log: seq<Event>)
    requires After(cfg, log).Some?
    ensures Disciplined(log, After(cfg, log).value)
    decreases |log|
  {
    if log != [] {
      var n := |log| - 1;
      DisciplineHolds(cfg, log[..n]);
      DisciplineStep(cfg, log[..n], After(cfg, log[..n]).value, log[n]);
      assert log[..n] + [log[n]] == log;
    }
  }

  lemma StepAt(cfg: Config, log: seq<Event>, k: nat) returns (st: State, next: State)
    requires After(cfg, log).Some? && k < |log|
    ensures After(cfg, log[..k]) == Some(st) && After(cfg, log[..k + 1]) == Some(next) && Next(cfg, st, log[k]) == Some(next)
  {
    PrefixRuns(cfg, log, k);
    PrefixRuns(cfg, log, k + 1);
    st, next := After(cfg, log[..k]).value, After(cfg, log[..k + 1]).value;
  }

  /** In the trace of a whole stage run, across resumes: a dispatch directly follows the gate's approval
      of the same call and an approval is directly followed by that dispatch; what is gated or dispatched
      is on the segment's allowlist; the handoff tool is neither, and calling it ends the run. */
  lemma DispatchDiscipline(cfg: Config, log: seq<Event>, k: nat)
    requires After(cfg, log).Some? && k < |log|
    ensures log[k].Dispatch? ==> k > 0 && log[k - 1] == Gate(log[k].call, log[k].tool, Approve)
    ensures log[k].Gate? && log[k].verdict == Approve && k + 1 < |log| ==>
      log[k + 1].Dispatch? && log[k + 1].call == log[k].call && log[k + 1].tool == log[k].tool
    ensures log[k].Gate? || log[k].Dispatch? ==> Permits(AllowedNow(log[..k]), log[k].call, log[k].tool)
    ensures log[k].HandOff? ==> k == |log| - 1 && After(cfg, log).value.phase == Ended(FailClose("agent_handoff"))
  {
    var st, next := StepAt(cfg, log, k);
    DisciplineHolds(cfg, log[..k]);
    PermitStep(cfg, st, log[k]);
    ApprovedJustBefore(log, k, st);
    if k + 1 == |log| {
      assert log[..k + 1] == log;
    } else {
      DisciplineHolds(cfg, log[..k + 1]);
      ApprovedHere(log, k, next);
      var next', after := StepAt(cfg, log, k + 1);
      PermitStep(cfg, next', log[k + 1]);
    }
  }

  lemma ApprovedJustBefore(log: seq<Event>, k: nat, st: State)
    requires k < |log| && LastExplains(log[..k], st)
    ensures st.phase.Dispatching? ==> k > 0 && log[k - 1] == Gate(st.phase.call, st.phase.tool, Approve)
  {
    assert k > 0 ==> log[..k][k - 1] == log[k - 1];
  }

  lemma ApprovedHere(log: seq<Event>, k: nat, next: State)
    requires k < |log| && LastExplains(log[..k + 1], next)
    ensures log[k].Gate? && log[k].verdict == Approve ==>
      next.phase.Dispatching? && next.phase.call == log[k].call && next.phase.tool == log[k].tool
  {
    assert log[..k + 1][k] == log[k];
  }

  ghost predicate EndsHonestly(log: seq<Event>, st: State) {
    st.phase.Ended? && st.phase.result.Answer? ==>
      && |log| >= 2 && log[|log| - 1] == Finish
      && log[|log| - 2].Chat? && log[|log| - 2].reply.Reply?
      && log[|log| - 2].reply.calls == [] && log[|log| - 2].reply.content == st.phase.result.content
      && (log[|log| - 2].reply.suspected ==> NudgesGiven(log) == MAX_NUDGES)
  }

  /** A result that is not a fail-close is the content of a last turn that proposed no tool call, and a
      turn that looked like a botched call is accepted only once the two nudges are spent. */
  lemma AnswersOnlyWithoutCalls(cfg: Config, log: seq<Event>)
    requires After(cfg, log).Some?
    ensures EndsHonestly(log, After(cfg, log).value)
  {
    if log != [] {
      var n := |log| - 1;
      PrefixRuns(cfg, log, n);
      assert log[..n + 1] == log;
      DisciplineHolds(cfg, log[..n]);
      LedgerHolds(cfg, log[..n]);
      assert n > 0 ==> log[..n][n - 1] == log[n - 1];
    }
  }

  // ---------------------------------------------------------------- the record

  function Spoken(turns: seq<Turn>): seq<Message> {
    seq(|turns|, i requires 0 <= i < |turns| => Message(turns[i].role, turns[i].content))
  }

  lemma SpokenAppend(a: seq<Turn>, b: seq<Turn>)
    ensures Spoken(a + b) == Spoken(a) + Spoken(b)
  {
  }

  /** The record without its optional system entry. */
  function Body(cfg: Config, turns: seq<Turn>): seq<Turn> {
    if cfg.system != "" && turns != [] then turns[1..] else turns
  }

  predicate InConversation(st: State) {
    st.phase.Ready? || st.phase.Calling? || st.phase.Dispatching? || st.phase.Parked?
  }

  ghost predicate Faithful(cfg: Config, st: State) {
    && (InConversation(st) ==> st.talk.transcript != [] && Spoken(Body(cfg, st.talk.transcript)) == st.talk.messages)
    && (st.phase.Silent? ==>
          && st.talk.transcript != []
          && Spoken(Body(cfg, st.talk.transcript)) == st.talk.messages + [Message(Assistant, st.phase.content)])
  }

  lemma BodyAppend(cfg: Config, turns: seq<Turn>, t: Turn)
    requires turns != []
    ensures Spoken(Body(cfg, turns + [t])) == Spoken(Body(cfg, turns)) + [Message(t.role, t.content)]
  {
    SpokenAppend(Body(cfg, turns), [t]);
    assert Body(cfg, turns + [t]) == Body(cfg, turns) + [t];
  }

  /** The turns an event adds to the record. */
  function Lines(cfg: Config, ev: Event): seq<Turn> {
    match ev
    case Open(allowed) =>
      if allowed.None? then []
      else if cfg.system == "" then [Turn(User, cfg.prompt, [])]
      else [Turn(System, cfg.system, []), Turn(User, cfg.prompt, [])]
    case Chat(reply) => if reply.Reply? then [Turn(Assistant, reply.content, reply.calls)] else []
    case Nudge => [Turn(ToolResult, NUDGE, [])]
    case Refuse(_) => [Turn(ToolResult, REFUSED, [])]
    case Gate(_, _, verdict) =>
      if verdict == Deny then [Turn(ToolResult, DENIED, [])]
      else if verdict == GateError then [Turn(ToolResult, GATE_FAILED, [])]
      else []
    case Dispatch(_, _, Ok(text)) => [Turn(ToolResult, text, [])]
    case Dispatch(_, _, Failed(error)) => [Turn(ToolResult, "error: " + error, [])]
    case Resume(injected, allowed) => if allowed.Some? && injected != "" then [Turn(ToolResult, injected, [])] else []
    case _ => []
  }

  lemma RecordStep(cfg: Config, st: State, ev: Event)
    requires Next(cfg, st, ev).Some? && (st.phase.Idle? ==> st == IDLE)
    ensures Next(cfg, st, ev).value.talk.transcript == st.talk.transcript + Lines(cfg, ev)
    ensures !Next(cfg, st, ev).value.phase.Idle?
  {
  }

  lemma ObserveFaithful(cfg: Config, t: Talk, content: string)
    requires t.transcript != []
    ensures Spoken(Body(cfg, Observe(t, content).transcript)) == Spoken(Body(cfg, t.transcript)) + [Message(ToolResult, content)]
  {
    BodyAppend(cfg, t.transcript, Turn(ToolResult, content, []));
  }

  lemma FaithfulCall(cfg: Config, st: State, ev: Event)
    requires Faithful(cfg, st) && st.phase.Calling? && st.phase.calls != [] && AfterCall(cfg, st, ev).Some?
    ensures Faithful(cfg, AfterCall(cfg, st, ev).value)
  {
    ObserveFaithful(cfg, st.talk, REFUSED);
    ObserveFaithful(cfg, st.talk, DENIED);
    ObserveFaithful(cfg, st.talk, GATE_FAILED);
  }

  lemma FaithfulChat(cfg: Config, st: State, reply: Reply)
    requires Faithful(cfg, st) && st.phase.Ready?
    ensures Faithful(cfg, AfterChat(st, reply))
  {
    if reply.Reply? {
      BodyAppend(cfg, st.talk.transcript, Turn(Assistant, reply.content, reply.calls));
    }
  }

  lemma FaithfulStep(cfg: Config, st: State, ev: Event)
    requires Faithful(cfg, st) && Next(cfg, st, ev).Some?
    ensures Faithful(cfg, Next(cfg, st, ev).value)
  {
    match st.phase
    case Ready => FaithfulChat(cfg, st, if ev.Chat? then ev.reply else ChatError);
    case Silent(content, _) => ObserveFaithful(cfg, st.talk, NUDGE);
    case Calling(calls) => FaithfulCall(cfg, st, ev);
    case Dispatching(_, _, _) => ObserveFaithful(cfg, st.talk, OutcomeText(ev.outcome));
    case Parked(_, _) => ObserveFaithful(cfg, st.talk, ev.injected);
    case _ =>
  }

  /** At every loop head, in every saved state and after every resume the record without its system
      entry is, by role and content, the message list the model is shown. */
  lemma {:induction false} FaithfulTranscript(cfg: Config, log: seq<Event>)
    requires After(cfg, log).Some?
    ensures Faithful(cfg, After(cfg, log).value)
    decreases |log|
  {
    if log != [] {
      FaithfulTranscript(cfg, log[..|log| - 1]);
      FaithfulStep(cfg, After(cfg, log[..|log| - 1]).value, log[|log| - 1]);
    }
  }

  function History(cfg: Config, log: seq<Event>): seq<Turn>
    decreases |log|
  {
    if log == [] then [] else History(cfg, log[..|log| - 1]) + Lines(cfg, log[|log| - 1])
  }

  /** The record is the history of the run, event by event, nothing lost over saves and resumes. */
  lemma {:induction false} TranscriptIsHistory(cfg: Config, log: seq<Event>)
    requires After(cfg, log).Some?
    ensures After(cfg, log).value.talk.transcript == History(cfg, log)
    ensures After(cfg, log).value.phase.Idle? ==> log == []
    decreases |log|
  {
    if log != [] {
      TranscriptIsHistory(cfg, log[..|log| - 1]);
      RecordStep(cfg, After(cfg, log[..|log| - 1]).value, log[|log| - 1]);
    }
  }

  /** A turn that stops for the owner loses its remaining calls: what follows is the injected outcome
      and a new model turn in the same iteration. */
  lemma PendingDropsTheRest(cfg: Config, log: seq<Event>, k: nat)
    requires After(cfg, log).Some? && k < |log| && log[k].Gate? && log[k].verdict == Request
    ensures k + 1 < |log| ==> log[k + 1].Resume?
    ensures k + 2 < |log| ==> log[k + 2].Chat?
    ensures k + 2 < |log| ==> (
      && After(cfg, log[..k + 2]).Some? && After(cfg, log[..k]).Some?
      && After(cfg, log[..k + 2]).value.iter == After(cfg, log[..k]).value.iter)
  {
    var asked, parked := StepAt(cfg, log, k);
    LedgerHolds(cfg, log[..k]);
    RequestParks(cfg, asked, log[k]);
    if k + 1 < |log| {
      var parked', back := StepAt(cfg, log, k + 1);
      ResumeRestarts(cfg, parked', log[k + 1]);
      if k + 2 < |log| {
        var back', said := StepAt(cfg, log, k + 2);
        LedgerOfPhase(cfg, asked, log[..k]);
        ReadyChats(cfg, back', log[k + 2]);
      }
    }
  }

  lemma LedgerOfPhase(cfg: Config, st: State, log: seq<Event>)
    requires Ledger(cfg, log, st) && st.phase.Calling?
    ensures st.iter < cfg.maxIter
  {
  }

  lemma RequestParks(cfg: Config, st: State, ev: Event)
    requires Next(cfg, st, ev).Some? && ev.Gate? && ev.verdict == Request
    ensures st.phase.Calling? && Next(cfg, st, ev).value.phase.Parked? && Next(cfg, st, ev).value.iter == st.iter
  {
  }

  lemma ResumeRestarts(cfg: Config, st: State, ev: Event)
    requires Next(cfg, st, ev).Some? && st.phase.Parked?
    ensures ev.Resume? && Next(cfg, st, ev).value.iter == st.iter
    ensures Next(cfg, st, ev).value.phase.Ready? || Next(cfg, st, ev).value.phase.Ended?
  {
  }

  lemma ReadyChats(cfg: Config, st: State, ev: Event)
    requires Next(cfg, st, ev).Some? && (st.phase.Ended? || st.phase.Ready?) && st.iter < cfg.maxIter
    ensures ev.Chat?
  {
  }
}
