/** What becomes of the tool calls of a turn: each is handled once, in order, by the branch that is due. */
module AgentCalls {
  import opened Lifecycle
  import opened Agent
  import opened AgentHistory

  /** The events that settle one proposed call. */
  predicate Settles(ev: Event) {
    ev.HandOff? || ev.Refuse? || ev.Exhaust? || ev.Gate?
  }

  /** The calls settled by these events. */
  function Settled(events: seq<Event>): seq<Call>
    decreases |events|
  {
    if events == [] then []
    else Settled(events[..|events| - 1]) + if Settles(events[|events| - 1]) then [events[|events| - 1].call] else []
  }

  // ---------------------------------------------------------------- the latest turn

  function Proposed(ev: Event): seq<Call> {
    if ev.Chat? && ev.reply.Reply? then ev.reply.calls else []
  }

  /** What the latest model turn of the log proposed. */
  function Turn(log: seq<Event>): seq<Call>
    decreases |log|
  {
    if log == [] then []
    else if log[|log| - 1].Chat? then Proposed(log[|log| - 1])
    else Turn(log[..|log| - 1])
  }

  /** What has been settled since. */
  function Since(log: seq<Event>): seq<Call>
    decreases |log|
  {
    if log == [] || log[|log| - 1].Chat? then []
    else Since(log[..|log| - 1]) + if Settles(log[|log| - 1]) then [log[|log| - 1].call] else []
  }

  lemma Snoc(log: seq<Event>, ev: Event)
    ensures Turn(log + [ev]) == if ev.Chat? then Proposed(ev) else Turn(log)
    ensures Since(log + [ev]) == if ev.Chat? then [] else Since(log) + if Settles(ev) then [ev.call] else []
  {
    assert (log + [ev])[..|log|] == log;
  }

  /** The calls still to be settled are the rest of the turn. */
  ghost predicate OnTurn(log: seq<Event>, st: State) {
    && (st.phase.Idle? ==> log == [])
    && (st.phase.Calling? ==> Turn(log) == Since(log) + st.phase.calls)
    && (st.phase.Dispatching? ==> Turn(log) == Since(log) + st.phase.rest)
    && (st.phase.Silent? ==> Turn(log) == Since(log) == [])
    && (st.phase.Ready? ==> Turn(log) == Since(log) || (log != [] && log[|log| - 1].Resume?))
    && Since(log) <= Turn(log)
  }

  lemma Prefixed(a: seq<Call>, b: seq<Call>)
    ensures a <= a + b
    ensures b != [] ==> a + b == (a + [b[0]]) + b[1..] && a + [b[0]] <= a + b
  {
  }

  lemma CallStep(cfg: Config, log: seq<Event>, st: State, ev: Event)
    requires OnTurn(log, st) && st.phase.Calling? && Next(cfg, st, ev).Some?
    ensures OnTurn(log + [ev], Next(cfg, st, ev).value)
  {
    hide Turn, Since;
    Snoc(log, ev);
    Prefixed(Since(log), st.phase.calls);
  }

  lemma ChatStep(cfg: Config, log: seq<Event>, st: State, reply: Reply)
    requires st.phase.Ready?
    ensures OnTurn(log + [Chat(reply)], AfterChat(st, reply))
  {
    hide Turn, Since;
    Snoc(log, Chat(reply));
    assert [] + Proposed(Chat(reply)) == Proposed(Chat(reply));
  }

  /** Where the loop goes from a phase that settles no call. */
  lemma PhaseStep(cfg: Config, st: State, ev: Event)
    requires !st.phase.Calling? && !ev.Chat? && Next(cfg, st, ev).Some?
    ensures !Settles(ev)
    ensures var phase := Next(cfg, st, ev).value.phase;
      || phase.Ended?
      || (phase.Ready? && (st.phase.Idle? || st.phase.Silent? || ev.Resume? || (st.phase.Dispatching? && st.phase.rest == [])))
      || (phase.Calling? && st.phase.Dispatching? && phase.calls == st.phase.rest)
  {
  }

  lemma TurnStep(cfg: Config, log: seq<Event>, st: State, ev: Event)
    requires OnTurn(log, st) && !st.phase.Calling? && !ev.Chat? && Next(cfg, st, ev).Some?
    requires st.phase.Idle? ==> Turn(log) == Since(log)
    ensures OnTurn(log + [ev], Next(cfg, st, ev).value)
  {
    hide Turn, Since, Next;
    Snoc(log, ev);
    PhaseStep(cfg, st, ev);
    assert (log + [ev])[|log|] == ev;
    assert Since(log) + [] == Since(log);
  }

  lemma {:induction false} OnTurnAlways(cfg: Config, log: seq<Event>)
    requires After(cfg, log).Some?
    ensures OnTurn(log, After(cfg, log).value)
    decreases |log|
  {
    if log != [] {
      var n := |log| - 1;
      OnTurnAlways(cfg, log[..n]);
      var st := After(cfg, log[..n]).value;
      assert log[..n] + [log[n]] == log;
      if st.phase.Calling? {
        CallStep(cfg, log[..n], st, log[n]);
      } else if log[n].Chat? {
        ChatStep(cfg, log[..n], st, log[n].reply);
      } else {
        TurnStep(cfg, log[..n], st, log[n]);
      }
    }
  }

  // ---------------------------------------------------------------- by position

  /** The latest turn before position m is the one at k. */
  ghost predicate LatestTurn(log: seq<Event>, k: nat, m: nat) {
    k < m <= |log| && log[k].Chat? && forall j :: k < j < m ==> !log[j].Chat?
  }

  lemma {:induction false} SinceTurn(log: seq<Event>, k: nat, m: nat)
    requires LatestTurn(log, k, m)
    ensures Turn(log[..m]) == Proposed(log[k]) && Since(log[..m]) == Settled(log[k + 1..m])
    decreases m
  {
    var n := m - 1;
    assert log[..m][..n] == log[..n];
    if n > k {
      SinceTurn(log, k, n);
      assert log[k + 1..m][..n - k - 1] == log[k + 1..n];
      assert log[k + 1..m][n - k - 1] == log[n];
    }
  }

  lemma {:induction false} NoTurn(log: seq<Event>, m: nat)
    requires m <= |log| && forall j :: 0 <= j < m ==> !log[j].Chat?
    ensures Turn(log[..m]) == []
  {
    if m > 0 {
      NoTurn(log, m - 1);
      assert log[..m][..m - 1] == log[..m - 1];
    }
  }

  lemma {:induction false} FindTurn(log: seq<Event>, m: nat) returns (k: nat)
    requires m <= |log| && exists j :: 0 <= j < m && log[j].Chat?
    ensures LatestTurn(log, k, m)
  {
    k := m - 1;
    if !log[k].Chat? {
      k := FindTurn(log, m - 1);
    }
  }

  /** The calls of a turn are settled one by one in the order the model proposed them: up to any position
      before the next turn a first part of them is, and all of them are once the next turn is taken, or
      the run gives up or finishes, unless the owner was asked. */
  lemma CallsInOrder(cfg: Config, log: seq<Event>, k: nat, m: nat)
    requires After(cfg, log).Some? && LatestTurn(log, k, m) && log[k].reply.Reply?
    ensures Settled(log[k + 1..m]) <= log[k].reply.calls
    ensures m < |log| && (log[m].Chat? || log[m].GiveUp? || log[m].Finish?) && !log[m - 1].Resume? ==>
      Settled(log[k + 1..m]) == log[k].reply.calls
  {
    SinceTurn(log, k, m);
    PrefixRuns(cfg, log, m);
    OnTurnAlways(cfg, log[..m]);
    if m < |log| {
      var st, next := StepAt(cfg, log, m);
      assert log[..m][m - 1] == log[m - 1];
    }
  }

  /** What is settled at m is the call of the latest turn whose number is how many were settled before. */
  lemma NoCallWithoutTurn(cfg: Config, log: seq<Event>, m: nat) returns (k: nat)
    requires After(cfg, log).Some? && m < |log| && Settles(log[m])
    ensures LatestTurn(log, k, m) && log[k].reply.Reply?
    ensures var i := |Settled(log[k + 1..m])|; i < |log[k].reply.calls| && log[m].call == log[k].reply.calls[i]
  {
    hide After, Next, Turn, Since, Settled;
    var st, next := StepAt(cfg, log, m);
    OnTurnAlways(cfg, log[..m]);
    SettlesInCalling(cfg, st, log[m]);
    if forall j :: 0 <= j < m ==> !log[j].Chat? {
      NoTurn(log, m);
    }
    k := FindTurn(log, m);
    SinceTurn(log, k, m);
  }

  lemma SettlesInCalling(cfg: Config, st: State, ev: Event)
    requires Next(cfg, st, ev).Some? && Settles(ev)
    ensures st.phase.Calling? && st.phase.calls != [] && ev.call == st.phase.calls[0]
  {
  }

  // ---------------------------------------------------------------- which branch is due

  /** The branch a call takes: the handoff tool hands off, a name not on the allowlist is refused, a call
      beyond the budget exhausts it, and every other one is gated under the tool of its name. */
  lemma BranchExact(cfg: Config, log: seq<Event>, m: nat)
    requires After(cfg, log).Some? && m < |log| && Settles(log[m])
    ensures var name, allowed, spent := log[m].call.name, AllowedNow(log[..m]), Evaluations(log[..m]);
      && (log[m].HandOff? <==> name == "handoff_to_human")
      && (log[m].Refuse? <==> name != "handoff_to_human" && name !in allowed)
      && (log[m].Exhaust? <==> name != "handoff_to_human" && name in allowed && spent >= cfg.budget)
      && (log[m].Gate? <==> name != "handoff_to_human" && name in allowed && spent < cfg.budget)
      && (log[m].Gate? ==> log[m].tool == allowed[name])
  {
    hide Count;
    var st, next := StepAt(cfg, log, m);
    DisciplineHolds(cfg, log[..m]);
    LedgerHolds(cfg, log[..m]);
    SettlesInCalling(cfg, st, log[m]);
  }

  /** A nudge follows a turn without calls that looks like a botched one, and only twice. */
  lemma NudgeExact(cfg: Config, log: seq<Event>, m: nat)
    requires After(cfg, log).Some? && 0 < m < |log| && log[m - 1].Chat? && log[m - 1].reply.Reply? && log[m - 1].reply.calls == []
    ensures log[m] == if log[m - 1].reply.suspected && NudgesGiven(log[..m]) < 2 then Nudge else Finish
  {
    hide Count;
    var before, mid := StepAt(cfg, log, m - 1);
    var st, next := StepAt(cfg, log, m);
    LedgerHolds(cfg, log[..m]);
    SilentAfter(cfg, before, log[m - 1]);
  }

  lemma SilentAfter(cfg: Config, st: State, ev: Event)
    requires Next(cfg, st, ev).Some? && ev.Chat? && ev.reply.Reply? && ev.reply.calls == []
    ensures Next(cfg, st, ev).value.phase == Silent(ev.reply.content, ev.reply.suspected)
  {
  }

  /** How a run ends is told by its last event, and by no other does it end. */
  function Ending(ev: Event): Option<Result> {
    match ev
    case HandOff(_) => Some(FailClose("agent_handoff"))
    case Exhaust(_) => Some(FailClose("budget_exhausted"))
    case GiveUp => Some(FailClose("max_iterations"))
    case Chat(reply) => if reply.ChatError? then Some(FailClose("gateway_error")) else None
    case Open(allowed) => if allowed.None? then Some(Broken) else None
    case Resume(_, allowed) => if allowed.None? then Some(Broken) else None
    case _ => None
  }

  lemma EndsExactly(cfg: Config, log: seq<Event>, m: nat)
    requires After(cfg, log).Some? && m < |log|
    ensures Ending(log[m]).Some? || log[m].Finish? ==> m == |log| - 1
    ensures m == |log| - 1 && !log[m].Finish? ==>
      (match Ending(log[m])
       case Some(result) => After(cfg, log).value.phase == Ended(result)
       case None => !After(cfg, log).value.phase.Ended?)
    ensures m == |log| - 1 && log[m].Finish? ==> After(cfg, log).value.phase.Ended? && After(cfg, log).value.phase.result.Answer?
  {
    var st, next := StepAt(cfg, log, m);
    EndStep(cfg, st, log[m]);
    if m < |log| - 1 {
      var st', next' := StepAt(cfg, log, m + 1);
    } else {
      assert log[..m + 1] == log;
    }
  }

  lemma EndStep(cfg: Config, st: State, ev: Event)
    requires Next(cfg, st, ev).Some?
    ensures var phase := Next(cfg, st, ev).value.phase;
      if ev.Finish? then phase.Ended? && phase.result.Answer?
      else if Ending(ev).Some? then phase == Ended(Ending(ev).value)
      else !phase.Ended?
  {
  }

  /** The owner is asked exactly for the calls whose gate requests it, and only then does a run resume. */
  lemma ResumesExactly(cfg: Config, log: seq<Event>, m: nat)
    requires After(cfg, log).Some? && 0 < m < |log|
    ensures log[m].Resume? <==> log[m - 1].Gate? && log[m - 1].verdict == Request
  {
    var before, mid := StepAt(cfg, log, m - 1);
    var st, next := StepAt(cfg, log, m);
    ParksOnRequest(cfg, before, log[m - 1]);
    ParkedResumes(cfg, st, log[m]);
  }

  lemma ParksOnRequest(cfg: Config, st: State, ev: Event)
    requires Next(cfg, st, ev).Some?
    ensures Next(cfg, st, ev).value.phase.Parked? <==> ev.Gate? && ev.verdict == Request
  {
  }

  lemma ParkedResumes(cfg: Config, st: State, ev: Event)
    requires Next(cfg, st, ev).Some?
    ensures st.phase.Parked? <==> ev.Resume?
  {
  }

  /** At the loop head the model is asked again while iterations are left, and the run gives up when none is. */
  lemma GivesUpExactly(cfg: Config, log: seq<Event>, m: nat)
    requires After(cfg, log).Some? && m < |log|
    ensures log[m].GiveUp? ==> Chats(log[..m]) - Resumes(log[..m]) == Max0(cfg.maxIter)
    ensures log[m].Chat? ==> Chats(log[..m]) - Resumes(log[..m]) < cfg.maxIter
  {
    hide Count;
    var st, next := StepAt(cfg, log, m);
    LedgerHolds(cfg, log[..m]);
  }
}
