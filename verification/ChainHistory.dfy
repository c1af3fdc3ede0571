/** What whole runs of the chain machine, crashes included, say about the states a task has been in. */
module ChainHistory {
  import opened Lifecycle
  import opened Relations
  import opened Readiness
  import opened ChainProtocol
  import opened ChainSafety
  import opened ChainWakeups

  lemma {:induction false} RunAppend(w: World, steps: seq<Step>, i: nat)
    requires i <= |steps| && LegalRun(w, steps)
    ensures LegalRun(w, steps[..i]) && LegalRun(Run(w, steps[..i]), steps[i..])
    ensures Run(Run(w, steps[..i]), steps[i..]) == Run(w, steps)
    decreases i
  {
    if i == 0 {
      assert steps[..0] == [] && steps[0..] == steps;
    } else {
      RunAppend(Apply(w, steps[0]), steps[1..], i - 1);
      assert steps[..i][1..] == steps[1..][..i - 1] && steps[i..] == steps[1..][i - 1..];
    }
  }

  /** Terminal states never change, so a cancelled task is never later DONE, and states only climb. */
  lemma {:induction false} TerminalForever(w: World, steps: seq<Step>, t: TaskId)
    requires Sound(w) && LegalRun(w, steps) && t in w.tasks
    ensures t in Run(w, steps).tasks
    ensures w.Terminal(t) ==> Run(w, steps).tasks[t].state == w.tasks[t].state
    ensures Rank(w.tasks[t].state) <= Rank(Run(w, steps).tasks[t].state)
    ensures Run(w, steps).tasks[t].state == w.tasks[t].state || Rank(w.tasks[t].state) < Rank(Run(w, steps).tasks[t].state)
    decreases |steps|
  {
    hide Apply, TaskOk, ActOk, ValidTable;
    if steps != [] {
      StepKeepsSound(w, steps[0]);
      assert StateMove(w, steps[0], t, Apply(w, steps[0]).tasks[t]);
      TerminalForever(Apply(w, steps[0]), steps[1..], t);
    }
  }

  /** Step `i` let `t` into EXECUTING: it was an evaluation that found every blocker terminal and the
      start date reached. */
  ghost predicate EntersExecution(w: World, step: Step, t: TaskId) {
    && t in w.tasks && t in w.chains && Enabled(w, step)
    && step == Advance(t) && w.chains[t].pc == AtGate && !w.Terminal(t)
    && IsReady(w.edges, StatesOf(w.tasks), t, w.tasks[t].startsAt, w.now)
  }

  lemma {:induction false} FindEntry(w: World, steps: seq<Step>, t: TaskId) returns (i: nat)
    requires Sound(w) && LegalRun(w, steps)
    requires t in w.tasks ==> w.tasks[t].state !in {Executing, Done}
    requires t in Run(w, steps).tasks && Run(w, steps).tasks[t].state in {Executing, Done}
    ensures i < |steps| && LegalRun(w, steps[..i]) && EntersExecution(Run(w, steps[..i]), steps[i], t)
    decreases |steps|
  {
    hide ActOk, ValidTable;
    var next := Apply(w, steps[0]);
    StepKeepsSound(w, steps[0]);
    if t in w.tasks {
      assert StateMove(w, steps[0], t, next.tasks[t]);
      assert TaskOk(w, t);
    }
    if t in w.tasks && next.tasks[t].state == Executing {
      i := 0;
      assert steps[..0] == [];
    } else {
      i := FindEntry(next, steps[1..], t);
      assert steps[..i + 1][1..] == steps[1..][..i] && steps[..i + 1][0] == steps[0];
      i := i + 1;
    }
  }

  /** Gated execution. Whoever is EXECUTING or DONE came through a readiness evaluation that found
      every blocker terminal, and each blocker cleared then has kept its state ever since. */
  lemma ExecutionWasGated(steps: seq<Step>, t: TaskId) returns (i: nat)
    requires LegalRun(Init, steps)
    requires t in Run(Init, steps).tasks && Run(Init, steps).tasks[t].state in {Executing, Done}
    ensures i < |steps| && LegalRun(Init, steps[..i]) && EntersExecution(Run(Init, steps[..i]), steps[i], t)
    ensures var entry, w := Run(Init, steps[..i]), Run(Init, steps);
      forall b :: Edge(b, t, Blocks) in entry.edges ==>
        b in entry.tasks && entry.Terminal(b) && b in w.tasks && w.tasks[b].state == entry.tasks[b].state
  {
    InitSound();
    i := FindEntry(Init, steps, t);
    RunAppend(Init, steps, i);
    RunKeepsSound(Init, steps[..i]);
    var entry := Run(Init, steps[..i]);
    forall b | Edge(b, t, Blocks) in entry.edges
      ensures b in entry.tasks && entry.Terminal(b)
      ensures b in Run(Init, steps).tasks && Run(Init, steps).tasks[b].state == entry.tasks[b].state
    {
      assert Edge(b, t, Blocks).from in entry.tasks;
      assert entry.Terminal(b) || Edge(b, t, Blocks).from in Unmet(entry.edges, StatesOf(entry.tasks), t);
      TerminalForever(entry, steps[i..], b);
    }
  }

  // ---------------------------------------------------------------- a run in which a crash loses a wake

  ghost predicate Reachable(w: World) {
    exists steps :: LegalRun(Init, steps) && Run(Init, steps) == w
  }

  lemma ReachableStep(w: World, step: Step)
    requires Reachable(w) && Enabled(w, step)
    ensures Reachable(Apply(w, step))
  {
    var steps :| LegalRun(Init, steps) && Run(Init, steps) == w;
    RunSnoc(Init, steps, step);
  }

  lemma {:induction false} RunSnoc(w: World, steps: seq<Step>, step: Step)
    requires LegalRun(w, steps) && Enabled(Run(w, steps), step)
    ensures LegalRun(w, steps + [step]) && Run(w, steps + [step]) == Apply(Run(w, steps), step)
    decreases |steps|
  {
    if steps == [] {
      assert (steps + [step])[1..] == [];
    } else {
      RunSnoc(Apply(w, steps[0]), steps[1..], step);
      assert (steps + [step])[1..] == steps[1..] + [step];
    }
  }

  /** Task 0 blocks task 1; nothing else is going on. */
  function Pair(s0: TaskState, pc0: Pc, s1: TaskState, pc1: Pc): World {
    World(map[0 := Task(s0, None, false), 1 := Task(s1, None, false)],
          {Edge(0, 1, Blocks)},
          map[0 := Chain(pc0, [], false), 1 := Chain(pc1, [], false)],
          map[], 0)
  }

  /** The stages before the gate, and the one after it, just follow each other. */
  function Following(pc: Pc): Pc {
    match pc
    case Starting => Triage
    case Triage => Expansion
    case Expansion => AtGate
    case _ => Completing
  }

  predicate PlainStage(pc: Pc) {
    pc == Starting || pc == Triage || pc == Expansion || pc == Execution
  }

  lemma PlainStageStep(w: World, t: TaskId)
    requires t in w.tasks && t in w.chains && PlainStage(w.chains[t].pc) && !w.Terminal(t)
    ensures CanAdvance(w, t) && DoAdvance(w, t) == SetPc(w, t, Following(w.chains[t].pc))
  {
  }

  lemma FirstStage(s0: TaskState, pc0: Pc, s1: TaskState, pc1: Pc)
    requires Reachable(Pair(s0, pc0, s1, pc1)) && PlainStage(pc0) && !IsTerminal(s0)
    ensures Reachable(Pair(s0, Following(pc0), s1, pc1))
  {
    hide Reachable;
    var w := Pair(s0, pc0, s1, pc1);
    PlainStageStep(w, 0);
    ReachableStep(w, Advance(0));
    assert SetPc(w, 0, Following(pc0)) == Pair(s0, Following(pc0), s1, pc1);
  }

  lemma SecondStage(s0: TaskState, pc0: Pc, s1: TaskState, pc1: Pc)
    requires Reachable(Pair(s0, pc0, s1, pc1)) && PlainStage(pc1) && !IsTerminal(s1)
    ensures Reachable(Pair(s0, pc0, s1, Following(pc1)))
  {
    hide Reachable;
    var w := Pair(s0, pc0, s1, pc1);
    PlainStageStep(w, 1);
    ReachableStep(w, Advance(1));
    assert SetPc(w, 1, Following(pc1)) == Pair(s0, pc0, s1, Following(pc1));
  }

  lemma PairParks()
    requires Reachable(Pair(Accepted, Starting, Accepted, AtGate))
    ensures Reachable(Pair(Accepted, Starting, Waiting, Parked({0}, 0, REEVAL_INTERVAL)))
  {
    hide Reachable;
    var w := Pair(Accepted, Starting, Accepted, AtGate);
    ReachableStep(w, Advance(1));
    PairBlocked(Accepted, Accepted);
    assert StatesOf(w.tasks) == map[0 := Accepted, 1 := Accepted];
    ParkBounds(None, 0);
    assert ReadinessStep(w.tasks, w.edges, 1, 0) ==
      (w.tasks[1 := Task(Waiting, None, false)], NotReady({0}, REEVAL_INTERVAL));
    assert DoAdvance(w, 1) == Pair(Accepted, Starting, Waiting, Parked({0}, 0, REEVAL_INTERVAL));
  }

  lemma PairReady(pc: Pc)
    ensures var w := Pair(Accepted, AtGate, Waiting, pc);
      ReadinessStep(w.tasks, w.edges, 0, 0) == (w.tasks[0 := Task(Executing, None, false)], Ready)
  {
    var w := Pair(Accepted, AtGate, Waiting, pc);
    PairBlocked(Accepted, Waiting);
    assert StatesOf(w.tasks) == map[0 := Accepted, 1 := Waiting];
  }

  lemma PairEnters(pc: Pc)
    requires Reachable(Pair(Accepted, AtGate, Waiting, pc))
    ensures Reachable(Pair(Executing, Execution, Waiting, pc))
  {
    hide Reachable, ReadinessStep;
    var w := Pair(Accepted, AtGate, Waiting, pc);
    ReachableStep(w, Advance(0));
    PairReady(pc);
    assert DoAdvance(w, 0) == Pair(Executing, Execution, Waiting, pc);
  }

  lemma PairCompletes(pc: Pc)
    requires Reachable(Pair(Executing, Completing, Waiting, pc))
    ensures Reachable(Pair(Done, Listing, Waiting, pc))
  {
    hide Reachable;
    var w := Pair(Executing, Completing, Waiting, pc);
    ReachableStep(w, Advance(0));
    assert DoAdvance(w, 0) == Pair(Done, Listing, Waiting, pc);
  }

  lemma InitReachable()
    ensures Reachable(Init)
  {
    assert LegalRun(Init, []) && Run(Init, []) == Init;
  }

  lemma PairReachable()
    ensures Reachable(Pair(Accepted, Starting, Accepted, Starting))
  {
    hide Reachable;
    InitReachable();
    var w0 := Init;
    ReachableStep(w0, Mutate(Create(0, Accepted, None, false)));
    var w1 := Apply(w0, Mutate(Create(0, Accepted, None, false)));
    ReachableStep(w1, Mutate(Create(1, Accepted, None, false)));
    var w2 := Apply(w1, Mutate(Create(1, Accepted, None, false)));
    var e := Edge(0, 1, Blocks);
    assert Targets({}, Blocks, {1}) == {};
    assert Add(w2.tasks.Keys, {}, e) == ({} + {e}, Added);
    ReachableStep(w2, Mutate(AddEdge(e)));
    var w3 := Apply(w2, Mutate(AddEdge(e)));
    ReachableStep(w3, Mutate(Attach(0)));
    var w4 := Apply(w3, Mutate(Attach(0)));
    ReachableStep(w4, Mutate(Attach(1)));
    assert Apply(w4, Mutate(Attach(1))) == Pair(Accepted, Starting, Accepted, Starting);
  }

  lemma PairBlocked(s0: TaskState, s1: TaskState)
    ensures Unmet({Edge(0, 1, Blocks)}, map[0 := s0, 1 := s1], 1) == if IsTerminal(s0) then {} else {0}
    ensures Unmet({Edge(0, 1, Blocks)}, map[0 := s0, 1 := s1], 0) == {}
  {
    var edges := {Edge(0, 1, Blocks)};
    assert Edge(0, 1, Blocks) in edges && Edge(0, 1, Blocks).from == 0;
  }

  lemma PairSecondParked()
    ensures Reachable(Pair(Accepted, Starting, Waiting, Parked({0}, 0, REEVAL_INTERVAL)))
  {
    PairReachable();
    SecondStage(Accepted, Starting, Accepted, Starting);
    SecondStage(Accepted, Starting, Accepted, Triage);
    SecondStage(Accepted, Starting, Accepted, Expansion);
    PairParks();
  }

  lemma PairFirstAtGate(pc: Pc)
    requires Reachable(Pair(Accepted, Starting, Waiting, pc))
    ensures Reachable(Pair(Accepted, AtGate, Waiting, pc))
  {
    FirstStage(Accepted, Starting, Waiting, pc);
    FirstStage(Accepted, Triage, Waiting, pc);
    FirstStage(Accepted, Expansion, Waiting, pc);
  }

  lemma PairFirstDone(pc: Pc)
    requires Reachable(Pair(Accepted, AtGate, Waiting, pc))
    ensures Reachable(Pair(Done, Listing, Waiting, pc))
  {
    PairEnters(pc);
    FirstStage(Executing, Execution, Waiting, pc);
    PairCompletes(pc);
  }

  lemma PairCrashes(pc: Pc)
    requires Reachable(Pair(Done, Listing, Waiting, pc)) && pc.Parked?
    ensures Reachable(Pair(Done, Exited, Waiting, pc))
  {
    hide Reachable;
    var w := Pair(Done, Listing, Waiting, pc);
    ReachableStep(w, Crash);
    assert Recover(w) == Pair(Done, Exited, Waiting, pc);
  }

  /** A crash between the completion commit and the wake sends leaves a dependent parked on nothing
      until its six hours are over: the recovered chain finds its task terminal and returns at once. */
  lemma CrashCanLoseWake()
    ensures exists w, t :: Reachable(w) && Forgotten(w, t) && w.chains[t].pc.deadline == w.now + REEVAL_INTERVAL
  {
    var parked := Parked({0}, 0, REEVAL_INTERVAL);
    PairSecondParked();
    PairFirstAtGate(parked);
    PairFirstDone(parked);
    PairCrashes(parked);
    PairForgotten(parked);
  }

  lemma PairForgotten(pc: Pc)
    requires pc.Parked? && pc.on != {}
    ensures Forgotten(Pair(Done, Exited, Waiting, pc), 1)
  {
    var w := Pair(Done, Exited, Waiting, pc);
    PairBlocked(Done, Waiting);
    assert StatesOf(w.tasks) == map[0 := Done, 1 := Waiting];
  }

  // ---------------------------------------------------------------- a start date moved forward

  ghost predicate CrashFreeReachable(w: World) {
    exists steps :: LegalRun(Init, steps) && CrashFree(steps) && Run(Init, steps) == w
  }

  lemma CrashFreeStep(w: World, step: Step)
    requires CrashFreeReachable(w) && Enabled(w, step) && !step.Crash?
    ensures CrashFreeReachable(Apply(w, step))
  {
    var steps :| LegalRun(Init, steps) && CrashFree(steps) && Run(Init, steps) == w;
    RunSnoc(Init, steps, step);
  }

  /** One task with a start date, blocked by nothing. */
  function Dated(state: TaskState, pc: Pc, startsAt: Option<int>): World {
    World(map[0 := Task(state, startsAt, false)], {}, map[0 := Chain(pc, [], false)], map[], 0)
  }

  lemma DatedStep(from: World, step: Step, to: World)
    requires CrashFreeReachable(from) && Enabled(from, step) && !step.Crash? && Apply(from, step) == to
    ensures CrashFreeReachable(to)
  {
    hide CrashFreeReachable;
    CrashFreeStep(from, step);
  }

  lemma DatedStarts(date: Option<int>)
    ensures CrashFreeReachable(Dated(Accepted, AtGate, date))
  {
    hide CrashFreeReachable;
    CrashFreeStart();
    DatedStep(Init, Mutate(Create(0, Accepted, date, false)), Dated(Accepted, Unattached, date));
    DatedStep(Dated(Accepted, Unattached, date), Mutate(Attach(0)), Dated(Accepted, Starting, date));
    DatedStep(Dated(Accepted, Starting, date), Advance(0), Dated(Accepted, Triage, date));
    DatedStep(Dated(Accepted, Triage, date), Advance(0), Dated(Accepted, Expansion, date));
    DatedStep(Dated(Accepted, Expansion, date), Advance(0), Dated(Accepted, AtGate, date));
  }

  lemma CrashFreeStart()
    ensures CrashFreeReachable(Init)
  {
    assert LegalRun(Init, []) && CrashFree([]) && Run(Init, []) == Init;
  }

  lemma DatedParks(date: int)
    requires date >= REEVAL_INTERVAL
    ensures CanAdvance(Dated(Accepted, AtGate, Some(date)), 0)
    ensures DoAdvance(Dated(Accepted, AtGate, Some(date)), 0) == Dated(Waiting, Parked({}, 0, REEVAL_INTERVAL), Some(date))
  {
    var w := Dated(Accepted, AtGate, Some(date));
    ParkBounds(Some(date), 0);
    assert Unmet({}, StatesOf(w.tasks), 0) == {};
    assert ReadinessStep(w.tasks, w.edges, 0, 0) == (w.tasks[0 := Task(Waiting, Some(date), false)], NotReady({}, REEVAL_INTERVAL));
  }

  /** Moving a start date forward wakes nobody: without any crash a task that has become ready stays parked
      for the full six hours, with no message queued and none under way. */
  lemma RescheduleWakesNobody()
    ensures exists w ::
      && CrashFreeReachable(w) && 0 in w.tasks && 0 in w.chains && w.tasks[0].state == Waiting
      && IsReady(w.edges, StatesOf(w.tasks), 0, w.tasks[0].startsAt, w.now)
      && w.chains[0].pc == Parked({}, w.now, w.now + REEVAL_INTERVAL) && w.chains[0].inbox == [] && !WakeUnderWay(w, 0)
  {
    hide CrashFreeReachable;
    var date := REEVAL_INTERVAL;
    DatedStarts(Some(date));
    DatedParks(date);
    var parked := Parked({}, 0, REEVAL_INTERVAL);
    DatedStep(Dated(Accepted, AtGate, Some(date)), Advance(0), Dated(Waiting, parked, Some(date)));
    DatedStep(Dated(Waiting, parked, Some(date)), Mutate(Reschedule(0, None)), Dated(Waiting, parked, None));
    var w := Dated(Waiting, parked, None);
    assert Unmet({}, StatesOf(w.tasks), 0) == {};
    assert !WakeUnderWay(w, 0);
  }

  /** A crash-free run after which `t` waits, parked by an evaluation that found the blockers `on`, and has
      none left. */
  ghost predicate ParkedFree(steps: seq<Step>, t: TaskId, on: set<TaskId>) {
    && LegalRun(Init, steps) && CrashFree(steps)
    && var w := Run(Init, steps);
      && t in w.tasks && t in w.chains && w.tasks[t].state == Waiting
      && w.chains[t].pc.Parked? && w.chains[t].pc.on == on && Unmet(w.edges, StatesOf(w.tasks), t) == {}
  }

  ghost predicate WokenSoon(w: World, t: TaskId)
    requires t in w.chains
  {
    w.chains[t].inbox != [] || WakeUnderWay(w, t)
  }

  /** A task parked and free of blockers is sure to be woken exactly when there were blockers to park on. */
  lemma WakeGuaranteeExact(on: set<TaskId>)
    ensures (forall steps, t :: ParkedFree(steps, t, on) ==> WokenSoon(Run(Init, steps), t)) <==> on != {}
  {
    if on != {} {
      forall steps, t | ParkedFree(steps, t, on)
        ensures WokenSoon(Run(Init, steps), t)
      {
        NoLostWakeup(steps, t);
      }
    } else {
      RescheduleWakesNobody();
      var w :| CrashFreeReachable(w) && 0 in w.tasks && 0 in w.chains && w.tasks[0].state == Waiting
        && IsReady(w.edges, StatesOf(w.tasks), 0, w.tasks[0].startsAt, w.now)
        && w.chains[0].pc == Parked({}, w.now, w.now + REEVAL_INTERVAL) && w.chains[0].inbox == [] && !WakeUnderWay(w, 0);
      var steps :| LegalRun(Init, steps) && CrashFree(steps) && Run(Init, steps) == w;
      assert ParkedFree(steps, 0, on) && !WokenSoon(Run(Init, steps), 0);
    }
  }
}
