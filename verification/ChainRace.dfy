/** The completion step taken apart: its read of the task state and its write are two steps, anything may
    commit between them, and the write decides on what the read saw. */
module ChainRace {
  import opened Lifecycle
  import opened Relations
  import opened Readiness
  import opened ChainProtocol
  import opened ChainSafety

  /** The machine with, for each completion under way, the state its read saw. */
  datatype Race = Race(w: World, seen: map<TaskId, TaskState>)

  datatype RaceStep = Whole(step: Step) | Read(t: TaskId) | Write(t: TaskId)

  const RACE_INIT := Race(Init, map[])

  predicate AtCompletion(w: World, t: TaskId) {
    t in w.tasks && t in w.chains && w.chains[t].pc == Completing
  }

  /** A cancelled workflow stops between its steps: a transaction under way is detached from the cancel
      and finishes. */
  predicate CanRace(f: Race, s: RaceStep) {
    match s
    case Whole(step) =>
      Enabled(f.w, step) && !(step.Advance? && AtCompletion(f.w, step.t)) && !(step.Abort? && step.t in f.seen)
    case Read(t) => AtCompletion(f.w, t) && t !in f.seen
    case Write(t) => AtCompletion(f.w, t) && t in f.seen
  }

  /** The write looks at what was read, and neither at the row nor at a lock. */
  function CompletionWrite(tasks: map<TaskId, Task>, seen: TaskState, t: TaskId): map<TaskId, Task>
    requires t in tasks
  {
    if seen == Executing then tasks[t := tasks[t].(state := Done)] else tasks
  }

  function Forget(seen: map<TaskId, TaskState>, t: TaskId): map<TaskId, TaskState> {
    map u | u in seen && u != t :: seen[u]
  }

  /** Losing the process rolls its transactions back. */
  function DoRace(f: Race, s: RaceStep): Race
    requires CanRace(f, s)
  {
    match s
    case Whole(step) => Race(Apply(f.w, step), if step.Crash? then map[] else f.seen)
    case Read(t) => f.(seen := f.seen[t := f.w.tasks[t].state])
    case Write(t) =>
      Race(SetPc(f.w.(tasks := CompletionWrite(f.w.tasks, f.seen[t], t)), t, Listing), Forget(f.seen, t))
  }

  predicate RaceLegal(steps: seq<RaceStep>)
    decreases |steps|, 0
  {
    steps == [] || (RaceLegal(steps[..|steps| - 1]) && CanRace(RaceRun(steps[..|steps| - 1]), steps[|steps| - 1]))
  }

  function RaceRun(steps: seq<RaceStep>): Race
    requires RaceLegal(steps)
    decreases |steps|, 1
  {
    if steps == [] then RACE_INIT else DoRace(RaceRun(steps[..|steps| - 1]), steps[|steps| - 1])
  }

  /** With nothing in between, read and write are the one step of the atomic machine. */
  lemma ReadThenWriteIsAdvance(f: Race, t: TaskId)
    requires CanRace(f, Read(t))
    ensures CanRace(DoRace(f, Read(t)), Write(t))
    ensures CanAdvance(f.w, t) && DoRace(DoRace(f, Read(t)), Write(t)).w == DoAdvance(f.w, t)
    ensures DoRace(DoRace(f, Read(t)), Write(t)).seen == f.seen
  {
    var s := f.w.tasks[t].state;
    assert CompletionWrite(f.w.tasks, s, t) == CompletionStep(f.w.tasks, t);
  }

  // ---------------------------------------------------------------- invariant

  ghost predicate SeenOk(w: World, t: TaskId, seen: TaskState) {
    && AtCompletion(w, t) && seen in {Executing, Halted}
    && (seen == Halted ==> w.tasks[t].state == Halted)
  }

  ghost predicate RaceSound(f: Race) {
    Sound(f.w) && forall t :: t in f.seen ==> SeenOk(f.w, t, f.seen[t])
  }

  /** Nothing but its stop, a crash or its own step moves a chain that stands at completion. */
  lemma CompletionStays(w: World, step: Step, t: TaskId)
    requires Sound(w) && Enabled(w, step) && AtCompletion(w, t)
    requires !step.Crash? && step != Abort(t) && step != Advance(t)
    ensures AtCompletion(Apply(w, step), t)
  {
    if step.Advance? {
      AdvanceLeavesOthers(w, step.t, t);
    }
  }

  /** The one step that ends an executing task from outside. */
  predicate CommitsCancel(f: Race, s: RaceStep, t: TaskId) {
    && s.Whole? && s.step.Resume? && s.step.id in f.w.acts
    && f.w.acts[s.step.id].Cancelling? && f.w.acts[s.step.id].task == t
    && t in f.w.tasks && !f.w.Terminal(t)
  }

  lemma OnlyCancelHalts(w: World, step: Step, t: TaskId)
    requires Sound(w) && Enabled(w, step) && AtCompletion(w, t) && w.tasks[t].state == Executing && step != Advance(t)
    ensures t in Apply(w, step).tasks
    ensures Apply(w, step).tasks[t].state == (
      if CommitsCancel(Race(w, map[]), Whole(step), t) then Halted else Executing)
  {
    if step.Advance? {
      AdvanceLeavesOthers(w, step.t, t);
    }
  }

  lemma DoneIsAllowed(v: World, t: TaskId)
    requires Sound(v) && t in v.tasks && t in v.chains && v.chains[t].pc == Listing && v.tasks[t].state == Halted
    ensures Sound(v.(tasks := v.tasks[t := v.tasks[t].(state := Done)]))
  {
    var u := v.(tasks := v.tasks[t := v.tasks[t].(state := Done)]);
    assert u.tasks.Keys == v.tasks.Keys;
    forall x | x in u.tasks
      ensures TaskOk(u, x)
    {
      assert TaskOk(v, x);
    }
  }

  lemma WriteKeepsSound(f: Race, t: TaskId)
    requires RaceSound(f) && CanRace(f, Write(t))
    ensures Sound(DoRace(f, Write(t)).w)
    ensures f.seen[t] == f.w.tasks[t].state || f.seen[t] == Executing
  {
    assert TaskOk(f.w, t);
    StepKeepsSound(f.w, Advance(t));
    var v := DoAdvance(f.w, t);
    if f.seen[t] == Executing && f.w.tasks[t].state == Halted {
      assert v.tasks == f.w.tasks;
      DoneIsAllowed(v, t);
      assert DoRace(f, Write(t)).w == v.(tasks := v.tasks[t := v.tasks[t].(state := Done)]);
    } else {
      assert DoRace(f, Write(t)).w == v;
    }
  }

  lemma WholeKeepsSeen(f: Race, step: Step, t: TaskId)
    requires RaceSound(f) && CanRace(f, Whole(step)) && t in DoRace(f, Whole(step)).seen
    ensures t in f.seen && SeenOk(Apply(f.w, step), t, f.seen[t])
  {
    CompletionStays(f.w, step, t);
    StepKeepsSound(f.w, step);
    assert StateMove(f.w, step, t, Apply(f.w, step).tasks[t]);
  }

  lemma ReadKeepsSound(f: Race, t: TaskId)
    requires RaceSound(f) && CanRace(f, Read(t))
    ensures RaceSound(DoRace(f, Read(t)))
  {
    hide ValidTable;
    assert TaskOk(f.w, t);
  }

  lemma RaceStepKeepsSound(f: Race, s: RaceStep)
    requires RaceSound(f) && CanRace(f, s)
    ensures RaceSound(DoRace(f, s))
  {
    hide Consistent, ValidTable, Apply;
    match s
    case Whole(step) =>
      StepKeepsSound(f.w, step);
      forall t | t in DoRace(f, s).seen
        ensures SeenOk(Apply(f.w, step), t, DoRace(f, s).seen[t])
      {
        WholeKeepsSeen(f, step, t);
      }
    case Read(t) => ReadKeepsSound(f, t);
    case Write(t) => WriteKeepsSound(f, t);
  }

  lemma {:induction false} RaceRunSound(steps: seq<RaceStep>)
    requires RaceLegal(steps)
    ensures RaceSound(RaceRun(steps))
    decreases |steps|
  {
    if steps == [] {
      NoEdgesNoCycle(Blocks);
      NoEdgesNoCycle(SubtaskOf);
    } else {
      var init := steps[..|steps| - 1];
      RaceRunSound(init);
      RaceStepKeepsSound(RaceRun(init), steps[|steps| - 1]);
    }
  }

  // ---------------------------------------------------------------- cancels between read and write

  /** Since the completion of `t` last read the state, a cancel of `t` has committed. */
  predicate CancelledSince(steps: seq<RaceStep>, t: TaskId)
    requires RaceLegal(steps)
    decreases |steps|
  {
    if steps == [] then false
    else
      var init, last := steps[..|steps| - 1], steps[|steps| - 1];
      if last == Read(t) then false else CommitsCancel(RaceRun(init), last, t) || CancelledSince(init, t)
  }

  /** What was read is out of date exactly when a cancel committed since. */
  lemma {:induction false} StaleExact(steps: seq<RaceStep>, t: TaskId)
    requires RaceLegal(steps) && t in RaceRun(steps).seen
    ensures var f := RaceRun(steps);
      t in f.w.tasks && (CancelledSince(steps, t) <==> f.seen[t] == Executing && f.w.tasks[t].state == Halted)
    decreases |steps|
  {
    RaceRunSound(steps);
    if steps != [] {
      var init, last := steps[..|steps| - 1], steps[|steps| - 1];
      var f := RaceRun(init);
      RaceRunSound(init);
      if last != Read(t) {
        SeenBefore(f, last, t);
        StaleExact(init, t);
        StaleStep(f, last, t);
      }
    }
  }

  lemma SeenBefore(f: Race, s: RaceStep, t: TaskId)
    requires CanRace(f, s) && t in DoRace(f, s).seen && s != Read(t)
    ensures t in f.seen && DoRace(f, s).seen[t] == f.seen[t] && s != Write(t)
  {
  }

  lemma StaleStep(f: Race, s: RaceStep, t: TaskId)
    requires RaceSound(f) && CanRace(f, s) && t in f.seen && s != Read(t) && t in DoRace(f, s).seen && s != Write(t)
    requires t in f.w.tasks && t in DoRace(f, s).w.tasks
    ensures f.seen[t] == Executing && DoRace(f, s).w.tasks[t].state == Halted <==>
      CommitsCancel(f, s, t) || (f.seen[t] == Executing && f.w.tasks[t].state == Halted)
  {
    assert TaskOk(f.w, t);
    if s.Whole? {
      if f.w.tasks[t].state == Executing {
        OnlyCancelHalts(f.w, s.step, t);
      } else {
        StepKeepsSound(f.w, s.step);
        assert StateMove(f.w, s.step, t, Apply(f.w, s.step).tasks[t]);
      }
    }
  }

  // ---------------------------------------------------------------- terminal states over runs

  /** The step leaves every task that has ended in the state it ended in. */
  ghost predicate KeepsTerminals(f: Race, s: RaceStep)
    requires CanRace(f, s)
  {
    forall t :: t in f.w.tasks && f.w.Terminal(t) ==>
      t in DoRace(f, s).w.tasks && DoRace(f, s).w.tasks[t].state == f.w.tasks[t].state
  }

  /** At every step of the run. */
  ghost predicate TerminalsKept(steps: seq<RaceStep>)
    requires RaceLegal(steps)
    decreases |steps|
  {
    steps == [] || (TerminalsKept(steps[..|steps| - 1]) && KeepsTerminals(RaceRun(steps[..|steps| - 1]), steps[|steps| - 1]))
  }

  /** No completion of the run writes after a cancel committed since its read. */
  predicate NoCancelBetween(steps: seq<RaceStep>)
    requires RaceLegal(steps)
    decreases |steps|
  {
    steps == [] ||
    var init, last := steps[..|steps| - 1], steps[|steps| - 1];
    NoCancelBetween(init) && (last.Write? ==> !CancelledSince(init, last.t))
  }

  lemma StepKeepsTerminals(f: Race, s: RaceStep)
    requires RaceSound(f) && CanRace(f, s)
    ensures KeepsTerminals(f, s) <==> !(s.Write? && f.seen[s.t] == Executing && f.w.tasks[s.t].state == Halted)
  {
    if s.Whole? {
      StepKeepsSound(f.w, s.step);
      assert forall t :: t in f.w.tasks ==> StateMove(f.w, s.step, t, Apply(f.w, s.step).tasks[t]);
    } else if s.Write? {
      WriteKeepsSound(f, s.t);
      assert TaskOk(f.w, s.t);
    }
  }

  /** The completion transaction reads without a row lock. Over every run, crashes included, terminal
      states are kept at every step exactly when no cancel of a task commits between the read and the
      write of its completion. */
  lemma {:induction false} UnlockedCompletionExact(steps: seq<RaceStep>)
    requires RaceLegal(steps)
    ensures TerminalsKept(steps) <==> NoCancelBetween(steps)
    decreases |steps|
  {
    hide KeepsTerminals, CancelledSince, RaceSound;
    if steps != [] {
      var init, last := steps[..|steps| - 1], steps[|steps| - 1];
      UnlockedCompletionExact(init);
      RaceRunSound(init);
      StepKeepsTerminals(RaceRun(init), last);
      if last.Write? {
        StaleExact(init, last.t);
      }
    }
  }

  // ---------------------------------------------------------------- a run in which it goes wrong

  ghost predicate RaceReachable(f: Race) {
    exists steps :: RaceLegal(steps) && RaceRun(steps) == f
  }

  lemma RaceReachableStep(f: Race, s: RaceStep)
    requires RaceReachable(f) && CanRace(f, s)
    ensures RaceReachable(DoRace(f, s))
  {
    var steps :| RaceLegal(steps) && RaceRun(steps) == f;
    var more := steps + [s];
    assert more[..|more| - 1] == steps;
    assert RaceLegal(more) && RaceRun(more) == DoRace(f, s);
  }

  /** One task, blocked by nothing. */
  function Solo(state: TaskState, pc: Pc, acts: map<nat, Activity>): World {
    World(map[0 := Task(state, None, false)], {}, map[0 := Chain(pc, [], false)], acts, 0)
  }

  lemma SoloStep(from: World, step: Step, to: World)
    requires RaceReachable(Race(from, map[])) && CanRace(Race(from, map[]), Whole(step)) && !step.Abort? && Apply(from, step) == to
    ensures RaceReachable(Race(to, map[]))
  {
    hide RaceReachable;
    RaceReachableStep(Race(from, map[]), Whole(step));
  }

  lemma SoloStarts()
    ensures RaceReachable(Race(Solo(Accepted, AtGate, map[]), map[]))
  {
    hide RaceReachable;
    RaceStart();
    SoloStep(Init, Mutate(Create(0, Accepted, None, false)), Solo(Accepted, Unattached, map[]));
    SoloStep(Solo(Accepted, Unattached, map[]), Mutate(Attach(0)), Solo(Accepted, Starting, map[]));
    SoloStep(Solo(Accepted, Starting, map[]), Advance(0), Solo(Accepted, Triage, map[]));
    SoloStep(Solo(Accepted, Triage, map[]), Advance(0), Solo(Accepted, Expansion, map[]));
    SoloStep(Solo(Accepted, Expansion, map[]), Advance(0), Solo(Accepted, AtGate, map[]));
  }

  lemma RaceStart()
    ensures RaceReachable(RACE_INIT)
  {
    assert RaceLegal([]) && RaceRun([]) == RACE_INIT;
  }

  lemma SoloEnters()
    ensures CanAdvance(Solo(Accepted, AtGate, map[]), 0)
    ensures DoAdvance(Solo(Accepted, AtGate, map[]), 0) == Solo(Executing, Execution, map[])
  {
    var w := Solo(Accepted, AtGate, map[]);
    assert Unmet({}, StatesOf(w.tasks), 0) == {};
    assert ReadinessStep(w.tasks, w.edges, 0, 0) == (w.tasks[0 := Task(Executing, None, false)], Ready);
  }

  lemma SoloCompletes()
    ensures RaceReachable(Race(Solo(Executing, Completing, map[0 := Cancelling(0, true)]), map[]))
  {
    hide RaceReachable;
    SoloStarts();
    SoloEnters();
    SoloStep(Solo(Accepted, AtGate, map[]), Advance(0), Solo(Executing, Execution, map[]));
    SoloStep(Solo(Executing, Execution, map[]), Advance(0), Solo(Executing, Completing, map[]));
    SoloStep(Solo(Executing, Completing, map[]), Mutate(BeginCancel(0, 0)), Solo(Executing, Completing, map[0 := Cancelling(0, true)]));
  }

  /** A cancel that commits between the two: from the start, by way of a halted task, to a done one. */
  lemma CancelInsideCompletion()
    ensures exists f ::
      && RaceReachable(f) && 0 in f.w.tasks && f.w.tasks[0].state == Halted
      && CanRace(f, Write(0)) && DoRace(f, Write(0)).w.tasks[0].state == Done
  {
    hide RaceReachable;
    SoloCompletes();
    var acts := map[0 := Cancelling(0, true)];
    var f := Race(Solo(Executing, Completing, acts), map[]);
    RaceReachableStep(f, Read(0));
    var read := Race(Solo(Executing, Completing, acts), map[0 := Executing]);
    assert DoRace(f, Read(0)) == read;
    RaceReachableStep(read, Whole(Resume(0)));
    var halted := Race(Solo(Halted, Completing, map[0 := Stopping(0)]), map[0 := Executing]);
    assert DoRace(read, Whole(Resume(0))) == halted;
  }
}
