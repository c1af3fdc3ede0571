/** The program counters of the machine and the operations of the workflow code tell the same story, and a
    crash of the machine is what dying and replaying comes to. */
module ChainRefinement {
  import opened Lifecycle
  import P = ChainProtocol
  import S = ChainSafety
  import W = ChainWakeups
  import R = Replay

  /** The code is about to issue `pc` while the machine's counter is `at`. */
  predicate Matches(wiring: R.Wiring, pc: R.Pc, at: P.Pc) {
    match at
    case Unattached => false
    case Starting => pc == R.START
    case Triage => pc == R.Do(R.RouteAndOccupy(R.Triage))
    case Expansion => pc == R.Do(R.RouteAndOccupy(R.Expansion))
    case AtGate => pc == R.Do(R.ReadinessGate)
    case Parked(_, _, _) => pc == R.Do(R.RecvBlocked)
    case Execution => pc == R.Do(R.RouteAndOccupy(R.Execution))
    case Completing => pc == R.Do(R.Completion)
    case Listing => pc == R.Do(R.ListDependents)
    case Sending(targets) => pc == R.Tail(wiring, targets)
    case Exited => R.IsOver(pc)
  }

  /** What the operations behind one step of the machine yield. A stage is filled in the shortest way. */
  function Answers(wiring: R.Wiring, w: P.World, t: nat): seq<R.Value>
    requires P.CanAdvance(w, t)
  {
    match w.chains[t].pc
    case AtGate =>
      (match P.ReadinessStep(w.tasks, w.edges, t, w.now).1
       case Ready => [R.Readiness(true, false)]
       case Ended => [R.Readiness(false, true)]
       case NotReady(_, _) => [R.Readiness(false, false)])
    case Parked(_, _, _) =>
      if w.chains[t].inbox == [] then [R.Expired] else [R.Message(w.chains[t].inbox[0] == P.CancelSentinel)]
    case Listing => [R.Dependents(P.Dependents(w.tasks, w.edges, t))]
    case Sending(targets) => if targets == [] && !wiring.feedback then [] else [R.Plain]
    case Starting => if w.Terminal(t) then [] else [R.Plain]
    case pc => if pc == P.Completing then [R.Plain] else [R.Decision(false, false), R.Plain]
  }

  lemma OneAnswer(wiring: R.Wiring, pc: R.Pc, v: R.Value)
    requires !R.IsOver(pc)
    ensures R.PcAfter(wiring, pc, [v]) == R.After(wiring, pc, v)
  {
    assert [v][1..] == [];
  }

  lemma TwoAnswers(wiring: R.Wiring, pc: R.Pc, v: R.Value, u: R.Value)
    requires !R.IsOver(pc) && !R.IsOver(R.After(wiring, pc, v))
    ensures R.PcAfter(wiring, pc, [v, u]) == R.After(wiring, R.After(wiring, pc, v), u)
  {
    assert [v, u][1..] == [u];
    OneAnswer(wiring, R.After(wiring, pc, v), u);
  }

  /** A step of one operation. */
  lemma SingleSimulates(wiring: R.Wiring, w: P.World, t: nat, pc: R.Pc)
    requires P.CanAdvance(w, t) && Matches(wiring, pc, w.chains[t].pc)
    requires w.chains[t].pc == P.Starting ==> !w.Terminal(t)
    requires var at := w.chains[t].pc; at.Starting? || at.AtGate? || at.Parked? || at.Completing? || at.Listing?
    ensures t in P.DoAdvance(w, t).chains
    ensures Matches(wiring, R.PcAfter(wiring, pc, Answers(wiring, w, t)), P.DoAdvance(w, t).chains[t].pc)
  {
    hide P.Dependents, P.ReadinessStep, R.PcAfter, R.Tail;
    OneAnswer(wiring, pc, Answers(wiring, w, t)[0]);
  }

  /** A stage: routing and closing. */
  lemma StageSimulates(wiring: R.Wiring, w: P.World, t: nat, pc: R.Pc)
    requires P.CanAdvance(w, t) && Matches(wiring, pc, w.chains[t].pc)
    requires var at := w.chains[t].pc; at.Triage? || at.Expansion? || at.Execution?
    ensures t in P.DoAdvance(w, t).chains
    ensures Matches(wiring, R.PcAfter(wiring, pc, Answers(wiring, w, t)), P.DoAdvance(w, t).chains[t].pc)
  {
    hide R.PcAfter, R.Tail;
    TwoAnswers(wiring, pc, R.Decision(false, false), R.Plain);
  }

  lemma SendingSimulates(wiring: R.Wiring, w: P.World, t: nat, pc: R.Pc)
    requires P.CanAdvance(w, t) && Matches(wiring, pc, w.chains[t].pc) && w.chains[t].pc.Sending?
    ensures t in P.DoAdvance(w, t).chains
    ensures Matches(wiring, R.PcAfter(wiring, pc, Answers(wiring, w, t)), P.DoAdvance(w, t).chains[t].pc)
  {
    if Answers(wiring, w, t) != [] {
      hide R.PcAfter;
      OneAnswer(wiring, pc, R.Plain);
    }
  }

  /** Each step a chain takes is what the code does when its operations yield these answers. A task found
      terminal at the start is the code's early return, which issues nothing. */
  lemma StepSimulates(wiring: R.Wiring, w: P.World, t: nat, pc: R.Pc)
    requires P.CanAdvance(w, t) && Matches(wiring, pc, w.chains[t].pc)
    requires w.chains[t].pc == P.Starting ==> !w.Terminal(t)
    ensures t in P.DoAdvance(w, t).chains
    ensures Matches(wiring, R.PcAfter(wiring, pc, Answers(wiring, w, t)), P.DoAdvance(w, t).chains[t].pc)
  {
    hide P.DoAdvance, Matches, Answers, R.PcAfter;
    var at := w.chains[t].pc;
    if at.Sending? {
      SendingSimulates(wiring, w, t, pc);
    } else if at.Triage? || at.Expansion? || at.Execution? {
      StageSimulates(wiring, w, t, pc);
    } else {
      SingleSimulates(wiring, w, t, pc);
    }
  }

  // ---------------------------------------------------------------- from the code to the machine

  predicate InStage(pc: R.Pc, s: R.Stage) {
    match pc
    case Do(op) =>
      || op in {R.RouteAndOccupy(s), R.OpenAssignment(s), R.EnqueuePush(s), R.StartAgent(s), R.ResolveAndAdvance(s)}
      || (op.StageTimeout? && op.stage == s)
    case Waits(stage, _) => stage == s
    case _ => false
  }

  /** The code is anywhere in what the machine's counter stands for. */
  predicate Stands(wiring: R.Wiring, pc: R.Pc, at: P.Pc) {
    match at
    case Triage => InStage(pc, R.Triage)
    case Expansion => InStage(pc, R.Expansion)
    case Execution => InStage(pc, R.Execution)
    case _ => Matches(wiring, pc, at)
  }

  /** The operation leaves the place the counter stands for: any but those inside a stage, and its last. */
  predicate Leaves(pc: R.Pc) {
    || pc in {R.Do(R.ResolveAndAdvance(R.Triage)), R.Do(R.ResolveAndAdvance(R.Expansion)), R.Do(R.ResolveAndAdvance(R.Execution))}
    || !(InStage(pc, R.Triage) || InStage(pc, R.Expansion) || InStage(pc, R.Execution))
  }

  /** The value is one the code goes on with; a failure, or a cancel received by a stage, ends it. */
  predicate GoesOn(pc: R.Pc, v: R.Value)
    requires !R.IsOver(pc)
  {
    match R.OpAt(pc)
    case ReadinessGate => v.Readiness?
    case RecvBlocked => v.Message? || v.Expired?
    case RouteAndOccupy(_) => v.Decision?
    case OpenAssignment(_) => v.Assigned?
    case RecvStage(_) => v.Expired? || v == R.Message(false)
    case StartAgent(_) => v.AgentResult?
    case ListDependents => v.Dependents?
    case _ => v == R.Plain
  }

  /** Evaluation, receive and listing yield what the machine's tables and inbox hold. */
  predicate Truthful(wiring: R.Wiring, w: P.World, t: nat, v: R.Value)
    requires P.CanAdvance(w, t)
  {
    var at := w.chains[t].pc;
    at.AtGate? || at.Parked? || at.Listing? ==> [v] == Answers(wiring, w, t)
  }

  lemma InnerOperation(wiring: R.Wiring, pc: R.Pc, v: R.Value, s: R.Stage)
    requires InStage(pc, s) && !R.IsOver(pc) && GoesOn(pc, v) && pc != R.Do(R.ResolveAndAdvance(s))
    ensures InStage(R.After(wiring, pc, v), s)
  {
  }

  lemma LastOperation(wiring: R.Wiring, w: P.World, t: nat, s: R.Stage)
    requires P.CanAdvance(w, t) && Stands(wiring, R.Do(R.ResolveAndAdvance(s)), w.chains[t].pc)
    ensures t in P.DoAdvance(w, t).chains
    ensures Stands(wiring, R.After(wiring, R.Do(R.ResolveAndAdvance(s)), R.Plain), P.DoAdvance(w, t).chains[t].pc)
  {
  }

  lemma StagelessOperation(wiring: R.Wiring, w: P.World, t: nat, pc: R.Pc, v: R.Value)
    requires P.CanAdvance(w, t) && Matches(wiring, pc, w.chains[t].pc) && !R.IsOver(pc) && GoesOn(pc, v) && Truthful(wiring, w, t, v)
    requires w.chains[t].pc == P.Starting ==> !w.Terminal(t)
    requires var at := w.chains[t].pc; !at.Triage? && !at.Expansion? && !at.Execution?
    ensures t in P.DoAdvance(w, t).chains
    ensures Matches(wiring, R.After(wiring, pc, v), P.DoAdvance(w, t).chains[t].pc)
  {
    hide R.PcAfter, GoesOn;
    GoesOnPlain(pc, v);
    StepSimulates(wiring, w, t, pc);
    OneAnswer(wiring, pc, v);
    assert Answers(wiring, w, t) == [v];
  }

  /** Outside evaluation, receive and listing there is one value to go on with. */
  lemma GoesOnPlain(pc: R.Pc, v: R.Value)
    requires !R.IsOver(pc) && GoesOn(pc, v)
    ensures R.OpAt(pc) in {R.AdvanceToTriage, R.Completion, R.EnqueueFeedback} || R.OpAt(pc).SendWake? ==> v == R.Plain
  {
  }

  /** Every operation of the code, whatever way a stage is filled, either stays within the machine's counter
      or is the machine's next step; a value it does not go on with ends the code. */
  lemma OperationIsStep(wiring: R.Wiring, w: P.World, t: nat, pc: R.Pc, v: R.Value)
    requires P.CanAdvance(w, t) && Stands(wiring, pc, w.chains[t].pc) && !R.IsOver(pc)
    requires w.chains[t].pc == P.Starting ==> !w.Terminal(t)
    ensures t in P.DoAdvance(w, t).chains
    ensures GoesOn(pc, v) && Truthful(wiring, w, t, v) ==>
      Stands(wiring, R.After(wiring, pc, v), if Leaves(pc) then P.DoAdvance(w, t).chains[t].pc else w.chains[t].pc)
    ensures !GoesOn(pc, v) ==> R.After(wiring, pc, v) == R.Over
  {
    hide P.DoAdvance, R.After;
    Refused(wiring, pc, v);
    StepKeepsChain(w, t);
    var at := w.chains[t].pc;
    if GoesOn(pc, v) && Truthful(wiring, w, t, v) {
      if at.Triage? || at.Expansion? || at.Execution? {
        var s := if at.Triage? then R.Triage else if at.Expansion? then R.Expansion else R.Execution;
        if pc == R.Do(R.ResolveAndAdvance(s)) {
          LastOperation(wiring, w, t, s);
        } else {
          InnerOperation(wiring, pc, v, s);
        }
      } else {
        StagelessOperation(wiring, w, t, pc, v);
        MatchesStands(wiring, R.After(wiring, pc, v), P.DoAdvance(w, t).chains[t].pc);
      }
    }
  }

  lemma StepKeepsChain(w: P.World, t: nat)
    requires P.CanAdvance(w, t)
    ensures t in P.DoAdvance(w, t).chains
  {
    hide P.Dependents, P.ReadinessStep;
  }

  lemma MatchesStands(wiring: R.Wiring, pc: R.Pc, at: P.Pc)
    ensures Matches(wiring, pc, at) ==> Stands(wiring, pc, at)
  {
  }

  lemma Refused(wiring: R.Wiring, pc: R.Pc, v: R.Value)
    requires !R.IsOver(pc)
    ensures !GoesOn(pc, v) ==> R.After(wiring, pc, v) == R.Over
  {
  }

  // ---------------------------------------------------------------- whole runs

  /** What the operations of `t` yield over a run, in order. */
  function AnswersOf(wiring: R.Wiring, w: P.World, steps: seq<P.Step>, t: nat): seq<R.Value>
    requires P.LegalRun(w, steps)
    decreases |steps|
  {
    if steps == [] then []
    else StepAnswers(wiring, w, steps[0], t) + AnswersOf(wiring, P.Apply(w, steps[0]), steps[1..], t)
  }

  function StepAnswers(wiring: R.Wiring, w: P.World, step: P.Step, t: nat): seq<R.Value>
    requires P.Enabled(w, step)
  {
    if step == P.Advance(t) then Answers(wiring, w, t) else []
  }

  /** Given these values from its start on, the code of `t` stands where the machine's counter says; before
      the chain is attached it has been given nothing. */
  ghost predicate CodeAt(wiring: R.Wiring, w: P.World, t: nat, given: seq<R.Value>) {
    if t !in w.chains || w.chains[t].pc.Unattached? then given == []
    else w.chains[t].pc.Exited? || Matches(wiring, R.PcAfter(wiring, R.START, given), w.chains[t].pc)
  }

  lemma {:induction false} PcAfterAppend(wiring: R.Wiring, pc: R.Pc, a: seq<R.Value>, b: seq<R.Value>)
    ensures R.PcAfter(wiring, pc, a + b) == R.PcAfter(wiring, R.PcAfter(wiring, pc, a), b)
    decreases |a|
  {
    if a == [] {
      assert a + b == b;
    } else if !R.IsOver(pc) {
      PcAfterAppend(wiring, R.After(wiring, pc, a[0]), a[1..], b);
      assert (a + b)[1..] == a[1..] + b;
    }
  }

  lemma AdvanceOfCode(wiring: R.Wiring, w: P.World, t: nat, given: seq<R.Value>)
    requires P.CanAdvance(w, t) && CodeAt(wiring, w, t, given)
    ensures CodeAt(wiring, P.DoAdvance(w, t), t, given + Answers(wiring, w, t))
  {
    hide P.DoAdvance, R.PcAfter, Answers;
    StepKeepsChain(w, t);
    NeverUnattached(w, t);
    if !P.DoAdvance(w, t).chains[t].pc.Exited? {
      StepSimulates(wiring, w, t, R.PcAfter(wiring, R.START, given));
      PcAfterAppend(wiring, R.START, given, Answers(wiring, w, t));
    }
  }

  lemma NeverUnattached(w: P.World, t: nat)
    requires P.CanAdvance(w, t)
    ensures t in P.DoAdvance(w, t).chains && !P.DoAdvance(w, t).chains[t].pc.Unattached?
    ensures w.chains[t].pc == P.Starting && w.Terminal(t) ==> P.DoAdvance(w, t).chains[t].pc.Exited?
  {
    hide P.Dependents, P.ReadinessStep;
  }

  /** A step that is not the chain's own leaves it, attaches it or ends it. */
  lemma OthersOnCode(w: P.World, step: P.Step, t: nat)
    requires S.Sound(w) && P.Enabled(w, step) && step != P.Advance(t)
    ensures var u := P.Apply(w, step);
      || (t !in u.chains && t !in w.chains)
      || (t in u.chains && t !in w.chains && u.chains[t].pc.Unattached?)
      || (t in u.chains && t in w.chains && u.chains[t].pc == w.chains[t].pc)
      || (t in u.chains && t in w.chains && w.chains[t].pc.Unattached? && u.chains[t].pc.Starting?)
      || (t in u.chains && t in w.chains && !w.chains[t].pc.Unattached? && u.chains[t].pc.Exited?)
  {
    hide P.DoResume, P.DoAdvance, S.TaskOk, S.ActOk;
    if t in w.chains && step != P.Abort(t) && step != P.Mutate(P.Attach(t)) && !step.Crash? {
      S.PcStays(w, step, t);
    } else if t !in w.chains {
      NobodyElseCreates(w, step, t);
    }
  }

  lemma NobodyElseCreates(w: P.World, step: P.Step, t: nat)
    requires S.Sound(w) && P.Enabled(w, step) && t !in w.chains
    ensures t in P.Apply(w, step).chains ==> P.Apply(w, step).chains[t].pc.Unattached?
  {
    hide P.Dependents, P.ReadinessStep;
  }

  lemma StepOfCode(wiring: R.Wiring, w: P.World, step: P.Step, t: nat, given: seq<R.Value>)
    requires S.Sound(w) && P.Enabled(w, step) && CodeAt(wiring, w, t, given)
    ensures CodeAt(wiring, P.Apply(w, step), t, given + StepAnswers(wiring, w, step, t))
  {
    hide P.DoMutate, P.DoResume, P.DoAdvance, Matches, Answers;
    if step == P.Advance(t) {
      AdvanceOfCode(wiring, w, t, given);
    } else {
      assert given + [] == given;
      OthersOnCode(w, step, t);
      StartMatches(wiring);
    }
  }

  lemma StartMatches(wiring: R.Wiring)
    ensures Matches(wiring, R.PcAfter(wiring, R.START, []), P.Starting)
  {
  }

  lemma {:induction false} RunOfCode(wiring: R.Wiring, w: P.World, steps: seq<P.Step>, t: nat, given: seq<R.Value>)
    requires S.Sound(w) && P.LegalRun(w, steps) && CodeAt(wiring, w, t, given)
    ensures S.Sound(P.Run(w, steps)) && CodeAt(wiring, P.Run(w, steps), t, given + AnswersOf(wiring, w, steps, t))
    decreases |steps|
  {
    hide P.Apply, P.Enabled, CodeAt, S.Sound, StepAnswers;
    if steps == [] {
      assert given + [] == given;
    } else {
      var some := StepAnswers(wiring, w, steps[0], t);
      S.StepKeepsSound(w, steps[0]);
      StepOfCode(wiring, w, steps[0], t, given);
      RunOfCode(wiring, P.Apply(w, steps[0]), steps[1..], t, given + some);
      var rest := AnswersOf(wiring, P.Apply(w, steps[0]), steps[1..], t);
      assert (given + some) + rest == given + (some + rest);
    }
  }

  /** In every state of every run, crashes included, each chain that is attached and has not exited stands
      where its code stands on the answers of that run. */
  lemma RunSimulated(wiring: R.Wiring, steps: seq<P.Step>, t: nat)
    requires P.LegalRun(P.Init, steps)
    requires var w := P.Run(P.Init, steps); t in w.chains && !w.chains[t].pc.Unattached? && !w.chains[t].pc.Exited?
    ensures Matches(wiring, R.PcAfter(wiring, R.START, AnswersOf(wiring, P.Init, steps, t)), P.Run(P.Init, steps).chains[t].pc)
  {
    hide P.LegalRun, P.Run, AnswersOf;
    W.InitSound();
    RunOfCode(wiring, P.Init, steps, t, []);
    assert [] + AnswersOf(wiring, P.Init, steps, t) == AnswersOf(wiring, P.Init, steps, t);
  }

  // ---------------------------------------------------------------- crashes

  /** The code run again on the log it left stands where it stood when the process died. */
  lemma {:induction false} RestartStands(wiring: R.Wiring, pc: R.Pc, given: seq<R.Value>)
    ensures R.PcAfter(wiring, pc, R.Values(R.Record(wiring, pc, given))) == R.PcAfter(wiring, pc, given)
    decreases |given|
  {
    var read := R.Values(R.Record(wiring, pc, given));
    if !R.IsOver(pc) && given != [] {
      RestartStands(wiring, R.After(wiring, pc, given[0]), given[1..]);
      assert read[1..] == R.Values(R.Record(wiring, R.After(wiring, pc, given[0]), given[1..]));
    }
  }

  /** The log the code of `t` leaves in a run. */
  function LogOf(wiring: R.Wiring, steps: seq<P.Step>, t: nat): seq<R.Entry>
    requires P.LegalRun(P.Init, steps)
  {
    R.Record(wiring, R.START, AnswersOf(wiring, P.Init, steps, t))
  }

  /** A crash of the machine is a restart of the code. A chain that is stopped or whose task has ended exits.
      Any other keeps its counter: run again on the log this very run left, the code issues nothing new, and
      stands exactly there. */
  lemma CrashIsRestart(wiring: R.Wiring, steps: seq<P.Step>, t: nat)
    requires P.LegalRun(P.Init, steps)
    requires var w := P.Run(P.Init, steps); t in w.chains && !w.chains[t].pc.Unattached? && !w.chains[t].pc.Exited?
    ensures var w, after := P.Run(P.Init, steps), P.Recover(P.Run(P.Init, steps));
      && t in w.tasks && t in after.chains
      && (w.chains[t].stopped || w.Terminal(t) <==> after.chains[t].pc == P.Exited)
      && (after.chains[t].pc != P.Exited ==>
            && R.Boot(wiring, LogOf(wiring, steps, t), false, []) == LogOf(wiring, steps, t)
            && Matches(wiring, R.PcAfter(wiring, R.START, R.Values(LogOf(wiring, steps, t))), after.chains[t].pc))
  {
    hide P.LegalRun, P.Run, AnswersOf, R.PcAfter, R.Record;
    var given := AnswersOf(wiring, P.Init, steps, t);
    RunSimulated(wiring, steps, t);
    RestartStands(wiring, R.START, given);
    NothingNew(wiring, given);
    W.InitSound();
    W.RunKeepsSound(P.Init, steps);
  }

  lemma NothingNew(wiring: R.Wiring, given: seq<R.Value>)
    ensures R.Boot(wiring, R.Record(wiring, R.START, given), false, []) == R.Record(wiring, R.START, given)
  {
    hide R.Record;
    R.RecordResumes(wiring, R.START, given, []);
    assert given + [] == given;
  }
}
