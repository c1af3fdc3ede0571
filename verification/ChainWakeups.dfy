/** Wake-ups: nobody parked on a blocker is forgotten as long as the process does not die, and what
    exactly a crash can lose. */
module ChainWakeups {
  import opened Lifecycle
  import opened Relations
  import opened Readiness
  import opened ChainProtocol
  import opened ChainSafety

  // ---------------------------------------------------------------- who will send

  /** A resolver that still has to read the dependents of `u`. */
  ghost predicate ListPending(w: World, u: TaskId) {
    exists id :: id in w.acts && IsEnded(w.acts[id]) && w.acts[id].task == u
  }

  /** A resolver that has read `t` as a dependent and not yet sent. */
  ghost predicate SendPending(w: World, t: TaskId) {
    exists id :: id in w.acts && w.acts[id].SendingTo? && t in w.acts[id].targets
  }

  /** A resolver that removed a blocker of `t` and has not yet sent. */
  ghost predicate WakeOwed(w: World, t: TaskId) {
    exists id :: id in w.acts && w.acts[id] == Waking(t)
  }

  /** The chain of `u` itself is on its way to wake `t`. */
  predicate ChainWillWake(c: Chain, t: TaskId) {
    !c.stopped && (c.pc.Listing? || (c.pc.Sending? && t in c.pc.targets))
  }

  /** Why `t`, found blocked by `u`, will look again: a message waits, a sender is under way, or `u`
      still blocks it or has ended and is about to say so. */
  ghost predicate Covered(w: World, u: TaskId, t: TaskId)
    requires u in w.tasks && u in w.chains && t in w.chains
  {
    || w.chains[t].inbox != []
    || WakeOwed(w, t)
    || SendPending(w, t)
    || (Edge(u, t, Blocks) in w.edges && (!w.Terminal(u) || ListPending(w, u) || ChainWillWake(w.chains[u], t)))
  }

  ghost predicate ParkedOn(w: World, u: TaskId, t: TaskId) {
    && t in w.tasks && t in w.chains && w.tasks[t].state == Waiting
    && w.chains[t].pc.Parked? && u in w.chains[t].pc.on
  }

  /** Parked by an evaluation that found some blocker. */
  ghost predicate ParkedSome(w: World, t: TaskId) {
    && t in w.tasks && t in w.chains && w.tasks[t].state == Waiting
    && w.chains[t].pc.Parked? && w.chains[t].pc.on != {}
  }

  ghost predicate AllCovered(w: World)
    requires Consistent(w)
  {
    forall u, t :: ParkedOn(w, u, t) ==> u in w.tasks && Covered(w, u, t)
  }

  // ---------------------------------------------------------------- preservation

  lemma MutateKeepsCovered(w: World, m: Mutation, u: TaskId, t: TaskId)
    requires Consistent(w) && CanMutate(w, m) && SameTasks(w, DoMutate(w, m))
    requires ParkedSome(w, t) && u in w.tasks && Covered(w, u, t)
    ensures Covered(DoMutate(w, m), u, t)
  {
    hide RelationWouldCycle;
    var after := DoMutate(w, m);
    forall id | id in w.acts
      ensures id in after.acts && after.acts[id] == w.acts[id]
    {
    }
    match m
    case RemoveEdge(e, id) =>
      if e == Edge(u, t, Blocks) && e in w.edges {
        assert after.acts[id] == Waking(t);
      }
    case Dismiss(d, id) =>
      assert IsEnded(after.acts[id]) && after.acts[id].task == d;
    case _ =>
  }

  lemma ResumeKeepsCovered(w: World, i: nat, u: TaskId, t: TaskId)
    requires Consistent(w) && CanResume(w, i) && SameTasks(w, DoResume(w, i))
    requires ParkedSome(w, t) && u in w.tasks && Covered(w, u, t)
    requires ParkedSome(DoResume(w, i), t)
    ensures Covered(DoResume(w, i), u, t)
  {
    var after := DoResume(w, i);
    forall id | id in w.acts && id != i
      ensures id in after.acts && after.acts[id] == w.acts[id]
    {
    }
    match w.acts[i]
    case SendingTo(targets) =>
      if targets != [] && t in targets && t != targets[0] {
        assert t in targets[1..];
        assert after.acts[i] == SendingTo(targets[1..]);
      }
    case Waking(_) =>
    case _ =>
      assert i in after.acts;
  }

  /** The chain of a blocker that ends reads its dependents and tells each of them. */
  lemma WakingKeepsCovered(w: World, v: TaskId, u: TaskId, t: TaskId)
    requires Consistent(w) && CanAdvance(w, v) && SameTasks(w, DoAdvance(w, v)) && v != t
    requires ParkedSome(w, t) && u in w.tasks && Covered(w, u, t)
    requires w.chains[v].pc.Completing? || w.chains[v].pc.Listing? || w.chains[v].pc.Sending?
    ensures Covered(DoAdvance(w, v), u, t)
  {
    hide Park, Unmet, Ascending, PcOk, ActOk;
    assert DoAdvance(w, v).acts == w.acts;
  }

  /** No other step of another chain has to do with it. */
  lemma OtherKeepsCovered(w: World, v: TaskId, u: TaskId, t: TaskId)
    requires Consistent(w) && CanAdvance(w, v) && SameTasks(w, DoAdvance(w, v)) && v != t
    requires ParkedSome(w, t) && u in w.tasks && Covered(w, u, t)
    requires !(w.chains[v].pc.Completing? || w.chains[v].pc.Listing? || w.chains[v].pc.Sending?)
    ensures Covered(DoAdvance(w, v), u, t)
  {
    hide Park, Unmet, Dependents;
    assert DoAdvance(w, v).acts == w.acts;
  }

  lemma AdvanceKeepsCovered(w: World, v: TaskId, u: TaskId, t: TaskId)
    requires Consistent(w) && CanAdvance(w, v) && SameTasks(w, DoAdvance(w, v)) && v != t
    requires ParkedSome(w, t) && u in w.tasks && Covered(w, u, t)
    ensures Covered(DoAdvance(w, v), u, t)
  {
    hide DoAdvance, Covered;
    if w.chains[v].pc.Completing? || w.chains[v].pc.Listing? || w.chains[v].pc.Sending? {
      WakingKeepsCovered(w, v, u, t);
    } else {
      OtherKeepsCovered(w, v, u, t);
    }
  }

  /** An evaluation parks a task only on blockers that are in place and still live. */
  lemma EvaluationCovers(w: World, t: TaskId, u: TaskId)
    requires Consistent(w) && CanAdvance(w, t) && w.chains[t].pc == AtGate
    requires ParkedOn(DoAdvance(w, t), u, t)
    ensures u in w.tasks && SameTasks(w, DoAdvance(w, t)) && Covered(DoAdvance(w, t), u, t)
  {
    var e :| e in w.edges && e.kind == Blocks && e.to == t && e.from in w.tasks && !w.Terminal(e.from) && e.from == u;
    assert e == Edge(u, t, Blocks);
  }

  lemma MutateOrigin(w: World, m: Mutation, t: TaskId)
    requires Consistent(w) && CanMutate(w, m) && ParkedSome(DoMutate(w, m), t)
    ensures ParkedSome(w, t) && DoMutate(w, m).chains[t].pc == w.chains[t].pc
  {
    hide Add, Remove, PcOk;
  }

  lemma ResumeOrigin(w: World, id: nat, t: TaskId)
    requires Consistent(w) && CanResume(w, id) && ParkedSome(DoResume(w, id), t)
    ensures ParkedSome(w, t) && DoResume(w, id).chains[t].pc == w.chains[t].pc
  {
    hide Dependents, PcOk;
  }

  lemma AdvanceOrigin(w: World, v: TaskId, t: TaskId)
    requires Consistent(w) && CanAdvance(w, v) && ParkedSome(DoAdvance(w, v), t)
    ensures v == t ==> w.chains[t].pc == AtGate
    ensures v != t ==> ParkedSome(w, t) && DoAdvance(w, v).chains[t].pc == w.chains[t].pc
  {
    hide Dependents, Unmet, Park, PcOk;
  }

  /** A chain parked after a step was parked there before, or the step is the evaluation that parks it. */
  lemma StepOrigin(w: World, step: Step, t: TaskId)
    requires Consistent(w) && Enabled(w, step) && !step.Crash? && ParkedSome(Apply(w, step), t)
    ensures step == Advance(t) ==> w.chains[t].pc == AtGate
    ensures step != Advance(t) ==> ParkedSome(w, t) && Apply(w, step).chains[t].pc == w.chains[t].pc && step != Abort(t)
  {
    hide DoMutate, DoResume, DoAdvance;
    match step
    case Mutate(m) => MutateOrigin(w, m, t);
    case Resume(id) => ResumeOrigin(w, id, t);
    case Advance(v) => AdvanceOrigin(w, v, t);
    case _ =>
  }

  /** A reason to look again survives every step of another chain and of the resolvers. */
  lemma StepKeepsReason(w: World, step: Step, u: TaskId, t: TaskId)
    requires Consistent(w) && Enabled(w, step) && !step.Crash? && step != Advance(t) && step != Abort(t)
    requires SameTasks(w, Apply(w, step))
    requires ParkedSome(w, t) && u in w.tasks && Covered(w, u, t) && ParkedSome(Apply(w, step), t)
    ensures Covered(Apply(w, step), u, t)
  {
    hide DoMutate, DoResume, DoAdvance;
    match step
    case Mutate(m) => MutateKeepsCovered(w, m, u, t);
    case Resume(i) => ResumeKeepsCovered(w, i, u, t);
    case Advance(v) => AdvanceKeepsCovered(w, v, u, t);
    case Abort(v) => AbortKeepsCovered(w, v, u, t);
    case _ =>
  }

  lemma AbortKeepsCovered(w: World, v: TaskId, u: TaskId, t: TaskId)
    requires Consistent(w) && Enabled(w, Abort(v)) && v != t
    requires ParkedSome(w, t) && u in w.tasks && Covered(w, u, t)
    ensures Covered(Apply(w, Abort(v)), u, t)
  {
    assert Apply(w, Abort(v)).acts == w.acts;
  }

  /** Every step but a crash keeps everybody covered. */
  lemma StepKeepsCovered(w: World, step: Step)
    requires Sound(w) && AllCovered(w) && Enabled(w, step) && !step.Crash?
    ensures Sound(Apply(w, step)) && AllCovered(Apply(w, step))
  {
    hide DoMutate, DoResume, DoAdvance, Covered, ValidTable;
    StepKeepsSound(w, step);
    var after := Apply(w, step);
    forall u, t | ParkedOn(after, u, t)
      ensures u in after.tasks && Covered(after, u, t)
    {
      StepOrigin(w, step, t);
      if step == Advance(t) {
        EvaluationCovers(w, t, u);
      } else {
        assert ParkedOn(w, u, t);
        StepKeepsReason(w, step, u, t);
      }
    }
  }

  // ---------------------------------------------------------------- whole runs

  predicate CrashFree(steps: seq<Step>) {
    Crash !in steps
  }

  lemma {:induction false} RunKeepsSound(w: World, steps: seq<Step>)
    requires Sound(w) && LegalRun(w, steps)
    ensures Sound(Run(w, steps))
    decreases |steps|
  {
    if steps != [] {
      StepKeepsSound(w, steps[0]);
      RunKeepsSound(Apply(w, steps[0]), steps[1..]);
    }
  }

  lemma {:induction false} RunKeepsCovered(w: World, steps: seq<Step>)
    requires Sound(w) && AllCovered(w) && LegalRun(w, steps) && CrashFree(steps)
    ensures Sound(Run(w, steps)) && AllCovered(Run(w, steps))
    decreases |steps|
  {
    if steps != [] {
      StepKeepsCovered(w, steps[0]);
      RunKeepsCovered(Apply(w, steps[0]), steps[1..]);
    }
  }

  lemma InitSound()
    ensures Sound(Init) && AllCovered(Init)
  {
    NoEdgesNoCycle(Blocks);
    NoEdgesNoCycle(SubtaskOf);
  }

  /** Somebody is on the way to send `t` a wake. */
  ghost predicate WakeUnderWay(w: World, t: TaskId) {
    || WakeOwed(w, t)
    || SendPending(w, t)
    || exists u :: u in w.chains && Edge(u, t, Blocks) in w.edges && (ListPending(w, u) || ChainWillWake(w.chains[u], t))
  }

  /** No lost wake-up. In every crash-free run, a waiting chain that parked because of blockers and no
      longer has an unmet one has a message queued or a sender that has yet to send it. */
  lemma NoLostWakeup(steps: seq<Step>, t: TaskId)
    requires LegalRun(Init, steps) && CrashFree(steps)
    requires var w := Run(Init, steps);
      && t in w.tasks && t in w.chains && w.tasks[t].state == Waiting
      && w.chains[t].pc.Parked? && w.chains[t].pc.on != {}
      && Unmet(w.edges, StatesOf(w.tasks), t) == {}
    ensures var w := Run(Init, steps); w.chains[t].inbox != [] || WakeUnderWay(w, t)
  {
    InitSound();
    RunKeepsCovered(Init, steps);
    var w := Run(Init, steps);
    var u :| u in w.chains[t].pc.on;
    assert ParkedOn(w, u, t);
    assert Edge(u, t, Blocks) in w.edges && !w.Terminal(u) ==> Edge(u, t, Blocks).from in Unmet(w.edges, StatesOf(w.tasks), t);
  }

  /** Where every waiting task's chain is, in any run, crashes included: about to evaluate, or parked
      for at least a second and at most six hours. Nobody waits without a chain. */
  lemma WaitingIsAttended(steps: seq<Step>, t: TaskId)
    requires LegalRun(Init, steps)
    requires t in Run(Init, steps).tasks && Run(Init, steps).tasks[t].state == Waiting
    ensures var w := Run(Init, steps);
      && t in w.chains
      && (w.chains[t].pc == AtGate
          || (w.chains[t].pc.Parked?
              && w.chains[t].pc.since <= w.now
              && w.chains[t].pc.since + SECOND <= w.chains[t].pc.deadline <= w.chains[t].pc.since + REEVAL_INTERVAL
              && (CanAdvance(w, t) <==> w.chains[t].inbox != [] || w.chains[t].pc.deadline <= w.now)))
  {
    InitSound();
    RunKeepsSound(Init, steps);
    assert TaskOk(Run(Init, steps), t);
  }

  /** Nothing in flight: no resolver between steps, no chain about to wake others, no message. */
  ghost predicate Quiet(w: World) {
    && w.acts == map[]
    && forall t :: t in w.chains ==> w.chains[t].inbox == [] && !w.chains[t].pc.Listing? && !w.chains[t].pc.Sending?
  }

  /** No deadlock. When nothing is in flight, whoever is parked on blockers really has one, and as long
      as any task is live some live task has none, so the gates can never all wait on each other. */
  lemma NoDeadlock(steps: seq<Step>, live: TaskId) returns (m: TaskId)
    requires LegalRun(Init, steps) && CrashFree(steps) && Quiet(Run(Init, steps))
    requires live in Run(Init, steps).tasks && !Run(Init, steps).Terminal(live)
    ensures var w := Run(Init, steps);
      && m in w.tasks && m in w.chains && !w.Terminal(m)
      && Unmet(w.edges, StatesOf(w.tasks), m) == {}
      && !(w.chains[m].pc.Parked? && w.chains[m].pc.on != {})
    ensures var w := Run(Init, steps);
      forall t :: t in w.tasks && t in w.chains && w.tasks[t].state == Waiting && w.chains[t].pc.Parked? && w.chains[t].pc.on != {}
        ==> Unmet(w.edges, StatesOf(w.tasks), t) != {}
  {
    InitSound();
    RunKeepsSound(Init, steps);
    var w := Run(Init, steps);
    forall t | t in w.tasks && t in w.chains && w.tasks[t].state == Waiting && w.chains[t].pc.Parked? && w.chains[t].pc.on != {}
      ensures Unmet(w.edges, StatesOf(w.tasks), t) != {}
    {
      if Unmet(w.edges, StatesOf(w.tasks), t) == {} {
        NoLostWakeup(steps, t);
      }
    }
    var alive := set t | t in w.tasks && !w.Terminal(t);
    assert live in alive;
    m := NoMutualBlocking(w.edges, StatesOf(w.tasks), alive);
    assert TaskOk(w, m);
  }

  // ---------------------------------------------------------------- crashes

  /** `t` waits for blockers that are gone, and nobody is going to tell it. */
  ghost predicate Forgotten(w: World, t: TaskId) {
    ParkedSome(w, t) && Unmet(w.edges, StatesOf(w.tasks), t) == {} && w.chains[t].inbox == [] && !WakeUnderWay(w, t)
  }

  /** `t` waits for blockers that are gone, and a wake is not yet in its inbox. */
  ghost predicate Exposed(w: World, t: TaskId) {
    ParkedSome(w, t) && Unmet(w.edges, StatesOf(w.tasks), t) == {} && w.chains[t].inbox == []
  }

  lemma BlockerIsReason(w: World, u: TaskId, t: TaskId)
    requires Consistent(w) && ParkedSome(w, t)
    ensures u in Unmet(w.edges, StatesOf(w.tasks), t) <==> u in w.tasks && Edge(u, t, Blocks) in w.edges && !w.Terminal(u)
    ensures u in Unmet(w.edges, StatesOf(w.tasks), t) ==> Covered(w, u, t)
  {
    assert Edge(u, t, Blocks).from == u;
  }

  lemma SenderIsReason(w: World, u: TaskId, t: TaskId)
    requires Consistent(w) && ParkedSome(w, t)
    ensures u in w.chains && Edge(u, t, Blocks) in w.edges && (ListPending(w, u) || ChainWillWake(w.chains[u], t)) ==>
      u in w.tasks && Covered(w, u, t)
  {
  }

  /** A parked task is forgotten exactly when no task is a reason for it to look again. */
  lemma ForgottenMeansUncovered(w: World, t: TaskId)
    requires Consistent(w) && ParkedSome(w, t)
    ensures Forgotten(w, t) <==> forall u :: u in w.tasks ==> !Covered(w, u, t)
  {
    forall u: TaskId
      ensures u in Unmet(w.edges, StatesOf(w.tasks), t) <==> u in w.tasks && Edge(u, t, Blocks) in w.edges && !w.Terminal(u)
      ensures u in Unmet(w.edges, StatesOf(w.tasks), t) ==> Covered(w, u, t)
    {
      BlockerIsReason(w, u, t);
    }
    forall u: TaskId
      ensures u in w.chains && Edge(u, t, Blocks) in w.edges && (ListPending(w, u) || ChainWillWake(w.chains[u], t)) ==>
        u in w.tasks && Covered(w, u, t)
    {
      SenderIsReason(w, u, t);
    }
    assert Covered(w, t, t) <== w.chains[t].inbox != [] || WakeOwed(w, t) || SendPending(w, t);
  }

  /** No step but a crash makes anybody forgotten. */
  lemma StepForgetsNobody(w: World, step: Step, t: TaskId)
    requires Sound(w) && Enabled(w, step) && !step.Crash? && !Forgotten(w, t)
    ensures !Forgotten(Apply(w, step), t)
  {
    hide DoMutate, DoResume, DoAdvance, Covered, ValidTable, Forgotten, WakeUnderWay, Unmet;
    StepKeepsSound(w, step);
    var after := Apply(w, step);
    ParkedIfForgotten(after, t);
    if ParkedSome(after, t) {
      StepOrigin(w, step, t);
      ForgottenMeansUncovered(after, t);
      if step == Advance(t) {
        var u :| u in after.chains[t].pc.on;
        EvaluationCovers(w, t, u);
      } else {
        ForgottenMeansUncovered(w, t);
        var u :| u in w.tasks && Covered(w, u, t);
        StepKeepsReason(w, step, u, t);
      }
    }
  }

  lemma ParkedIfForgotten(w: World, t: TaskId)
    ensures Forgotten(w, t) ==> ParkedSome(w, t)
  {
  }

  /** A crash takes every wake that was only owed or on its way, so it forgets exactly the tasks that were
      free of blockers and had no message yet. */
  lemma CrashLosesExactlyOwedWakes(w: World, t: TaskId)
    requires Consistent(w)
    ensures Forgotten(Recover(w), t) <==> Exposed(w, t)
  {
    var after := Recover(w);
    assert after.tasks == w.tasks && after.edges == w.edges;
    if t in w.tasks {
      assert TaskOk(w, t);
      forall u | u in after.chains
        ensures !ListPending(after, u) && !ChainWillWake(after.chains[u], t)
      {
        assert TaskOk(w, u);
      }
    }
  }

  /** What a crash does to the reason one blocker gives one task: it stays exactly if a message was already
      queued or the blocker still stands. */
  lemma CrashKeepsReason(w: World, u: TaskId, t: TaskId)
    requires Consistent(w) && ParkedOn(w, u, t) && u in w.tasks && Covered(w, u, t)
    ensures SameTasks(w, Recover(w)) && ParkedOn(Recover(w), u, t)
    ensures Covered(Recover(w), u, t) <==>
      w.chains[t].inbox != [] || (Edge(u, t, Blocks) in w.edges && !w.Terminal(u))
  {
    assert TaskOk(w, t) && TaskOk(w, u);
  }

  /** At no point of the run is `t` forgotten. */
  ghost predicate NeverForgotten(w: World, steps: seq<Step>, t: TaskId)
    requires LegalRun(w, steps)
    decreases |steps|
  {
    !Forgotten(w, t) && (steps == [] || NeverForgotten(Apply(w, steps[0]), steps[1..], t))
  }

  /** No crash of the run finds `t` free of blockers and without a message. */
  ghost predicate NoCrashMeets(w: World, steps: seq<Step>, t: TaskId)
    requires LegalRun(w, steps)
    decreases |steps|
  {
    steps == [] || ((steps[0] == Crash ==> !Exposed(w, t)) && NoCrashMeets(Apply(w, steps[0]), steps[1..], t))
  }

  lemma {:induction false} ForgottenFrom(w: World, steps: seq<Step>, t: TaskId)
    requires Sound(w) && LegalRun(w, steps) && !Forgotten(w, t)
    ensures NeverForgotten(w, steps, t) <==> NoCrashMeets(w, steps, t)
    decreases |steps|
  {
    hide Forgotten, Exposed, Apply, Enabled, Consistent, ValidTable;
    if steps != [] {
      var after := Apply(w, steps[0]);
      StepKeepsSound(w, steps[0]);
      if steps[0] == Crash {
        ApplyCrash(w);
        CrashLosesExactlyOwedWakes(w, t);
      } else {
        StepForgetsNobody(w, steps[0], t);
      }
      if !Forgotten(after, t) {
        ForgottenFrom(after, steps[1..], t);
      }
    }
  }

  lemma ApplyCrash(w: World)
    ensures Enabled(w, Crash) && Apply(w, Crash) == Recover(w)
  {
  }

  /** Wake-ups and crashes. Over every run: at every point a waiting task that parked on blockers and has
      none left has a message queued or a sender under way, exactly when no crash of the run found it free
      of blockers and without a message. */
  lemma WakesSurviveExactly(steps: seq<Step>, t: TaskId)
    requires LegalRun(Init, steps)
    ensures NeverForgotten(Init, steps, t) <==> NoCrashMeets(Init, steps, t)
  {
    InitSound();
    ForgottenFrom(Init, steps, t);
  }
}
