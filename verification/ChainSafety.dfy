/** Invariants of the chain machine and what follows from them over whole runs. */
module ChainSafety {
  import opened Lifecycle
  import opened Relations
  import opened Readiness
  import opened ChainProtocol

  // ---------------------------------------------------------------- invariant

  /** The states a task can be in while its chain stands at `pc`. */
  predicate Allowed(pc: Pc, s: TaskState) {
    match pc
    case Unattached => s in {Proposed, Accepted, TaskState.Dismissed, Halted}
    case Starting => s in {Accepted, TaskState.Dismissed, Halted}
    case Triage => s in {Accepted, TaskState.Dismissed, Halted}
    case Expansion => s in {Accepted, TaskState.Dismissed, Halted}
    case AtGate => s in {Accepted, Waiting, TaskState.Dismissed, Halted}
    case Parked(_, _, _) => s in {Waiting, Halted}
    case Execution => s in {Executing, Halted}
    case Completing => s in {Executing, Halted}
    case Listing => s in {Done, Halted}
    case Sending(_) => s in {Done, Halted}
    case Exited => IsTerminal(s)
  }

  ghost predicate PcOk(w: World, pc: Pc) {
    match pc
    case Sending(targets) => forall t :: t in targets ==> t in w.tasks
    case Parked(on, since, deadline) =>
      && on <= w.tasks.Keys
      && since <= w.now
      && since + SECOND <= deadline <= since + REEVAL_INTERVAL
    case _ => true
  }

  ghost predicate TaskOk(w: World, t: TaskId)
    requires t in w.tasks && t in w.chains
  {
    && Allowed(w.chains[t].pc, w.tasks[t].state)
    && PcOk(w, w.chains[t].pc)
    && (w.chains[t].stopped || CancelSentinel in w.chains[t].inbox ==> w.Terminal(t))
  }

  /** Activities that exist only once their task has ended. */
  predicate IsEnded(a: Activity) {
    a.Stopping? || a.SendingSentinel? || a.ListingFor?
  }

  ghost predicate ActOk(w: World, a: Activity) {
    match a
    case SendingTo(targets) => forall t :: t in targets ==> t in w.tasks
    case _ => a.task in w.tasks && (IsEnded(a) ==> w.Terminal(a.task))
  }

  ghost predicate Consistent(w: World) {
    && w.chains.Keys == w.tasks.Keys
    && (forall t :: t in w.tasks ==> TaskOk(w, t))
    && (forall id :: id in w.acts ==> ActOk(w, w.acts[id]))
  }

  ghost predicate Sound(w: World) {
    Consistent(w) && ValidTable(w.tasks.Keys, w.edges)
  }

  /** The gate lets a live task into EXECUTING exactly when it is ready, and otherwise parks it, waiting,
      on just the blockers that stand. */
  lemma GateDecides(w: World, t: TaskId)
    requires Sound(w) && CanAdvance(w, t) && w.chains[t].pc == AtGate && !w.Terminal(t)
    ensures var after, ready := DoAdvance(w, t), IsReady(w.edges, StatesOf(w.tasks), t, w.tasks[t].startsAt, w.now);
      && (after.tasks[t].state == Executing <==> ready) && (after.chains[t].pc == Execution <==> ready)
      && (!ready ==>
            && after.tasks[t].state == Waiting
            && after.chains[t].pc == Parked(Unmet(w.edges, StatesOf(w.tasks), t), w.now, w.now + Park(w.tasks[t].startsAt, w.now)))
  {
    assert TaskOk(w, t);
  }

  // ---------------------------------------------------------------- one step, one task

  /** What a step may do to the state of one task: only legal edges, EXECUTING only through a
      readiness evaluation that succeeds, DONE only from EXECUTING, nothing out of a terminal state. */
  ghost predicate StateMove(w: World, step: Step, t: TaskId, after: Task)
    requires t in w.tasks && t in w.chains
  {
    var from, to := w.tasks[t].state, after.state;
    && (from == to || IsLegal(from, to) || (w.tasks[t].intake && IsLegalIntake(from, to)))
    && (IsTerminal(from) ==> to == from)
    && (to == Done && from != Done ==> from == Executing && step == Advance(t) && w.chains[t].pc == Completing)
    && (to == Executing && from != Executing ==>
          && step == Advance(t) && w.chains[t].pc == AtGate
          && IsReady(w.edges, StatesOf(w.tasks), t, w.tasks[t].startsAt, w.now))
    && after.intake == w.tasks[t].intake
  }

  ghost predicate SameTasks(w: World, after: World) {
    after.chains.Keys == after.tasks.Keys >= w.tasks.Keys
  }

  lemma AdvanceOnTask(w: World, u: TaskId, t: TaskId)
    requires w.chains.Keys == w.tasks.Keys && CanAdvance(w, u) && t in w.tasks && TaskOk(w, t)
    ensures SameTasks(w, DoAdvance(w, u)) && StateMove(w, Advance(u), t, DoAdvance(w, u).tasks[t])
  {
  }

  lemma MutateOnTask(w: World, m: Mutation, t: TaskId)
    requires w.chains.Keys == w.tasks.Keys && CanMutate(w, m) && t in w.tasks && TaskOk(w, t)
    ensures SameTasks(w, DoMutate(w, m)) && StateMove(w, Mutate(m), t, DoMutate(w, m).tasks[t])
  {
  }

  lemma StepOnTask(w: World, step: Step, t: TaskId)
    requires w.chains.Keys == w.tasks.Keys && Enabled(w, step) && t in w.tasks && TaskOk(w, t)
    ensures SameTasks(w, Apply(w, step)) && StateMove(w, step, t, Apply(w, step).tasks[t])
  {
    match step
    case Mutate(m) => MutateOnTask(w, m, t);
    case Advance(u) => AdvanceOnTask(w, u, t);
    case _ =>
  }

  /** All a step may change of a task it is not about: one more wake in its inbox. */
  ghost predicate Bystander(w: World, after: World, t: TaskId)
    requires t in w.tasks && t in w.chains
  {
    && t in after.tasks && t in after.chains && w.tasks.Keys <= after.tasks.Keys && w.now <= after.now
    && after.tasks[t] == w.tasks[t]
    && after.chains[t].pc == w.chains[t].pc && after.chains[t].stopped == w.chains[t].stopped
    && (after.chains[t].inbox == w.chains[t].inbox || after.chains[t].inbox == w.chains[t].inbox + [Wake])
  }

  lemma BystanderKeepsTaskOk(w: World, after: World, t: TaskId)
    requires t in w.tasks && t in w.chains && TaskOk(w, t) && Bystander(w, after, t)
    ensures TaskOk(after, t)
  {
  }

  lemma AdvanceLeavesOthers(w: World, u: TaskId, t: TaskId)
    requires w.chains.Keys == w.tasks.Keys && CanAdvance(w, u) && t in w.tasks && t != u
    ensures Bystander(w, DoAdvance(w, u), t)
  {
    hide Dependents, Unmet, Park;
  }

  lemma EvaluationKeepsTaskOk(w: World, t: TaskId)
    requires w.chains.Keys == w.tasks.Keys && t in w.tasks && TaskOk(w, t) && CanAdvance(w, t) && w.chains[t].pc == AtGate
    ensures t in DoAdvance(w, t).tasks && t in DoAdvance(w, t).chains && TaskOk(DoAdvance(w, t), t)
  {
    ParkBounds(w.tasks[t].startsAt, w.now);
  }

  lemma OtherAdvanceKeepsTaskOk(w: World, t: TaskId)
    requires w.chains.Keys == w.tasks.Keys && t in w.tasks && TaskOk(w, t) && CanAdvance(w, t) && w.chains[t].pc != AtGate
    ensures t in DoAdvance(w, t).tasks && t in DoAdvance(w, t).chains && TaskOk(DoAdvance(w, t), t)
  {
  }

  lemma AdvanceKeepsTaskOk(w: World, u: TaskId, t: TaskId)
    requires Consistent(w) && CanAdvance(w, u) && t in w.tasks
    ensures t in DoAdvance(w, u).tasks && t in DoAdvance(w, u).chains && TaskOk(DoAdvance(w, u), t)
  {
    hide DoAdvance, TaskOk;
    if t != u {
      AdvanceLeavesOthers(w, u, t);
      BystanderKeepsTaskOk(w, DoAdvance(w, u), t);
    } else if w.chains[u].pc == AtGate {
      EvaluationKeepsTaskOk(w, u);
    } else {
      OtherAdvanceKeepsTaskOk(w, u);
    }
  }

  lemma MutateKeepsTaskOk(w: World, m: Mutation, t: TaskId)
    requires Consistent(w) && CanMutate(w, m) && t in w.tasks && SameTasks(w, DoMutate(w, m))
    ensures TaskOk(DoMutate(w, m), t)
  {
    hide Add, Remove;
  }

  lemma ResumeKeepsTaskOk(w: World, id: nat, t: TaskId)
    requires Consistent(w) && CanResume(w, id) && t in w.tasks && SameTasks(w, DoResume(w, id))
    ensures TaskOk(DoResume(w, id), t)
  {
  }

  lemma StepKeepsTaskOk(w: World, step: Step, t: TaskId)
    requires Consistent(w) && Enabled(w, step) && t in w.tasks && SameTasks(w, Apply(w, step))
    ensures TaskOk(Apply(w, step), t)
  {
    match step
    case Mutate(m) => MutateKeepsTaskOk(w, m, t);
    case Resume(id) => ResumeKeepsTaskOk(w, id, t);
    case Advance(u) => AdvanceKeepsTaskOk(w, u, t);
    case _ =>
  }

  lemma MutateKeepsActOk(w: World, m: Mutation, id: nat)
    requires Consistent(w) && CanMutate(w, m) && SameTasks(w, DoMutate(w, m)) && id in DoMutate(w, m).acts
    requires forall t :: t in w.tasks && w.Terminal(t) ==> DoMutate(w, m).Terminal(t)
    requires forall e :: e in w.edges ==> e.to in w.tasks
    ensures ActOk(DoMutate(w, m), DoMutate(w, m).acts[id])
  {
  }

  lemma ResumeKeepsActOk(w: World, i: nat, id: nat)
    requires Consistent(w) && CanResume(w, i) && SameTasks(w, DoResume(w, i)) && id in DoResume(w, i).acts
    requires forall t :: t in w.tasks && w.Terminal(t) ==> DoResume(w, i).Terminal(t)
    ensures ActOk(DoResume(w, i), DoResume(w, i).acts[id])
  {
  }

  lemma StepKeepsActOk(w: World, step: Step, id: nat)
    requires Sound(w) && Enabled(w, step) && SameTasks(w, Apply(w, step)) && id in Apply(w, step).acts
    requires forall t :: t in w.tasks && w.Terminal(t) ==> Apply(w, step).Terminal(t)
    ensures ActOk(Apply(w, step), Apply(w, step).acts[id])
  {
    match step
    case Mutate(m) => MutateKeepsActOk(w, m, id);
    case Resume(i) => ResumeKeepsActOk(w, i, id);
    case Advance(t) => assert DoAdvance(w, t).acts == w.acts;
    case _ =>
  }

  lemma StepKeepsTable(w: World, step: Step)
    requires Enabled(w, step) && ValidTable(w.tasks.Keys, w.edges)
    requires w.tasks.Keys <= Apply(w, step).tasks.Keys
    ensures ValidTable(Apply(w, step).tasks.Keys, Apply(w, step).edges)
  {
    if step.Mutate? {
      match step.m
      case AddEdge(e) => AddKeepsValid(w.tasks.Keys, w.edges, e);
      case RemoveEdge(e, _) => RemoveKeepsValid(w.tasks.Keys, w.edges, e);
      case _ =>
    }
  }

  lemma StepKeepsSound(w: World, step: Step)
    requires Sound(w) && Enabled(w, step)
    ensures Sound(Apply(w, step)) && SameTasks(w, Apply(w, step))
    ensures forall t :: t in w.tasks ==> StateMove(w, step, t, Apply(w, step).tasks[t])
  {
    var after := Apply(w, step);
    StepKeepsKeys(w, step);
    forall t | t in w.tasks
      ensures StateMove(w, step, t, after.tasks[t])
    {
      StepOnTask(w, step, t);
    }
    forall t | t in after.tasks
      ensures TaskOk(after, t)
    {
      if t in w.tasks {
        StepKeepsTaskOk(w, step, t);
      }
    }
    forall id | id in after.acts
      ensures ActOk(after, after.acts[id])
    {
      StepKeepsActOk(w, step, id);
    }
    StepKeepsTable(w, step);
  }

  lemma StepKeepsKeys(w: World, step: Step)
    requires w.chains.Keys == w.tasks.Keys && Enabled(w, step)
    ensures SameTasks(w, Apply(w, step))
    ensures forall t :: t in Apply(w, step).tasks && t !in w.tasks ==> step.Mutate? && step.m.Create? && TaskOk(Apply(w, step), t)
  {
  }

  // ---------------------------------------------------------------- who moves a chain

  lemma MutatePcStays(w: World, m: Mutation, t: TaskId)
    requires Sound(w) && CanMutate(w, m) && t in w.chains && m != Attach(t)
    ensures t in DoMutate(w, m).chains && DoMutate(w, m).chains[t].pc == w.chains[t].pc
  {
    hide TaskOk, ActOk;
  }

  lemma ResumePcStays(w: World, id: nat, t: TaskId)
    requires CanResume(w, id) && t in w.chains
    ensures t in DoResume(w, id).chains && DoResume(w, id).chains[t].pc == w.chains[t].pc
  {
    hide Dependents;
  }

  /** Only its own steps, its attachment, its stop and a crash move a chain. */
  lemma PcStays(w: World, step: Step, t: TaskId)
    requires Sound(w) && Enabled(w, step) && t in w.chains
    requires step != Advance(t) && step != Abort(t) && step != Mutate(Attach(t)) && !step.Crash?
    ensures t in Apply(w, step).chains && Apply(w, step).chains[t].pc == w.chains[t].pc
  {
    hide DoMutate, DoResume, DoAdvance;
    match step
    case Mutate(m) => MutatePcStays(w, m, t);
    case Resume(id) => ResumePcStays(w, id, t);
    case Advance(u) => AdvanceLeavesOthers(w, u, t);
    case _ =>
  }
}
