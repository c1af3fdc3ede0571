/** How often the gate looks at a task in vain before its start date, on the runs of the machine. */
module ChainPatience {
  import opened Lifecycle
  import opened Relations
  import opened Readiness
  import opened ChainProtocol
  import opened ChainSafety
  import opened ChainWakeups

  /** The step evaluates `t` before its start date. */
  predicate LooksInVain(w: World, step: Step, t: TaskId, date: int) {
    step == Advance(t) && t in w.chains && w.chains[t].pc == AtGate && w.now < date
  }

  /** The step takes a message from the blocked topic of `t`. */
  predicate TakesMessage(w: World, step: Step, t: TaskId) {
    step == Advance(t) && t in w.chains && w.chains[t].pc.Parked? && w.chains[t].inbox != []
  }

  function VainLooks(w: World, steps: seq<Step>, t: TaskId, date: int): nat
    requires LegalRun(w, steps)
    decreases |steps|
  {
    if steps == [] then 0
    else (if LooksInVain(w, steps[0], t, date) then 1 else 0) + VainLooks(Apply(w, steps[0]), steps[1..], t, date)
  }

  function MessagesTaken(w: World, steps: seq<Step>, t: TaskId): nat
    requires LegalRun(w, steps)
    decreases |steps|
  {
    if steps == [] then 0
    else (if TakesMessage(w, steps[0], t) then 1 else 0) + MessagesTaken(Apply(w, steps[0]), steps[1..], t)
  }

  /** How many vain looks may still follow the end of a park, when the date is that far away. */
  function Parks(left: int): nat {
    if left < MILLISECOND then 0 else left / REEVAL_INTERVAL + 1
  }

  /** The vain looks a chain may still take without another message. */
  function Credit(w: World, t: TaskId, date: int): nat
    requires t in w.chains
  {
    match w.chains[t].pc
    case AtGate => if w.now < date then 1 + Parks(date - w.now) else 0
    case Parked(_, since, _) => Parks(date - since)
    case _ => 0
  }

  /** `t` has the start date, has passed the stages before the gate, and is parked as the gate parks it. */
  ghost predicate Held(w: World, t: TaskId, date: int) {
    && t in w.tasks && t in w.chains && w.tasks[t].startsAt == Some(date)
    && !(w.chains[t].pc.Unattached? || w.chains[t].pc.Starting? || w.chains[t].pc.Triage? || w.chains[t].pc.Expansion?)
    && (w.chains[t].pc.Parked? ==> w.chains[t].pc.deadline == w.chains[t].pc.since + Park(Some(date), w.chains[t].pc.since))
  }

  lemma ParksShrink(left: int, more: int)
    requires left <= more
    ensures Parks(left) <= Parks(more)
  {
    if left >= MILLISECOND {
      assert left / REEVAL_INTERVAL <= more / REEVAL_INTERVAL by {
        DivideMonotone(left, more);
      }
    }
  }

  lemma DivideMonotone(a: int, b: int)
    requires 0 <= a <= b
    ensures a / REEVAL_INTERVAL <= b / REEVAL_INTERVAL
  {
  }

  /** A park that ends before the date uses up one of them. */
  lemma ParkUsesOne(date: int, since: int, now: int)
    requires since + Park(Some(date), since) <= now < date
    ensures 1 + Parks(date - now) <= Parks(date - since)
  {
    OnePark(date, Evaluation(since, since), now);
    if date - now < MILLISECOND {
      QuotientStep(0, date - since);
    } else {
      QuotientStep(date - now, date - since);
    }
  }

  lemma GatePays(w: World, t: TaskId, date: int)
    requires Sound(w) && Held(w, t, date) && CanAdvance(w, t) && w.chains[t].pc == AtGate
    ensures Held(DoAdvance(w, t), t, date)
    ensures Credit(DoAdvance(w, t), t, date) + (if w.now < date then 1 else 0) <= Credit(w, t, date)
  {
    hide Unmet, Dependents;
    ReadyOnlyAfter(w, t, date);
  }

  lemma ReadyOnlyAfter(w: World, t: TaskId, date: int)
    requires t in w.tasks && w.tasks[t].startsAt == Some(date)
    ensures IsReady(w.edges, StatesOf(w.tasks), t, w.tasks[t].startsAt, w.now) ==> date <= w.now
    ensures date <= w.now ==> Parks(date - w.now) == 0
  {
  }

  lemma WakingPays(w: World, t: TaskId, date: int)
    requires Sound(w) && Held(w, t, date) && CanAdvance(w, t) && w.chains[t].pc.Parked?
    ensures Held(DoAdvance(w, t), t, date)
    ensures Credit(DoAdvance(w, t), t, date) <= Credit(w, t, date) + if w.chains[t].inbox != [] then 1 else 0
  {
    assert TaskOk(w, t);
    var since := w.chains[t].pc.since;
    ParksShrink(date - w.now, date - since);
    if w.chains[t].inbox == [] && w.now < date {
      ParkUsesOne(date, since, w.now);
    }
  }

  lemma PastTheGate(w: World, t: TaskId, date: int)
    requires Sound(w) && Held(w, t, date) && CanAdvance(w, t) && w.chains[t].pc != AtGate && !w.chains[t].pc.Parked?
    ensures Held(DoAdvance(w, t), t, date) && Credit(DoAdvance(w, t), t, date) == 0
  {
    hide Dependents;
  }

  lemma AdvancePays(w: World, t: TaskId, date: int)
    requires Sound(w) && Held(w, t, date) && CanAdvance(w, t)
    ensures Held(DoAdvance(w, t), t, date)
    ensures Credit(DoAdvance(w, t), t, date) + (if LooksInVain(w, Advance(t), t, date) then 1 else 0)
      <= Credit(w, t, date) + if TakesMessage(w, Advance(t), t) then 1 else 0
  {
    hide DoAdvance, Held, Credit;
    if w.chains[t].pc == AtGate {
      GatePays(w, t, date);
    } else if w.chains[t].pc.Parked? {
      WakingPays(w, t, date);
    } else {
      PastTheGate(w, t, date);
    }
  }

  predicate Reschedules(step: Step, t: TaskId) {
    step.Mutate? && step.m.Reschedule? && step.m.t == t
  }

  lemma MutateDateStays(w: World, m: Mutation, t: TaskId)
    requires CanMutate(w, m) && t in w.tasks && !(m.Reschedule? && m.t == t)
    ensures t in DoMutate(w, m).tasks && DoMutate(w, m).tasks[t].startsAt == w.tasks[t].startsAt && DoMutate(w, m).now == w.now
  {
    hide Add, Remove;
  }

  lemma AdvanceDateStays(w: World, u: TaskId, t: TaskId)
    requires CanAdvance(w, u) && t in w.tasks
    ensures t in DoAdvance(w, u).tasks && DoAdvance(w, u).tasks[t].startsAt == w.tasks[t].startsAt && DoAdvance(w, u).now == w.now
  {
    hide Dependents, Unmet;
  }

  lemma DateStays(w: World, step: Step, t: TaskId)
    requires Enabled(w, step) && t in w.tasks && !Reschedules(step, t)
    ensures t in Apply(w, step).tasks && Apply(w, step).tasks[t].startsAt == w.tasks[t].startsAt
    ensures w.now <= Apply(w, step).now
  {
    hide Dependents, DoMutate, DoAdvance;
    match step
    case Mutate(m) => MutateDateStays(w, m, t);
    case Advance(u) => AdvanceDateStays(w, u, t);
    case _ =>
  }

  lemma OthersPay(w: World, step: Step, t: TaskId, date: int)
    requires Sound(w) && Held(w, t, date) && Enabled(w, step) && step != Advance(t) && !Reschedules(step, t)
    ensures Held(Apply(w, step), t, date) && Credit(Apply(w, step), t, date) <= Credit(w, t, date)
  {
    hide DoMutate, DoResume, DoAdvance, ValidTable;
    DateStays(w, step, t);
    var after := Apply(w, step);
    if !step.Crash? && step != Abort(t) {
      if step != Mutate(Attach(t)) {
        PcStays(w, step, t);
      }
    }
    ParksShrink(date - after.now, date - w.now);
  }

  lemma {:induction false} LooksArePaid(w: World, steps: seq<Step>, t: TaskId, date: int)
    requires Sound(w) && Held(w, t, date) && LegalRun(w, steps)
    requires forall s :: s in steps ==> !Reschedules(s, t)
    ensures VainLooks(w, steps, t, date) <= Credit(w, t, date) + MessagesTaken(w, steps, t)
    decreases |steps|
  {
    hide Apply, Enabled, Sound, Held, Credit;
    if steps != [] {
      var after := Apply(w, steps[0]);
      StepKeepsSound(w, steps[0]);
      if steps[0] == Advance(t) {
        ApplyAdvance(w, t);
        AdvancePays(w, t, date);
      } else {
        OthersPay(w, steps[0], t, date);
      }
      LooksArePaid(after, steps[1..], t, date);
    }
  }

  lemma ApplyAdvance(w: World, t: TaskId)
    requires Enabled(w, Advance(t))
    ensures CanAdvance(w, t) && Apply(w, Advance(t)) == DoAdvance(w, t)
  {
  }

  /** On every run of the machine from the gate on, crashes and wakes included, a task whose start date is d
      away and stays the same is looked at before it at most floor(d / 6h) + 2 times, and once more for
      every message it takes. */
  lemma VainLooksBounded(before: seq<Step>, steps: seq<Step>, t: TaskId, date: int)
    requires LegalRun(Init, before) && LegalRun(Run(Init, before), steps)
    requires var w := Run(Init, before);
      && t in w.tasks && t in w.chains && w.tasks[t].startsAt == Some(date) && w.chains[t].pc == AtGate && w.now <= date
    requires forall s :: s in steps ==> !Reschedules(s, t)
    ensures var w := Run(Init, before);
      VainLooks(w, steps, t, date) <= (date - w.now) / REEVAL_INTERVAL + 2 + MessagesTaken(w, steps, t)
  {
    var w := Run(Init, before);
    InitSound();
    RunKeepsSound(Init, before);
    LooksArePaid(w, steps, t, date);
    QuotientStep(0, date - w.now);
  }
}
