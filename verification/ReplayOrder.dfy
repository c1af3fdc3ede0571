/** What the log of one workflow shows: which operation may stand next to which, and with what value. */
module ReplayOrder {
  import opened Replay

  /** Waits and sends have their own states, and timeouts are counted from one. */
  predicate Sane(pc: Pc) {
    pc.Do? ==> !pc.op.RecvStage? && !pc.op.SendWake? && (pc.op.StageTimeout? ==> pc.op.attempt >= 1)
  }

  lemma SaneStep(w: Wiring, pc: Pc, v: Value)
    requires !IsOver(pc) && Sane(pc)
    ensures Sane(After(w, pc, v))
  {
  }

  lemma {:induction false} SaneAlways(w: Wiring, pc: Pc, values: seq<Value>)
    requires Sane(pc)
    ensures Sane(PcAfter(w, pc, values))
    decreases |values|
  {
    hide After;
    if !IsOver(pc) && values != [] {
      SaneStep(w, pc, values[0]);
      SaneAlways(w, After(w, pc, values[0]), values[1..]);
    }
  }

  /** Where the code stands at an entry of the log, and after it. */
  lemma EntryAt(w: Wiring, values: seq<Value>, i: nat) returns (pc: Pc)
    requires i < |Record(w, START, values)|
    ensures i < |values| && pc == PcAfter(w, START, values[..i]) && Sane(pc) && !IsOver(pc)
    ensures Record(w, START, values)[i] == Entry(OpAt(pc), values[i])
    ensures PcAfter(w, START, values[..i + 1]) == After(w, pc, values[i])
    ensures i + 1 < |Record(w, START, values)| ==> !IsOver(After(w, pc, values[i]))
    ensures i + 1 < |Record(w, START, values)| ==> Record(w, START, values)[i + 1].op == OpAt(After(w, pc, values[i]))
  {
    hide Record, PcAfter, After;
    RecordAt(w, START, values, i);
    pc := PcAfter(w, START, values[..i]);
    SaneAlways(w, START, values[..i]);
    if i + 1 < |Record(w, START, values)| {
      RecordAt(w, START, values, i + 1);
    }
  }

  // ---------------------------------------------------------------- what follows what

  /** The operation that follows an entry, if the run goes on. Which wake follows a wake is not told by the
      entry alone. */
  ghost predicate Succeeds(w: Wiring, e: Entry, next: Op) {
    match e.op
    case AdvanceToTriage => e.value == Plain && next == RouteAndOccupy(Triage)
    case ReadinessGate =>
      || (e.value == Readiness(true, false) && next == RouteAndOccupy(Execution))
      || (e.value == Readiness(false, false) && next == RecvBlocked)
    case RecvBlocked => e.value in {Message(false), Expired} && next == ReadinessGate
    case RouteAndOccupy(s) =>
      && e.value.Decision?
      && (e.value.isHuman ==> next == OpenAssignment(s))
      && (!e.value.isHuman && e.value.hasConfig && w.starter ==> next == StartAgent(s))
      && (!e.value.isHuman && !(e.value.hasConfig && w.starter) ==> next == ResolveAndAdvance(s))
    case OpenAssignment(s) =>
      e.value.Assigned? && next == if e.value.hasId && w.push && w.owner then EnqueuePush(s) else RecvStage(s)
    case EnqueuePush(s) => e.value == Plain && next == RecvStage(s)
    case RecvStage(s) =>
      || (e.value == Message(false) && next == ResolveAndAdvance(s))
      || (e.value == Expired && next.StageTimeout? && next.stage == s)
    case StageTimeout(s, _) => e.value == Plain && next == RecvStage(s)
    case StartAgent(s) =>
      || (e.value == AgentResult(true) && next == OpenAssignment(s))
      || (e.value == AgentResult(false) && next == ResolveAndAdvance(s))
    case ResolveAndAdvance(Triage) => e.value == Plain && next == RouteAndOccupy(Expansion)
    case ResolveAndAdvance(Expansion) => e.value == Plain && next == ReadinessGate
    case ResolveAndAdvance(Execution) => e.value == Plain && next == Completion
    case Completion => e.value == Plain && next == ListDependents
    case ListDependents =>
      && e.value.Dependents?
      && (e.value.ids != [] ==> next == SendWake(e.value.ids[0]))
      && (e.value.ids == [] ==> w.feedback && next == EnqueueFeedback)
    case SendWake(_) => e.value == Plain && (next.SendWake? || (w.feedback && next == EnqueueFeedback))
    case EnqueueFeedback => false
  }

  lemma StepSucceeds(w: Wiring, pc: Pc, v: Value)
    requires !IsOver(pc) && Sane(pc) && !IsOver(After(w, pc, v))
    ensures Succeeds(w, Entry(OpAt(pc), v), OpAt(After(w, pc, v)))
  {
  }

  /** In every log each operation is the one that has to follow its predecessor. */
  lemma OrderOfOperations(w: Wiring, values: seq<Value>, i: nat)
    requires i < |Record(w, START, values)|
    ensures i == 0 ==> Record(w, START, values)[0].op == AdvanceToTriage
    ensures i + 1 < |Record(w, START, values)| ==> Succeeds(w, Record(w, START, values)[i], Record(w, START, values)[i + 1].op)
  {
    hide Record, PcAfter, After, Succeeds;
    var pc := EntryAt(w, values, i);
    NothingRead(w, values);
    if i + 1 < |Record(w, START, values)| {
      StepSucceeds(w, pc, values[i]);
    }
  }

  lemma NothingRead(w: Wiring, values: seq<Value>)
    ensures PcAfter(w, START, values[..0]) == START
  {
    assert values[..0] == [];
  }

  /** What an operation has to be preceded by. */
  lemma OnlyAfter(w: Wiring, e: Entry, next: Op)
    requires Succeeds(w, e, next)
    ensures next.ResolveAndAdvance? ==>
      || e == Entry(RecvStage(next.stage), Message(false))
      || e == Entry(StartAgent(next.stage), AgentResult(false))
      || (e.op == RouteAndOccupy(next.stage) && e.value.Decision? && !e.value.isHuman && !(e.value.hasConfig && w.starter))
    ensures next.OpenAssignment? ==>
      || e == Entry(StartAgent(next.stage), AgentResult(true))
      || (e.op == RouteAndOccupy(next.stage) && e.value.Decision? && e.value.isHuman)
    ensures next.StartAgent? ==> e == Entry(RouteAndOccupy(next.stage), Decision(false, true)) && w.starter
    ensures next == RouteAndOccupy(Execution) ==> e == Entry(ReadinessGate, Readiness(true, false))
    ensures next == Completion ==> e == Entry(ResolveAndAdvance(Execution), Plain)
    ensures next != AdvanceToTriage
  {
  }

  /** A stage is closed only by what fills it: a message to its human, an agent's own result, or a routing
      step that filled it itself. */
  lemma StageClosedByFiller(w: Wiring, values: seq<Value>, i: nat)
    requires i < |Record(w, START, values)| && Record(w, START, values)[i].op.ResolveAndAdvance?
    ensures var log, s := Record(w, START, values), Record(w, START, values)[i].op.stage;
      && i > 0
      && (|| log[i - 1] == Entry(RecvStage(s), Message(false))
          || log[i - 1] == Entry(StartAgent(s), AgentResult(false))
          || (log[i - 1].op == RouteAndOccupy(s) && log[i - 1].value.Decision? && !log[i - 1].value.isHuman
              && !(log[i - 1].value.hasConfig && w.starter)))
  {
    hide Record, Succeeds;
    OrderOfOperations(w, values, if i == 0 then 0 else i - 1);
    if i > 0 {
      OnlyAfter(w, Record(w, START, values)[i - 1], Record(w, START, values)[i].op);
    }
  }

  /** A human decision and an agent that gave up open a slot for a human, and nothing else does. */
  lemma HumanSlotExact(w: Wiring, values: seq<Value>, i: nat)
    requires 0 < i < |Record(w, START, values)|
    ensures var log := Record(w, START, values);
      forall s :: log[i].op == OpenAssignment(s) <==>
        || log[i - 1] == Entry(StartAgent(s), AgentResult(true))
        || (log[i - 1].op == RouteAndOccupy(s) && log[i - 1].value.Decision? && log[i - 1].value.isHuman)
  {
    hide Record;
    OrderOfOperations(w, values, i - 1);
  }

  /** Execution is entered only from an evaluation that found the task ready, completion only from a closed
      execution. */
  lemma GateBeforeExecution(w: Wiring, values: seq<Value>, i: nat)
    requires 0 < i < |Record(w, START, values)|
    ensures var log := Record(w, START, values);
      && (log[i].op == RouteAndOccupy(Execution) ==> log[i - 1] == Entry(ReadinessGate, Readiness(true, false)))
      && (log[i].op == Completion ==> log[i - 1] == Entry(ResolveAndAdvance(Execution), Plain))
  {
    hide Record, Succeeds;
    OrderOfOperations(w, values, i - 1);
    OnlyAfter(w, Record(w, START, values)[i - 1], Record(w, START, values)[i].op);
  }

  // ---------------------------------------------------------------- timeouts and wakes

  lemma WaitStarts(w: Wiring, pc: Pc, v: Value)
    requires !IsOver(pc) && Sane(pc) && After(w, pc, v).Waits?
    ensures var s, attempt := After(w, pc, v).stage, After(w, pc, v).attempt;
      || (attempt == 0 && OpAt(pc) in {OpenAssignment(s), EnqueuePush(s)})
      || (attempt > 0 && OpAt(pc) == StageTimeout(s, attempt))
  {
  }

  lemma TimeoutStarts(w: Wiring, pc: Pc, v: Value)
    requires !IsOver(pc) && Sane(pc) && !IsOver(After(w, pc, v)) && OpAt(After(w, pc, v)).StageTimeout?
    ensures v == Expired && pc.Waits? && OpAt(After(w, pc, v)) == StageTimeout(pc.stage, pc.attempt + 1)
  {
  }

  /** The timeouts of a slot are numbered from one, without a gap. */
  lemma TimeoutsNumbered(w: Wiring, values: seq<Value>, i: nat)
    requires i < |Record(w, START, values)| && Record(w, START, values)[i].op.StageTimeout?
    ensures var log, s, n := Record(w, START, values), Record(w, START, values)[i].op.stage, Record(w, START, values)[i].op.attempt;
      && i >= 2 && log[i - 1] == Entry(RecvStage(s), Expired)
      && (|| (n == 1 && log[i - 2].op in {OpenAssignment(s), EnqueuePush(s)})
          || (n > 1 && log[i - 2].op == StageTimeout(s, n - 1)))
  {
    hide Record, PcAfter, After, Succeeds;
    OrderOfOperations(w, values, 0);
    NothingRead(w, values);
    if i > 0 {
      var wait := EntryAt(w, values, i - 1);
      TimeoutStarts(w, wait, values[i - 1]);
      if i > 1 {
        var before := EntryAt(w, values, i - 2);
        WaitStarts(w, before, values[i - 2]);
      }
    }
  }

  lemma SendsOn(w: Wiring, ids: seq<nat>, k: nat, v: Value)
    requires k < |ids| && !IsOver(Tail(w, ids[k..])) && v == Plain
    ensures OpAt(Tail(w, ids[k..])) == SendWake(ids[k]) && After(w, Tail(w, ids[k..]), v) == Tail(w, ids[k + 1..])
  {
    assert ids[k..][1..] == ids[k + 1..];
  }

  lemma SendRefused(w: Wiring, ids: seq<nat>, k: nat, v: Value)
    requires k < |ids| && v != Plain
    ensures !IsOver(Tail(w, ids[k..])) && After(w, Tail(w, ids[k..]), v) == Over
  {
  }

  /** After the listing the dependents are woken one by one, in its order, and the feedback start comes last. */
  lemma {:induction false} WakesInOrder(w: Wiring, values: seq<Value>, j: nat, k: nat)
    requires j + 1 + k < |Record(w, START, values)| && Record(w, START, values)[j].op == ListDependents
    ensures var log := Record(w, START, values);
      && log[j].value.Dependents?
      && k <= |log[j].value.ids|
      && (k < |log[j].value.ids| ==> log[j + 1 + k].op == SendWake(log[j].value.ids[k]))
      && (k == |log[j].value.ids| ==> w.feedback && log[j + 1 + k].op == EnqueueFeedback)
    decreases k
  {
    hide Record, PcAfter, After;
    var at := EntryAt(w, values, j);
    OrderOfOperations(w, values, j);
    var ids := values[j].ids;
    StandsInTail(w, values, j, k);
    var pc := EntryAt(w, values, j + 1 + k);
    TailShape(w, ids, k);
  }

  lemma TailShape(w: Wiring, ids: seq<nat>, k: nat)
    requires k <= |ids| && !IsOver(Tail(w, ids[k..]))
    ensures k < |ids| ==> OpAt(Tail(w, ids[k..])) == SendWake(ids[k])
    ensures k == |ids| ==> w.feedback && OpAt(Tail(w, ids[k..])) == EnqueueFeedback
  {
  }

  lemma ListsTail(w: Wiring, pc: Pc, v: Value)
    requires !IsOver(pc) && Sane(pc) && OpAt(pc) == ListDependents && v.Dependents?
    ensures After(w, pc, v) == Tail(w, v.ids)
  {
  }

  lemma {:induction false} StandsInTail(w: Wiring, values: seq<Value>, j: nat, k: nat)
    requires j + 1 + k < |Record(w, START, values)| && j < |values| && values[j].Dependents?
    requires Record(w, START, values)[j].op == ListDependents
    ensures k <= |values[j].ids| && j + 1 + k <= |values| && PcAfter(w, START, values[..j + 1 + k]) == Tail(w, values[j].ids[k..])
    decreases k
  {
    hide Record, PcAfter, After, Tail;
    var ids := values[j].ids;
    if k == 0 {
      var at := EntryAt(w, values, j);
      ListsTail(w, at, values[j]);
      assert ids[0..] == ids;
    } else {
      StandsInTail(w, values, j, k - 1);
      var at := EntryAt(w, values, j + k);
      if k - 1 == |ids| {
        TailOver(w, ids, values[j + k]);
      } else if values[j + k] == Plain {
        SendsOn(w, ids, k - 1, Plain);
      } else {
        SendRefused(w, ids, k - 1, values[j + k]);
      }
    }
  }

  lemma TailOver(w: Wiring, ids: seq<nat>, v: Value)
    requires !IsOver(Tail(w, ids[|ids|..]))
    ensures After(w, Tail(w, ids[|ids|..]), v) == Over
  {
  }

  // ---------------------------------------------------------------- when a run goes on

  /** The values with which a run goes on after an operation, sends aside. */
  predicate Continues(w: Wiring, e: Entry) {
    match e.op
    case ReadinessGate => e.value.Readiness? && !e.value.terminal
    case RecvBlocked => e.value in {Message(false), Expired}
    case RecvStage(_) => e.value in {Message(false), Expired}
    case RouteAndOccupy(_) => e.value.Decision?
    case OpenAssignment(_) => e.value.Assigned?
    case StartAgent(_) => e.value.AgentResult?
    case ListDependents => e.value.Dependents? && (e.value.ids != [] || w.feedback)
    case EnqueueFeedback => false
    case _ => e.value == Plain
  }

  lemma StepContinues(w: Wiring, pc: Pc, v: Value)
    requires !IsOver(pc) && Sane(pc) && !pc.Sends?
    ensures !IsOver(After(w, pc, v)) <==> Continues(w, Entry(OpAt(pc), v))
  {
  }

  lemma {:induction false} RecordReaches(w: Wiring, pc: Pc, values: seq<Value>, i: nat)
    requires i < |values| && i <= |Record(w, pc, values)| && !IsOver(PcAfter(w, pc, values[..i]))
    ensures i < |Record(w, pc, values)|
    decreases i
  {
    if i > 0 {
      assert values[..i][1..] == values[1..][..i - 1];
      RecordReaches(w, After(w, pc, values[0]), values[1..], i - 1);
    } else {
      assert values[..0] == [];
    }
  }

  /** As long as there are values a run goes on after exactly those; a failed operation, a cancel or a task
      found terminal ends it there. */
  lemma GoesOnExactly(w: Wiring, values: seq<Value>, i: nat)
    requires i < |Record(w, START, values)| && i + 1 < |values| && !Record(w, START, values)[i].op.SendWake?
    ensures i + 1 < |Record(w, START, values)| <==> Continues(w, Record(w, START, values)[i])
  {
    hide Record, PcAfter, After, Continues;
    var pc := EntryAt(w, values, i);
    StepContinues(w, pc, values[i]);
    if Continues(w, Record(w, START, values)[i]) {
      RecordReaches(w, START, values, i + 1);
    }
  }

  /** After a wake that was sent it goes on exactly when there is another one to send or the feedback start. */
  lemma SendsGoOnExactly(w: Wiring, values: seq<Value>, j: nat, k: nat)
    requires j + 1 + k < |Record(w, START, values)| && j + 2 + k < |values|
    requires Record(w, START, values)[j].op == ListDependents
    requires Record(w, START, values)[j + 1 + k].op.SendWake?
    ensures Record(w, START, values)[j].value.Dependents?
    ensures j + 2 + k < |Record(w, START, values)| <==>
      values[j + 1 + k] == Plain && (k + 1 < |Record(w, START, values)[j].value.ids| || w.feedback)
  {
    hide Record, PcAfter, After;
    WakesInOrder(w, values, j, k);
    var at := EntryAt(w, values, j);
    StandsInTail(w, values, j, k);
    var pc := EntryAt(w, values, j + 1 + k);
    var ids := values[j].ids;
    TailShape(w, ids, k);
    if values[j + 1 + k] == Plain {
      SendsOn(w, ids, k, Plain);
      if !IsOver(Tail(w, ids[k + 1..])) {
        RecordReaches(w, START, values, j + 2 + k);
      }
    } else {
      SendRefused(w, ids, k, values[j + 1 + k]);
    }
  }
}
