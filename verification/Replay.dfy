/** The chain workflow on a memoizing workflow engine: the code is run again from the top after every
    crash, and each step, receive and send it issues must carry the name recorded at its position. */
module Replay {

  datatype Stage = Triage | Expansion | Execution

  /** The name under which the engine records a step, a receive, a send or a child start. */
  datatype Op =
    | AdvanceToTriage
    | ReadinessGate
    | RecvBlocked
    | RouteAndOccupy(stage: Stage)
    | OpenAssignment(stage: Stage)
    | EnqueuePush(stage: Stage)
    | RecvStage(stage: Stage)
    | StageTimeout(stage: Stage, attempt: nat)
    | StartAgent(stage: Stage)
    | ResolveAndAdvance(stage: Stage)
    | Completion
    | ListDependents
    | SendWake(task: nat)
    | EnqueueFeedback

  /** What the engine records for it. */
  datatype Value =
    | Failed
    | Plain
    | Readiness(ready: bool, terminal: bool)
    | Decision(isHuman: bool, hasConfig: bool)
    | Assigned(hasId: bool)
    | Message(cancel: bool)
    | Expired
    | AgentResult(failClose: bool)
    | Dependents(ids: seq<nat>)

  datatype Entry = Entry(op: Op, value: Value)

  /** What is wired in at boot. */
  datatype Wiring = Wiring(push: bool, owner: bool, starter: bool, feedback: bool)

  // ---------------------------------------------------------------- the reference: one operation at a time

  /** The operation the workflow is about to issue; `Over` when it has returned. */
  datatype Pc = Do(op: Op) | Waits(stage: Stage, attempt: nat) | Sends(rest: seq<nat>) | Over

  function OpAt(pc: Pc): Op
    requires pc != Over && pc != Sends([])
  {
    match pc
    case Do(op) => op
    case Waits(stage, _) => RecvStage(stage)
    case Sends(rest) => SendWake(rest[0])
  }

  function Tail(w: Wiring, rest: seq<nat>): Pc {
    if rest != [] then Sends(rest) else if w.feedback then Do(EnqueueFeedback) else Over
  }

  function StageStart(s: Stage): Pc {
    if s == Execution then Do(ReadinessGate) else Do(RouteAndOccupy(s))
  }

  /** Where the workflow goes with the value it got; a failed operation ends it. */
  function After(w: Wiring, pc: Pc, v: Value): Pc
    requires pc != Over && pc != Sends([])
  {
    match (OpAt(pc), v)
    case (AdvanceToTriage, Plain) => StageStart(Triage)
    case (ReadinessGate, Readiness(ready, terminal)) =>
      if terminal then Over else if ready then Do(RouteAndOccupy(Execution)) else Do(RecvBlocked)
    case (RecvBlocked, Message(cancel)) => if cancel then Over else Do(ReadinessGate)
    case (RecvBlocked, Expired) => Do(ReadinessGate)
    case (RouteAndOccupy(s), Decision(isHuman, hasConfig)) =>
      if isHuman then Do(OpenAssignment(s))
      else if w.starter && hasConfig then Do(StartAgent(s))
      else Do(ResolveAndAdvance(s))
    case (OpenAssignment(s), Assigned(hasId)) =>
      if w.push && hasId && w.owner then Do(EnqueuePush(s)) else Waits(s, 0)
    case (EnqueuePush(s), Plain) => Waits(s, 0)
    case (RecvStage(s), Message(cancel)) => if cancel then Over else Do(ResolveAndAdvance(s))
    case (RecvStage(s), Expired) => Do(StageTimeout(s, if pc.Waits? then pc.attempt + 1 else 1))
    case (StageTimeout(s, attempt), Plain) => Waits(s, attempt)
    case (StartAgent(s), AgentResult(failClose)) => if failClose then Do(OpenAssignment(s)) else Do(ResolveAndAdvance(s))
    case (ResolveAndAdvance(s), Plain) =>
      (match s case Triage => StageStart(Expansion) case Expansion => StageStart(Execution) case Execution => Do(Completion))
    case (Completion, Plain) => Do(ListDependents)
    case (ListDependents, Dependents(ids)) => Tail(w, ids)
    case (SendWake(_), Plain) => if pc.Sends? then Tail(w, pc.rest[1..]) else Over
    case _ => Over
  }

  const START := Do(AdvanceToTriage)

  predicate IsOver(pc: Pc) {
    pc == Over || pc == Sends([])
  }

  /** The log of a run that is given these values, one after the other, until it returns or they end. */
  function Record(w: Wiring, pc: Pc, values: seq<Value>): seq<Entry>
    decreases |values|
  {
    if IsOver(pc) || values == [] then []
    else [Entry(OpAt(pc), values[0])] + Record(w, After(w, pc, values[0]), values[1..])
  }

  function PcAfter(w: Wiring, pc: Pc, values: seq<Value>): Pc
    decreases |values|
  {
    if IsOver(pc) || values == [] then pc else PcAfter(w, After(w, pc, values[0]), values[1..])
  }

  function Values(log: seq<Entry>): (r: seq<Value>)
    ensures |r| == |log| && forall i :: 0 <= i < |log| ==> r[i] == log[i].value
  {
    seq(|log|, i requires 0 <= i < |log| => log[i].value)
  }

  lemma {:induction false} RecordAt(w: Wiring, pc: Pc, values: seq<Value>, i: nat)
    requires i < |Record(w, pc, values)|
    ensures i < |values| && !IsOver(PcAfter(w, pc, values[..i]))
    ensures Record(w, pc, values)[i] == Entry(OpAt(PcAfter(w, pc, values[..i])), values[i])
    ensures PcAfter(w, pc, values[..i + 1]) == After(w, PcAfter(w, pc, values[..i]), values[i])
    decreases i
  {
    if i > 0 {
      RecordAt(w, After(w, pc, values[0]), values[1..], i - 1);
      assert values[..i][1..] == values[1..][..i - 1] && values[..i + 1][1..] == values[1..][..i];
    } else {
      assert values[..1][1..] == [] && values[..0] == [];
    }
  }

  /** A run that has not returned extends its log by one entry for one more value. */
  lemma {:induction false} RecordSnoc(w: Wiring, pc: Pc, values: seq<Value>, v: Value)
    requires |Record(w, pc, values)| == |values|
    requires !IsOver(PcAfter(w, pc, values))
    ensures Record(w, pc, values + [v]) == Record(w, pc, values) + [Entry(OpAt(PcAfter(w, pc, values)), v)]
    ensures PcAfter(w, pc, values + [v]) == After(w, PcAfter(w, pc, values), v)
    decreases |values|
  {
    if values == [] {
      assert [v][1..] == [] && values + [v] == [v];
    } else if !IsOver(pc) {
      RecordSnoc(w, After(w, pc, values[0]), values[1..], v);
      assert (values + [v])[1..] == values[1..] + [v];
    }
  }

  /** A run that has returned ignores whatever else the world has to offer. */
  lemma {:induction false} RecordOver(w: Wiring, pc: Pc, values: seq<Value>, more: seq<Value>)
    requires IsOver(PcAfter(w, pc, values))
    ensures Record(w, pc, values + more) == Record(w, pc, values)
    decreases |values|
  {
    if values != [] && !IsOver(pc) {
      RecordOver(w, After(w, pc, values[0]), values[1..], more);
      assert (values + more)[1..] == values[1..] + more;
    }
  }

  /** Stopping after `a`, reading the log back and going on with `b` is going on from the start. */
  lemma {:induction false} RecordResumes(w: Wiring, pc: Pc, a: seq<Value>, b: seq<Value>)
    ensures Record(w, pc, Values(Record(w, pc, a)) + b) == Record(w, pc, a + b)
    decreases |a|
  {
    var read := Values(Record(w, pc, a));
    if IsOver(pc) || a == [] {
      assert read + b == b;
      assert a == [] ==> a + b == b;
    } else {
      var next := After(w, pc, a[0]);
      RecordResumes(w, next, a[1..], b);
      assert (a + b)[1..] == a[1..] + b && (a + b)[0] == a[0];
      assert (read + b)[0] == a[0];
      assert (read + b)[1..] == Values(Record(w, next, a[1..])) + b;
    }
  }

  // ---------------------------------------------------------------- the engine

  datatype Status = Answered | Died | Unexpected

  /** One process lifetime of the engine, seen by one workflow. `answers` holds what the world answers to
      operations that are not in the log yet; when it runs out the process dies. */
  class Engine {
    var log: seq<Entry>
    var next: nat
    var answers: seq<Value>
    var unexpected: bool

    constructor (log: seq<Entry>, answers: seq<Value>)
      ensures this.log == log && this.answers == answers && next == 0 && !unexpected
    {
      this.log := log;
      this.answers := answers;
      next := 0;
      unexpected := false;
    }

    /** All values this workflow has got or will get, in order. */
    ghost function Supply(): seq<Value>
      reads this
    {
      Values(log) + answers
    }

    /** The log is a record of this workflow, and the code stands at `pc` after the entries read so far. */
    ghost predicate Follows(w: Wiring, pc: Pc)
      reads this
    {
      && next <= |log| && !unexpected
      && log == Record(w, START, Values(log))
      && PcAfter(w, START, Values(log)[..next]) == pc
    }

    /** The log holds everything the supply allows, whether the run is over or the process died. */
    ghost predicate Settled(w: Wiring)
      reads this
    {
      !unexpected && log == Record(w, START, Supply())
    }

    /** Issues one operation: a recorded one must carry the recorded name and yields the recorded value,
        a new one is performed and recorded. */
    method Issue(op: Op) returns (status: Status, v: Value)
      requires next <= |log|
      modifies this
      ensures old(next) < |old(log)| ==>
        && log == old(log) && answers == old(answers)
        && (status == (if log[old(next)].op == op then Answered else Unexpected))
        && (status == Answered ==> v == log[old(next)].value && next == old(next) + 1 && unexpected == old(unexpected))
      ensures old(next) == |old(log)| ==>
        && unexpected == old(unexpected)
        && (status == (if old(answers) == [] then Died else Answered))
        && (status == Died ==> log == old(log) && answers == old(answers))
        && (status == Answered ==>
              v == old(answers)[0] && answers == old(answers)[1..]
              && log == old(log) + [Entry(op, v)] && next == |log|)
    {
      if next < |log| {
        if log[next].op != op {
          unexpected := true;
          return Unexpected, Failed;
        }
        v := log[next].value;
        next := next + 1;
        return Answered, v;
      }
      if answers == [] {
        return Died, Failed;
      }
      v := answers[0];
      log := log + [Entry(op, v)];
      answers := answers[1..];
      next := next + 1;
      return Answered, v;
    }

    /** An operation issued where the reference stands is never unexpected; the workflow goes on, or the
        process dies with everything recorded. */
    method Perform(op: Op, ghost w: Wiring, ghost pc: Pc) returns (alive: bool, v: Value)
      requires Follows(w, pc) && !IsOver(pc) && OpAt(pc) == op
      modifies this
      ensures Supply() == old(Supply())
      ensures alive ==> Follows(w, After(w, pc, v)) && |Supply()| - next < |old(Supply())| - old(next)
      ensures !alive ==> Settled(w)
    {
      if next < |log| {
        RecordAt(w, START, Values(log), next);
      } else {
        assert Values(log)[..next] == Values(log);
        if answers == [] {
          assert Supply() == Values(log);
        } else {
          RecordSnoc(w, START, Values(log), answers[0]);
          assert Values(log + [Entry(op, answers[0])]) == Values(log) + [answers[0]];
          assert (Values(log) + [answers[0]]) + answers[1..] == Values(log) + answers;
        }
      }
      var status;
      status, v := Issue(op);
      alive := status == Answered;
      assert next == |log| ==> Values(log)[..next] == Values(log);
    }

    /** Once the reference is over there is nothing left to read or to record. */
    lemma OverSettles(w: Wiring, pc: Pc)
      requires Follows(w, pc) && IsOver(pc)
      ensures Settled(w)
    {
      var read := Values(log)[..next];
      assert read + Values(log)[next..] == Values(log);
      assert read + (Values(log)[next..] + answers) == Values(log) + answers;
      RecordOver(w, START, read, Values(log)[next..]);
      RecordOver(w, START, read, Values(log)[next..] + answers);
    }
  }

  // ---------------------------------------------------------------- the workflow as written

  /** Whether the workflow goes on after a part of it, or is finished for this process lifetime. */
  datatype Going = On | Finished

  /** Alternates evaluations and receives until the task is ready. */
  method RunReadinessGate(e: Engine, ghost w: Wiring) returns (going: Going)
    requires e.Follows(w, Do(ReadinessGate))
    modifies e
    ensures e.Supply() == old(e.Supply())
    ensures going == On ==> e.Follows(w, Do(RouteAndOccupy(Execution)))
    ensures going == Finished ==> e.Settled(w)
  {
    hide Record, PcAfter;
    while true
      invariant e.Follows(w, Do(ReadinessGate)) && e.Supply() == old(e.Supply())
      decreases |e.Supply()| - e.next
    {
      var alive, outcome := e.Perform(ReadinessGate, w, Do(ReadinessGate));
      if !alive {
        return Finished;
      }
      if !outcome.Readiness? || outcome.terminal {
        e.OverSettles(w, Over);
        return Finished;
      }
      if outcome.ready {
        return On;
      }
      var msg;
      alive, msg := e.Perform(RecvBlocked, w, Do(RecvBlocked));
      if !alive {
        return Finished;
      }
      if !(msg.Message? || msg.Expired?) || (msg.Message? && msg.cancel) {
        e.OverSettles(w, Over);
        return Finished;
      }
    }
  }

  /** Opens the assignment and, when it got an id and pushes are wired, schedules one. */
  method RunOpenAssignmentStep(e: Engine, w: Wiring, stage: Stage) returns (going: Going)
    requires e.Follows(w, Do(OpenAssignment(stage)))
    modifies e
    ensures e.Supply() == old(e.Supply())
    ensures going == On ==> e.Follows(w, Waits(stage, 0))
    ensures going == Finished ==> e.Settled(w)
  {
    hide Record, PcAfter;
    var alive, slot := e.Perform(OpenAssignment(stage), w, Do(OpenAssignment(stage)));
    if !alive {
      return Finished;
    }
    if !slot.Assigned? {
      e.OverSettles(w, Over);
      return Finished;
    }
    if w.push && slot.hasId && w.owner {
      var pushed;
      alive, pushed := e.Perform(EnqueuePush(stage), w, Do(EnqueuePush(stage)));
      if !alive {
        return Finished;
      }
      if !pushed.Plain? {
        e.OverSettles(w, Over);
        return Finished;
      }
    }
    return On;
  }

  /** Waits in the open slot; every timeout is recorded and waited out. */
  method OccupyHumanAndWait(e: Engine, w: Wiring, stage: Stage) returns (going: Going)
    requires e.Follows(w, Do(OpenAssignment(stage)))
    modifies e
    ensures e.Supply() == old(e.Supply())
    ensures going == On ==> e.Follows(w, Do(ResolveAndAdvance(stage)))
    ensures going == Finished ==> e.Settled(w)
  {
    hide Record, PcAfter;
    going := RunOpenAssignmentStep(e, w, stage);
    if going == Finished {
      return;
    }
    var attempt: nat := 0;
    while true
      invariant e.Follows(w, Waits(stage, attempt)) && e.Supply() == old(e.Supply())
      decreases |e.Supply()| - e.next
    {
      var alive, result := e.Perform(RecvStage(stage), w, Waits(stage, attempt));
      if !alive {
        return Finished;
      }
      if result.Expired? {
        var noted;
        alive, noted := e.Perform(StageTimeout(stage, attempt + 1), w, Do(StageTimeout(stage, attempt + 1)));
        if !alive {
          return Finished;
        }
        if !noted.Plain? {
          e.OverSettles(w, Over);
          return Finished;
        }
        attempt := attempt + 1;
        continue;
      }
      if !result.Message? || result.cancel {
        e.OverSettles(w, Over);
        return Finished;
      }
      return On;
    }
  }

  /** One occupied stage: route it, have a human or an agent fill it, close it and advance. */
  method RunStage(e: Engine, w: Wiring, stage: Stage) returns (going: Going)
    requires e.Follows(w, Do(RouteAndOccupy(stage)))
    modifies e
    ensures e.Supply() == old(e.Supply())
    ensures going == On ==> e.Follows(w, After(w, Do(ResolveAndAdvance(stage)), Plain))
    ensures going == Finished ==> e.Settled(w)
  {
    hide Record, PcAfter;
    var alive, decision := e.Perform(RouteAndOccupy(stage), w, Do(RouteAndOccupy(stage)));
    if !alive {
      return Finished;
    }
    if !decision.Decision? {
      e.OverSettles(w, Over);
      return Finished;
    }
    if decision.isHuman {
      going := OccupyHumanAndWait(e, w, stage);
      if going == Finished {
        return;
      }
    } else if w.starter && decision.hasConfig {
      var res;
      alive, res := e.Perform(StartAgent(stage), w, Do(StartAgent(stage)));
      if !alive {
        return Finished;
      }
      if !res.AgentResult? {
        e.OverSettles(w, Over);
        return Finished;
      }
      if res.failClose {
        going := OccupyHumanAndWait(e, w, stage);
        if going == Finished {
          return;
        }
      }
    }
    var resolved;
    alive, resolved := e.Perform(ResolveAndAdvance(stage), w, Do(ResolveAndAdvance(stage)));
    if !alive {
      return Finished;
    }
    if !resolved.Plain? {
      e.OverSettles(w, Over);
      return Finished;
    }
    return On;
  }

  /** The fan-out of wakes and the feedback start after the completion commit. */
  method FinishTask(e: Engine, w: Wiring)
    requires e.Follows(w, Do(Completion))
    modifies e
    ensures e.Supply() == old(e.Supply()) && e.Settled(w)
  {
    hide Record, PcAfter;
    var alive, done := e.Perform(Completion, w, Do(Completion));
    if !alive {
      return;
    }
    if !done.Plain? {
      e.OverSettles(w, Over);
      return;
    }
    var deps;
    alive, deps := e.Perform(ListDependents, w, Do(ListDependents));
    if !alive {
      return;
    }
    if !deps.Dependents? {
      e.OverSettles(w, Over);
      return;
    }
    for i := 0 to |deps.ids|
      invariant e.Follows(w, Tail(w, deps.ids[i..])) && e.Supply() == old(e.Supply())
    {
      assert deps.ids[i..][1..] == deps.ids[i + 1..];
      var sent;
      alive, sent := e.Perform(SendWake(deps.ids[i]), w, Sends(deps.ids[i..]));
      if !alive {
        return;
      }
      if !sent.Plain? {
        e.OverSettles(w, Over);
        return;
      }
    }
    if w.feedback {
      var _, _ := Last(e, w);
    } else {
      e.OverSettles(w, Over);
    }
  }

  method Last(e: Engine, ghost w: Wiring) returns (alive: bool, v: Value)
    requires e.Follows(w, Do(EnqueueFeedback))
    modifies e
    ensures e.Supply() == old(e.Supply()) && e.Settled(w)
  {
    hide Record, PcAfter;
    alive, v := e.Perform(EnqueueFeedback, w, Do(EnqueueFeedback));
    if alive {
      e.OverSettles(w, Over);
    }
  }

  /** The whole workflow, run from the top against whatever the log holds. Unless the task is terminal,
      in which case nothing is issued at all, the log ends up as the record of everything supplied. */
  method ChainWorkflow(e: Engine, w: Wiring, terminal: bool)
    requires e.Follows(w, START) && e.next == 0
    modifies e
    ensures !e.unexpected
    ensures e.log == Boot(w, old(e.log), terminal, old(e.answers))
    ensures terminal ==> e.answers == old(e.answers)
  {
    hide Record, PcAfter;
    if terminal {
      return;
    }
    var alive, started := e.Perform(AdvanceToTriage, w, START);
    if !alive {
      return;
    }
    if !started.Plain? {
      e.OverSettles(w, Over);
      return;
    }
    var stages := [Triage, Expansion, Execution];
    for i := 0 to |stages|
      invariant e.Supply() == old(e.Supply())
      invariant e.Follows(w, if i < |stages| then StageStart(stages[i]) else Do(Completion))
    {
      if stages[i] == Execution {
        var gate := RunReadinessGate(e, w);
        if gate == Finished {
          return;
        }
      }
      var going := RunStage(e, w, stages[i]);
      if going == Finished {
        return;
      }
    }
    FinishTask(e, w);
  }

  // ---------------------------------------------------------------- many lifetimes

  /** The log after one process lifetime in which the world had `answers` to give. */
  function Boot(w: Wiring, log: seq<Entry>, terminal: bool, answers: seq<Value>): seq<Entry> {
    if terminal then log else Record(w, START, Values(log) + answers)
  }

  datatype Life = Life(terminal: bool, answers: seq<Value>)

  function Boots(w: Wiring, log: seq<Entry>, lives: seq<Life>): seq<Entry>
    decreases |lives|
  {
    if lives == [] then log else Boots(w, Boot(w, log, lives[0].terminal, lives[0].answers), lives[1..])
  }

  /** What the world answered over all lifetimes in which the workflow got past its first look. */
  function AllAnswers(lives: seq<Life>): seq<Value>
    decreases |lives|
  {
    if lives == [] then []
    else (if lives[0].terminal then [] else lives[0].answers) + AllAnswers(lives[1..])
  }

  lemma {:induction false} BootsAccumulate(w: Wiring, given: seq<Value>, lives: seq<Life>)
    ensures Boots(w, Record(w, START, given), lives) == Record(w, START, given + AllAnswers(lives))
    decreases |lives|
  {
    hide Record;
    if lives == [] {
      assert given + [] == given;
    } else if lives[0].terminal {
      assert [] + AllAnswers(lives[1..]) == AllAnswers(lives[1..]);
      BootsAccumulate(w, given, lives[1..]);
    } else {
      RecordResumes(w, START, given, lives[0].answers);
      BootsAccumulate(w, given + lives[0].answers, lives[1..]);
      assert given + lives[0].answers + AllAnswers(lives[1..]) == given + (lives[0].answers + AllAnswers(lives[1..]));
    }
  }

  /** Replay agreement: however often the process dies, and wherever, the log is the one an
      uninterrupted run leaves when the world gives it the same answers. */
  lemma CrashesLeaveNoTrace(w: Wiring, lives: seq<Life>)
    ensures Boots(w, [], lives) == Boots(w, [], [Life(false, AllAnswers(lives))])
  {
    BootsAccumulate(w, [], lives);
    assert [] + AllAnswers(lives) == AllAnswers(lives);
    assert Record(w, START, []) == [];
    var one := [Life(false, AllAnswers(lives))];
    assert one[1..] == [];
    assert Values([]) + AllAnswers(lives) == AllAnswers(lives);
  }

  /** Any log the lifetimes leave behind is one the workflow can be run against again. */
  lemma EveryLogReplays(w: Wiring, lives: seq<Life>)
    ensures Boots(w, [], lives) == Record(w, START, Values(Boots(w, [], lives)))
  {
    BootsAccumulate(w, [], lives);
    var all := [] + AllAnswers(lives);
    RecordResumes(w, START, all, []);
    assert Record(w, START, []) == [];
    assert all + [] == all;
    assert Values(Record(w, START, all)) + [] == Values(Record(w, START, all));
  }

  // ---------------------------------------------------------------- what has to be wired alike

  /** The part of the wiring the sequence of operations depends on. */
  function Effective(w: Wiring): (bool, bool, bool) {
    (w.push && w.owner, w.starter, w.feedback)
  }

  lemma {:induction false} EffectiveDecides(w1: Wiring, w2: Wiring, pc: Pc, values: seq<Value>)
    requires Effective(w1) == Effective(w2)
    ensures Record(w1, pc, values) == Record(w2, pc, values)
    decreases |values|
  {
    if !IsOver(pc) && values != [] {
      assert After(w1, pc, values[0]) == After(w2, pc, values[0]);
      EffectiveDecides(w1, w2, After(w1, pc, values[0]), values[1..]);
    }
  }

  lemma RecordNothing(w: Wiring, pc: Pc)
    ensures Record(w, pc, []) == [] && (IsOver(pc) ==> forall values :: Record(w, pc, values) == [])
  {
  }

  lemma RecordCons(w: Wiring, pc: Pc, v: Value, rest: seq<Value>)
    requires !IsOver(pc)
    ensures Record(w, pc, [v] + rest) == [Entry(OpAt(pc), v)] + Record(w, After(w, pc, v), rest)
  {
    assert ([v] + rest)[1..] == rest;
  }

  /** A stage an agent fills inside the routing step. */
  lemma InlineStage(w: Wiring, s: Stage, rest: seq<Value>)
    ensures Record(w, Do(RouteAndOccupy(s)), [Decision(false, false)] + ([Plain] + rest)) ==
      [Entry(RouteAndOccupy(s), Decision(false, false))] + ([Entry(ResolveAndAdvance(s), Plain)]
        + Record(w, After(w, Do(ResolveAndAdvance(s)), Plain), rest))
  {
    RecordCons(w, Do(RouteAndOccupy(s)), Decision(false, false), [Plain] + rest);
    RecordCons(w, Do(ResolveAndAdvance(s)), Plain, rest);
  }

  const LAST_STAGE: seq<Value> := [Decision(false, false)] + ([Plain] + ([Plain] + ([Dependents([])] + [Plain])))

  lemma LastStageShows(w: Wiring)
    ensures |Record(w, Do(RouteAndOccupy(Execution)), LAST_STAGE)| == if w.feedback then 5 else 4
  {
    hide Record;
    RecordNothing(w, Over);
    InlineStage(w, Execution, [Plain] + ([Dependents([])] + [Plain]));
    RecordCons(w, Do(Completion), Plain, [Dependents([])] + [Plain]);
    RecordCons(w, Do(ListDependents), Dependents([]), [Plain]);
    if w.feedback {
      assert [Plain] == [Plain] + [];
      RecordCons(w, Do(EnqueueFeedback), Plain, []);
    }
  }

  const AGENTS_ONLY: seq<Value> :=
    [Plain] + ([Decision(false, false)] + ([Plain] + ([Decision(false, false)] + ([Plain] + ([Readiness(true, false)] + LAST_STAGE)))))

  /** A task agents take from end to end, followed by one more answer. */
  lemma FeedbackShows(w: Wiring)
    ensures |Record(w, START, AGENTS_ONLY)| == if w.feedback then 11 else 10
  {
    hide Record;
    var gate := [Readiness(true, false)] + LAST_STAGE;
    var expansion := [Decision(false, false)] + ([Plain] + gate);
    RecordCons(w, START, Plain, [Decision(false, false)] + ([Plain] + expansion));
    InlineStage(w, Triage, expansion);
    InlineStage(w, Expansion, gate);
    RecordCons(w, Do(ReadinessGate), Readiness(true, false), LAST_STAGE);
    LastStageShows(w);
  }

  /** Two boots may differ in their wiring exactly as long as pushes to a known owner, the durable
      agent path and the feedback start are wired alike; otherwise some log of one fails the other. */
  lemma WiringExact(w1: Wiring, w2: Wiring)
    ensures (forall values :: Record(w1, START, values) == Record(w2, START, values)) <==> Effective(w1) == Effective(w2)
  {
    if Effective(w1) == Effective(w2) {
      forall values {
        EffectiveDecides(w1, w2, START, values);
      }
    } else if w1.feedback != w2.feedback {
      FeedbackShows(w1);
      FeedbackShows(w2);
    } else {
      var third := if w1.starter != w2.starter then [Plain] else [Assigned(true)] + [Plain];
      var first := if w1.starter != w2.starter then Decision(false, true) else Decision(true, false);
      var values := [Plain] + ([first] + third);
      DivergesAt(w1, first, third);
      DivergesAt(w2, first, third);
      assert Record(w1, START, values) != Record(w2, START, values);
    }
  }

  lemma DivergesAt(w: Wiring, first: Value, third: seq<Value>)
    requires (first == Decision(false, true) && third == [Plain]) || (first == Decision(true, false) && third == [Assigned(true)] + [Plain])
    ensures var r := Record(w, START, [Plain] + ([first] + third));
      if first == Decision(false, true) then
        |r| == 3 && r[2].op == (if w.starter then StartAgent(Triage) else ResolveAndAdvance(Triage))
      else
        |r| == 4 && r[3].op == (if w.push && w.owner then EnqueuePush(Triage) else RecvStage(Triage))
  {
    hide Record;
    RecordCons(w, START, Plain, [first] + third);
    RecordCons(w, Do(RouteAndOccupy(Triage)), first, third);
    assert [Plain] == [Plain] + [];
    if first == Decision(false, true) {
      var pc := After(w, Do(RouteAndOccupy(Triage)), first);
      RecordCons(w, pc, Plain, []);
      RecordNothing(w, After(w, pc, Plain));
    } else {
      RecordCons(w, Do(OpenAssignment(Triage)), Assigned(true), [Plain]);
      var pc := After(w, Do(OpenAssignment(Triage)), Assigned(true));
      RecordCons(w, pc, Plain, []);
      RecordNothing(w, After(w, pc, Plain));
    }
  }
}
