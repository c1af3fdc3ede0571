/** What the owner's mutations come to, once the resolver has done all of its work. */
module ChainResolvers {
  import opened Lifecycle
  import opened Relations
  import opened Readiness
  import opened ChainProtocol
  import opened ChainSafety
  import opened ChainHistory

  // ---------------------------------------------------------------- driving one resolver

  function Resumes(id: nat, n: nat): seq<Step> {
    seq(n, _ => Resume(id))
  }

  /** Taken through n steps with nothing in between, the resolver gets from one world to the other. */
  ghost predicate Drives(w: World, id: nat, n: nat, after: World) {
    LegalRun(w, Resumes(id, n)) && Run(w, Resumes(id, n)) == after
  }

  lemma DriveNone(w: World, id: nat)
    ensures Drives(w, id, 0, w)
  {
  }

  lemma DriveOn(w: World, id: nat, n: nat, after: World)
    requires CanResume(w, id) && Drives(DoResume(w, id), id, n, after)
    ensures Drives(w, id, n + 1, after)
  {
    hide DoResume, CanResume;
    assert Resumes(id, n + 1)[0] == Resume(id) && Resumes(id, n + 1)[1..] == Resumes(id, n);
  }

  /** The inboxes once every target got one more wake, in order. */
  function Woken(chains: map<TaskId, Chain>, targets: seq<TaskId>): map<TaskId, Chain>
    decreases |targets|
  {
    if targets == [] then chains
    else if targets[0] !in chains then Woken(chains, targets[1..])
    else
      var c := chains[targets[0]];
      Woken(chains[targets[0] := c.(inbox := c.inbox + [Wake])], targets[1..])
  }

  /** Each distinct target hears one wake, nobody else hears anything, and nothing else changes. */
  lemma {:induction false} WokenExact(chains: map<TaskId, Chain>, targets: seq<TaskId>)
    requires forall i, j :: 0 <= i < j < |targets| ==> targets[i] != targets[j]
    ensures Woken(chains, targets).Keys == chains.Keys
    ensures forall x :: x in chains ==>
      Woken(chains, targets)[x] == chains[x].(inbox := chains[x].inbox + if x in targets then [Wake] else [])
    decreases |targets|
  {
    if targets != [] {
      assert forall i :: 0 <= i < |targets[1..]| ==> targets[1..][i] == targets[i + 1];
      assert targets == [targets[0]] + targets[1..];
      if targets[0] in chains {
        var c := chains[targets[0]];
        WokenExact(chains[targets[0] := c.(inbox := c.inbox + [Wake])], targets[1..]);
      } else {
        WokenExact(chains, targets[1..]);
      }
    }
  }

  lemma SendOne(w: World, id: nat, targets: seq<TaskId>)
    requires id in w.acts && w.acts[id] == SendingTo(targets) && targets != [] && targets[0] in w.chains
    ensures CanResume(w, id)
    ensures var c := w.chains[targets[0]];
      DoResume(w, id) == w.(chains := w.chains[targets[0] := c.(inbox := c.inbox + [Wake])], acts := w.acts[id := SendingTo(targets[1..])])
  {
  }

  lemma ActEnds(w: World, id: nat)
    ensures EndAct(w, id) == w.(acts := w.acts - {id})
  {
  }

  lemma {:induction false} SendsAll(w: World, id: nat, targets: seq<TaskId>)
    requires id in w.acts && w.acts[id] == SendingTo(targets) && forall x :: x in targets ==> x in w.chains
    ensures Drives(w, id, |targets| + 1, w.(chains := Woken(w.chains, targets), acts := w.acts - {id}))
    decreases |targets|
  {
    hide Drives, DoResume, CanResume;
    if targets == [] {
      LastSend(w, id);
      DriveNone(w.(acts := w.acts - {id}), id);
      DriveOn(w, id, 0, w.(acts := w.acts - {id}));
    } else {
      SendOne(w, id, targets);
      var next := DoResume(w, id);
      SendsAll(next, id, targets[1..]);
      assert next.acts - {id} == w.acts - {id};
      DriveOn(w, id, |targets|, w.(chains := Woken(w.chains, targets), acts := w.acts - {id}));
    }
  }

  lemma LastSend(w: World, id: nat)
    requires id in w.acts && w.acts[id] == SendingTo([])
    ensures CanResume(w, id) && DoResume(w, id) == w.(acts := w.acts - {id})
  {
    ActEnds(w, id);
  }

  // ---------------------------------------------------------------- waking the dependents

  /** The task is blocked by the other one and has not been let in yet. */
  ghost predicate PendingBehind(w: World, t: TaskId, x: TaskId) {
    Edge(t, x, Blocks) in w.edges && x in w.tasks && w.tasks[x].state in {Accepted, Waiting}
  }

  lemma DependentsExact(w: World, t: TaskId)
    ensures var deps := Dependents(w.tasks, w.edges, t);
      && (forall x :: x in deps <==> PendingBehind(w, t, x))
      && (forall i, j :: 0 <= i < j < |deps| ==> deps[i] < deps[j])
  {
    forall x
      ensures x in Dependents(w.tasks, w.edges, t) <==> PendingBehind(w, t, x)
    {
      assert Edge(t, x, Blocks) in w.edges ==> Edge(t, x, Blocks).to == x;
    }
  }

  /** Every task still waiting behind `t` hears one more wake; nothing else changes. */
  ghost predicate WakesBehind(before: map<TaskId, Chain>, after: map<TaskId, Chain>, w: World, t: TaskId) {
    && after.Keys == before.Keys
    && forall x :: x in before ==>
      after[x] == before[x].(inbox := before[x].inbox + if PendingBehind(w, t, x) then [Wake] else [])
  }

  lemma ListsAndSends(w: World, id: nat, t: TaskId)
    requires Consistent(w) && id in w.acts && w.acts[id] == ListingFor(t) && t in w.tasks
    ensures var deps := Dependents(w.tasks, w.edges, t);
      && Drives(w, id, |deps| + 2, w.(chains := Woken(w.chains, deps), acts := w.acts - {id}))
      && WakesBehind(w.chains, Woken(w.chains, deps), w, t)
  {
    hide Drives, Dependents;
    var deps := Dependents(w.tasks, w.edges, t);
    var next := w.(acts := w.acts[id := SendingTo(deps)]);
    assert CanResume(w, id) && DoResume(w, id) == next;
    DependentsExact(w, t);
    WokenExact(w.chains, deps);
    SendsAll(next, id, deps);
    assert next.acts - {id} == w.acts - {id};
    DriveOn(w, id, |deps| + 1, w.(chains := Woken(w.chains, deps), acts := w.acts - {id}));
  }

  // ---------------------------------------------------------------- cancel

  /** The chain is under way: attached, and its task not yet completed. */
  predicate UnderWay(pc: Pc) {
    pc.Starting? || pc.Triage? || pc.Expansion? || pc.AtGate? || pc.Parked? || pc.Execution? || pc.Completing?
  }

  /** The chain of the cancelled task, if under way, is stopped and hears the sentinel. */
  function Told(c: Chain): Chain {
    if UnderWay(c.pc) then c.(stopped := true, inbox := c.inbox + [CancelSentinel]) else c
  }

  lemma CancelBegins(w: World, t: TaskId, id: nat)
    requires Sound(w) && CanMutate(w, BeginCancel(t, id))
    ensures var halted := w.(tasks := w.tasks[t := w.tasks[t].(state := Halted)]);
      var begun := DoMutate(w, BeginCancel(t, id));
      && CanResume(begun, id)
      && DoResume(begun, id) == halted.(acts := w.acts[id := if UnderWay(w.chains[t].pc) then Stopping(t) else ListingFor(t)])
  {
    assert TaskOk(w, t);
  }

  lemma CancelTells(v: World, t: TaskId, id: nat)
    requires t in v.tasks && t in v.chains && id in v.acts && v.acts[id] == Stopping(t) && UnderWay(v.chains[t].pc)
    ensures CanResume(v, id) && CanResume(DoResume(v, id), id)
    ensures DoResume(DoResume(v, id), id) == v.(chains := v.chains[t := Told(v.chains[t])], acts := v.acts[id := ListingFor(t)])
  {
  }

  /** The world once the cancel has committed and told the chain, with the dependents still to be listed. */
  function Halting(w: World, t: TaskId, id: nat): World
    requires t in w.tasks && t in w.chains
  {
    w.(tasks := w.tasks[t := w.tasks[t].(state := Halted)], chains := w.chains[t := Told(w.chains[t])], acts := w.acts[id := ListingFor(t)])
  }

  lemma CancelDrives(w: World, t: TaskId, id: nat, m: nat, after: World) returns (n: nat)
    requires Sound(w) && CanMutate(w, BeginCancel(t, id)) && Drives(Halting(w, t, id), id, m, after)
    ensures Drives(DoMutate(w, BeginCancel(t, id)), id, n, after)
  {
    hide Drives, DoResume, DoMutate, CanResume;
    var begun := DoMutate(w, BeginCancel(t, id));
    CancelBegins(w, t, id);
    var halted := DoResume(begun, id);
    if UnderWay(w.chains[t].pc) {
      CancelTells(halted, t, id);
      assert w.acts[id := Stopping(t)][id := ListingFor(t)] == w.acts[id := ListingFor(t)];
      DriveOn(DoResume(halted, id), id, m, after);
      DriveOn(halted, id, m + 1, after);
      DriveOn(begun, id, m + 2, after);
      n := m + 3;
    } else {
      assert w.chains[t := Told(w.chains[t])] == w.chains;
      DriveOn(begun, id, m, after);
      n := m + 1;
    }
  }

  /** A cancel, taken to its end: the task is halted, whatever it was; its chain, if under way, is stopped
      and hears the sentinel; every task still waiting behind it hears one wake; nothing else changes. */
  lemma CancelTakesEffect(w: World, t: TaskId, id: nat) returns (n: nat, after: World)
    requires Sound(w) && t in w.tasks && !IsTerminal(w.tasks[t].state) && id !in w.acts
    ensures CanMutate(w, BeginCancel(t, id)) && Drives(DoMutate(w, BeginCancel(t, id)), id, n, after)
    ensures after.tasks == w.tasks[t := w.tasks[t].(state := Halted)]
    ensures t in w.chains && WakesBehind(w.chains[t := Told(w.chains[t])], after.chains, after, t)
    ensures after.edges == w.edges && after.acts == w.acts && after.now == w.now
  {
    hide Drives, DoMutate, Dependents, WakesBehind, Consistent;
    CancelStaysConsistent(w, t, id);
    var listing := Halting(w, t, id);
    ListsAndSends(listing, id, t);
    var deps := Dependents(listing.tasks, listing.edges, t);
    after := listing.(chains := Woken(listing.chains, deps), acts := listing.acts - {id});
    assert listing.acts - {id} == w.acts;
    n := CancelDrives(w, t, id, |deps| + 2, after);
    WakesSame(w.chains[t := Told(w.chains[t])], after.chains, listing, after, t);
  }

  lemma WakesSame(before: map<TaskId, Chain>, after: map<TaskId, Chain>, w: World, v: World, t: TaskId)
    requires WakesBehind(before, after, w, t) && v.tasks == w.tasks && v.edges == w.edges
    ensures WakesBehind(before, after, v, t)
  {
    assert forall x :: PendingBehind(w, t, x) <==> PendingBehind(v, t, x);
  }

  lemma CancelStaysConsistent(w: World, t: TaskId, id: nat)
    requires Sound(w) && t in w.tasks && id !in w.acts && !IsTerminal(w.tasks[t].state)
    ensures CanMutate(w, BeginCancel(t, id)) && t in w.chains && Consistent(Halting(w, t, id))
  {
    assert TaskOk(w, t);
    var v := Halting(w, t, id);
    forall x | x in v.tasks
      ensures TaskOk(v, x)
    {
      assert TaskOk(w, x);
    }
    forall i | i in v.acts
      ensures ActOk(v, v.acts[i])
    {
      assert i != id ==> ActOk(w, w.acts[i]);
    }
  }

  // ---------------------------------------------------------------- dismiss, remove, create

  /** A dismissal, taken to its end: the task is dismissed and every task still waiting behind it hears one wake. */
  lemma DismissTakesEffect(w: World, t: TaskId, id: nat) returns (n: nat, after: World)
    requires Sound(w) && t in w.tasks && id !in w.acts
    requires w.tasks[t].state == Proposed || (w.tasks[t].state == Accepted && w.tasks[t].intake)
    ensures CanMutate(w, Mutation.Dismiss(t, id)) && Drives(DoMutate(w, Mutation.Dismiss(t, id)), id, n, after)
    ensures after.tasks == w.tasks[t := w.tasks[t].(state := TaskState.Dismissed)]
    ensures WakesBehind(w.chains, after.chains, after, t)
    ensures after.edges == w.edges && after.acts == w.acts && after.now == w.now
  {
    hide Drives, DoResume, CanResume, Dependents, WakesBehind;
    var begun := DoMutate(w, Mutation.Dismiss(t, id));
    assert begun == w.(tasks := w.tasks[t := w.tasks[t].(state := TaskState.Dismissed)], acts := w.acts[id := ListingFor(t)]);
    StepKeepsSound(w, Mutate(Mutation.Dismiss(t, id)));
    ListsAndSends(begun, id, t);
    var deps := Dependents(begun.tasks, begun.edges, t);
    n := |deps| + 2;
    after := begun.(chains := Woken(begun.chains, deps), acts := begun.acts - {id});
    assert begun.acts - {id} == w.acts;
    WakesSame(w.chains, after.chains, begun, after, t);
  }

  /** Removing a blocks edge wakes the task it blocked; removing another edge, or none, wakes nobody. */
  lemma RemoveTakesEffect(w: World, e: Edge, id: nat)
    requires Sound(w) && id !in w.acts
    ensures CanMutate(w, RemoveEdge(e, id))
    ensures var gone := w.(edges := w.edges - {e});
      if e in w.edges && e.kind == Blocks then
        && e.to in w.chains
        && Drives(DoMutate(w, RemoveEdge(e, id)), id, 1,
                  gone.(chains := w.chains[e.to := w.chains[e.to].(inbox := w.chains[e.to].inbox + [Wake])]))
      else DoMutate(w, RemoveEdge(e, id)) == gone
  {
    hide Drives;
    if e in w.edges && e.kind == Blocks {
      var begun := DoMutate(w, RemoveEdge(e, id));
      var after := w.(edges := w.edges - {e},
                      chains := w.chains[e.to := w.chains[e.to].(inbox := w.chains[e.to].inbox + [Wake])]);
      assert w.acts[id := Waking(e.to)] - {id} == w.acts;
      ActEnds(after.(acts := w.acts[id := Waking(e.to)]), id);
      assert CanResume(begun, id) && DoResume(begun, id) == after;
      DriveNone(after, id);
      DriveOn(begun, id, 0, after);
    }
  }

  // ---------------------------------------------------------------- waking by itself

  /** A parked chain nobody wakes looks again once its park is over: time passes, and it stands at the gate with
      nothing else changed. Before that it does not move. */
  lemma ParkEnds(w: World, t: TaskId, elapsed: nat)
    requires t in w.tasks && t in w.chains && w.chains[t].pc.Parked? && w.chains[t].inbox == []
    ensures Enabled(w, Tick(elapsed))
    ensures var later := Apply(w, Tick(elapsed));
      && later == w.(now := w.now + elapsed)
      && (Enabled(later, Advance(t)) <==> w.chains[t].pc.deadline <= w.now + elapsed)
      && (w.chains[t].pc.deadline <= w.now + elapsed ==>
            Apply(later, Advance(t)) == later.(chains := w.chains[t := w.chains[t].(pc := AtGate)]))
  {
  }

  // ---------------------------------------------------------------- from proposal to done

  function Fresh(w: World, t: TaskId, state: TaskState, pc: Pc): World {
    w.(tasks := w.tasks[t := Task(state, None, false)], chains := w.chains[t := Chain(pc, [], false)])
  }

  lemma Alone(w: World, t: TaskId, state: TaskState, pc: Pc)
    requires Sound(w) && t !in w.tasks
    ensures var v := Fresh(w, t, state, pc);
      IsReady(v.edges, StatesOf(v.tasks), t, None, v.now) && Dependents(v.tasks, v.edges, t) == []
  {
    var v := Fresh(w, t, state, pc);
    DependentsExact(v, t);
    assert forall x :: x in Dependents(v.tasks, v.edges, t) ==> Edge(t, x, Blocks) in w.edges;
    assert forall e :: e in w.edges ==> e.from != t && e.to != t;
    assert forall x :: Edge(t, x, Blocks) in w.edges ==> Edge(t, x, Blocks).from == t;
    NoMembers(Dependents(v.tasks, v.edges, t));
  }

  lemma NoMembers(s: seq<TaskId>)
    ensures (forall x :: x !in s) ==> s == []
  {
    if s != [] {
      assert s[0] in s;
    }
  }

  const WHOLE_CHAIN: nat := 8

  function Life(t: TaskId): seq<Step> {
    [Mutate(Create(t, Proposed, None, false)), Mutate(Accept(t)), Mutate(Attach(t))] + seq(WHOLE_CHAIN, _ => Advance(t))
  }

  lemma StartsFresh(w: World, t: TaskId)
    requires Sound(w) && t !in w.tasks
    ensures CanMutate(w, Create(t, Proposed, None, false))
    ensures DoMutate(w, Create(t, Proposed, None, false)) == Fresh(w, t, Proposed, Unattached)
    ensures CanMutate(Fresh(w, t, Proposed, Unattached), Accept(t))
    ensures DoMutate(Fresh(w, t, Proposed, Unattached), Accept(t)) == Fresh(w, t, Accepted, Unattached)
    ensures CanMutate(Fresh(w, t, Accepted, Unattached), Attach(t))
    ensures DoMutate(Fresh(w, t, Accepted, Unattached), Attach(t)) == Fresh(w, t, Accepted, Starting)
  {
    assert w.tasks[t := Task(Proposed, None, false)][t := Task(Accepted, None, false)] == w.tasks[t := Task(Accepted, None, false)];
    assert w.chains[t := Chain(Unattached, [], false)][t := Chain(Starting, [], false)] == w.chains[t := Chain(Starting, [], false)];
  }

  /** Where a task nobody blocks goes from here, and in which state. */
  function Onward(state: TaskState, pc: Pc): (TaskState, Pc) {
    match pc
    case Starting => (state, Pc.Triage)
    case Triage => (state, Pc.Expansion)
    case Expansion => (state, AtGate)
    case AtGate => (Executing, Pc.Execution)
    case Execution => (state, Completing)
    case Completing => (Done, Listing)
    case Listing => (state, Sending([]))
    case _ => (state, Exited)
  }

  predicate OnItsWay(state: TaskState, pc: Pc) {
    || (state == Accepted && (pc.Starting? || pc.Triage? || pc.Expansion? || pc.AtGate?))
    || (state == Executing && (pc.Execution? || pc.Completing?))
    || (state == Done && (pc.Listing? || pc == Sending([])))
  }

  lemma FreshTwice(w: World, t: TaskId, s: TaskState, p: Pc, state: TaskState, pc: Pc)
    ensures Fresh(Fresh(w, t, s, p), t, state, pc) == Fresh(w, t, state, pc)
  {
    assert w.chains[t := Chain(p, [], false)][t := Chain(pc, [], false)] == w.chains[t := Chain(pc, [], false)];
    assert w.tasks[t := Task(s, None, false)][t := Task(state, None, false)] == w.tasks[t := Task(state, None, false)];
  }

  /** One stage of a task that is ready and has nobody behind it. */
  lemma StageOn(v: World, t: TaskId, state: TaskState, pc: Pc)
    requires t in v.tasks && t in v.chains && v.tasks[t] == Task(state, None, false) && v.chains[t] == Chain(pc, [], false)
    requires OnItsWay(state, pc) && IsReady(v.edges, StatesOf(v.tasks), t, None, v.now) && Dependents(v.tasks, v.edges, t) == []
    ensures CanAdvance(v, t) && DoAdvance(v, t) == Fresh(v, t, Onward(state, pc).0, Onward(state, pc).1)
  {
    hide Dependents, IsReady;
    assert v.tasks[t := Task(state, None, false)] == v.tasks;
  }

  lemma OneStageOn(w: World, t: TaskId, state: TaskState, pc: Pc)
    requires Sound(w) && t !in w.tasks && OnItsWay(state, pc)
    ensures CanAdvance(Fresh(w, t, state, pc), t)
    ensures DoAdvance(Fresh(w, t, state, pc), t) == Fresh(w, t, Onward(state, pc).0, Onward(state, pc).1)
  {
    hide Dependents, IsReady, DoAdvance, CanAdvance, Onward, OnItsWay;
    Alone(w, t, state, pc);
    StageOn(Fresh(w, t, state, pc), t, state, pc);
    FreshTwice(w, t, state, pc, Onward(state, pc).0, Onward(state, pc).1);
  }

  lemma {:induction false} GoesThrough(w: World, t: TaskId, state: TaskState, pc: Pc, n: nat, s: TaskState, p: Pc)
    requires Sound(w) && t !in w.tasks
    requires n > 0 ==> OnItsWay(state, pc)
    requires Reached(state, pc, n) == Some((s, p))
    ensures LegalRun(Fresh(w, t, state, pc), seq(n, _ => Advance(t)))
    ensures Run(Fresh(w, t, state, pc), seq(n, _ => Advance(t))) == Fresh(w, t, s, p)
    decreases n
  {
    hide Fresh, DoAdvance, CanAdvance, Onward, OnItsWay;
    var steps := seq(n, _ => Advance(t));
    if n > 0 {
      OneStageOn(w, t, state, pc);
      assert steps[1..] == seq(n - 1, _ => Advance(t));
      GoesThrough(w, t, Onward(state, pc).0, Onward(state, pc).1, n - 1, s, p);
    }
  }

  /** Where n stages lead, None if the task is through before. */
  function Reached(state: TaskState, pc: Pc, n: nat): Option<(TaskState, Pc)>
    decreases n
  {
    if n == 0 then Some((state, pc))
    else if !OnItsWay(state, pc) then None
    else Reached(Onward(state, pc).0, Onward(state, pc).1, n - 1)
  }

  lemma EightStages()
    ensures Reached(Accepted, Starting, 8) == Some((Done, Exited))
  {
    assert Reached(Done, Sending([]), 1) == Some((Done, Exited));
    assert Reached(Done, Listing, 2) == Some((Done, Exited));
    assert Reached(Executing, Completing, 3) == Some((Done, Exited));
    assert Reached(Executing, Pc.Execution, 4) == Some((Done, Exited));
    assert Reached(Accepted, AtGate, 5) == Some((Done, Exited));
    assert Reached(Accepted, Pc.Expansion, 6) == Some((Done, Exited));
    assert Reached(Accepted, Pc.Triage, 7) == Some((Done, Exited));
  }

  /** In any reachable world a new proposal can be accepted, attached and taken through its whole chain: it
      ends done, its chain returned, and nothing else has changed. */
  lemma ProposalCanFinish(w: World, t: TaskId)
    requires Sound(w) && t !in w.tasks
    ensures LegalRun(w, Life(t)) && Run(w, Life(t)) == Fresh(w, t, Done, Exited)
  {
    hide Fresh, DoMutate, CanMutate, Reached;
    StartsFresh(w, t);
    EightStages();
    GoesThrough(w, t, Accepted, Starting, WHOLE_CHAIN, Done, Exited);
    var advances := seq(WHOLE_CHAIN, _ => Advance(t));
    RunCons(Fresh(w, t, Accepted, Unattached), Mutate(Attach(t)), advances);
    RunCons(Fresh(w, t, Proposed, Unattached), Mutate(Accept(t)), [Mutate(Attach(t))] + advances);
    RunCons(w, Mutate(Create(t, Proposed, None, false)), [Mutate(Accept(t))] + ([Mutate(Attach(t))] + advances));
    assert Life(t) == [Mutate(Create(t, Proposed, None, false))] + ([Mutate(Accept(t))] + ([Mutate(Attach(t))] + advances));
  }

  lemma RunCons(w: World, step: Step, rest: seq<Step>)
    requires Enabled(w, step) && LegalRun(Apply(w, step), rest)
    ensures LegalRun(w, [step] + rest) && Run(w, [step] + rest) == Run(Apply(w, step), rest)
  {
    hide Apply, Enabled;
    assert ([step] + rest)[1..] == rest;
  }
}
