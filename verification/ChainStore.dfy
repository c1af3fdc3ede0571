/** The steps of the chain machine as the code performs them on the shared tables. */
module ChainStore {
  import opened Lifecycle
  import opened Relations
  import opened Readiness
  import opened ChainProtocol

  /** Each target receives one wake, in order. */
  function PostAll(inboxes: map<TaskId, seq<Message>>, targets: seq<TaskId>): map<TaskId, seq<Message>>
    requires forall t :: t in targets ==> t in inboxes
    decreases |targets|
  {
    if targets == [] then inboxes
    else PostAll(inboxes[targets[0] := inboxes[targets[0]] + [Wake]], targets[1..])
  }

  lemma {:induction false} PostAllSnoc(inboxes: map<TaskId, seq<Message>>, targets: seq<TaskId>, t: TaskId)
    requires t in inboxes && forall x :: x in targets ==> x in inboxes
    ensures PostAll(inboxes, targets).Keys == inboxes.Keys
    ensures PostAll(inboxes, targets + [t]) == PostAll(inboxes, targets)[t := PostAll(inboxes, targets)[t] + [Wake]]
    decreases |targets|
  {
    if targets != [] {
      assert (targets + [t])[1..] == targets[1..] + [t];
      PostAllSnoc(inboxes[targets[0] := inboxes[targets[0]] + [Wake]], targets[1..], t);
    } else {
      assert (targets + [t])[1..] == [];
    }
  }

  /** With distinct targets, as a dependents list has them, exactly the targets hear one more wake. */
  lemma {:induction false} PostAllExact(inboxes: map<TaskId, seq<Message>>, targets: seq<TaskId>, t: TaskId)
    requires forall x :: x in targets ==> x in inboxes
    requires forall i, j :: 0 <= i < j < |targets| ==> targets[i] != targets[j]
    requires t in inboxes
    ensures t in PostAll(inboxes, targets)
    ensures PostAll(inboxes, targets)[t] == inboxes[t] + if t in targets then [Wake] else []
    decreases |targets|
  {
    if targets != [] {
      assert forall i :: 0 <= i < |targets[1..]| ==> targets[1..][i] == targets[i + 1];
      PostAllExact(inboxes[targets[0] := inboxes[targets[0]] + [Wake]], targets[1..], t);
      assert t in targets <==> t == targets[0] || t in targets[1..];
    }
  }

  class Store {
    var tasks: map<TaskId, Task>
    var edges: set<Edge>
    var inboxes: map<TaskId, seq<Message>>

    constructor (tasks: map<TaskId, Task>, edges: set<Edge>)
      ensures this.tasks == tasks && this.edges == edges
      ensures inboxes == map t | t in tasks :: []
    {
      this.tasks := tasks;
      this.edges := edges;
      this.inboxes := map t | t in tasks :: [];
    }

    /** The number of rows joining `t` to a blocker that has not ended. */
    method CountUnmetBlockers(t: TaskId) returns (count: nat)
      ensures count == 0 <==> Unmet(edges, StatesOf(tasks), t) == {}
    {
      var rows := set e | e in edges && e.kind == Blocks && e.to == t && e.from in tasks && !IsTerminal(tasks[e.from].state);
      count := |rows|;
      assert forall b :: b in Unmet(edges, StatesOf(tasks), t) ==> Edge(b, t, Blocks) in rows;
      if rows != {} {
        ghost var e :| e in rows;
        assert e.from in Unmet(edges, StatesOf(tasks), t);
      }
    }

    method EvaluateReadiness(t: TaskId, now: int) returns (ready: bool)
      requires t in tasks
      ensures ready == IsReady(edges, StatesOf(tasks), t, tasks[t].startsAt, now)
      ensures ready <==>
        && (forall b :: Edge(b, t, Blocks) in edges && b in tasks ==> IsTerminal(tasks[b].state))
        && (tasks[t].startsAt.Some? ==> tasks[t].startsAt.value <= now)
    {
      UnmetExact(edges, StatesOf(tasks), t);
      var unmet := CountUnmetBlockers(t);
      if unmet > 0 {
        return false;
      }
      var startsAt := tasks[t].startsAt;
      if startsAt.Some? && startsAt.value > now {
        return false;
      }
      return true;
    }

    /** A state change through the table of legal edges; an illegal one changes nothing. */
    method ChangeState(t: TaskId, from: TaskState, to: TaskState) returns (ok: bool)
      requires t in tasks && tasks[t].state == from
      modifies this`tasks
      ensures ok == IsLegal(from, to)
      ensures tasks == Transition(old(tasks), t, to)
    {
      ok := IsLegal(from, to);
      if ok {
        tasks := tasks[t := tasks[t].(state := to)];
      }
    }

    method RunReadinessStep(t: TaskId, now: int) returns (outcome: Outcome)
      requires t in tasks
      modifies this`tasks
      ensures (tasks, outcome) == ReadinessStep(old(tasks), edges, t, now)
      ensures outcome == Ended <==> IsTerminal(old(tasks)[t].state)
      ensures outcome == Ready <==>
        !IsTerminal(old(tasks)[t].state) && IsReady(edges, StatesOf(old(tasks)), t, old(tasks)[t].startsAt, now)
      ensures tasks == old(tasks)[t := old(tasks)[t].(state :=
        match (outcome, old(tasks)[t].state)
        case (Ready, Accepted) => Executing
        case (Ready, Waiting) => Executing
        case (NotReady(_, _), Accepted) => Waiting
        case (_, state) => state)]
    {
      var task := tasks[t];
      if IsTerminal(task.state) {
        return Ended;
      }
      var ready := EvaluateReadiness(t, now);
      if ready {
        if task.state == Accepted || task.state == Waiting {
          var _ := ChangeState(t, task.state, Executing);
        }
        return Ready;
      }
      var on := Unmet(edges, StatesOf(tasks), t);
      if task.state == Accepted {
        var _ := ChangeState(t, Accepted, Waiting);
      }
      return NotReady(on, Park(task.startsAt, now));
    }

    method RunCompletionStep(t: TaskId)
      requires t in tasks
      modifies this`tasks
      ensures tasks == CompletionStep(old(tasks), t)
      ensures tasks == old(tasks)[t := old(tasks)[t].(state := if old(tasks)[t].state == Executing then Done else old(tasks)[t].state)]
    {
      if tasks[t].state == Executing {
        var _ := ChangeState(t, Executing, Done);
      }
    }

    method HandleCancelCleanup(t: TaskId)
      requires t in tasks
      modifies this`tasks
      ensures tasks == CancelCleanup(old(tasks), t)
      ensures tasks == old(tasks)[t := old(tasks)[t].(state := if IsTerminal(old(tasks)[t].state) then old(tasks)[t].state else Halted)]
    {
      var state := tasks[t].state;
      if !IsTerminal(state) {
        var _ := ChangeState(t, state, Halted);
      }
    }

    method DismissProposedTask(t: TaskId) returns (ok: bool)
      requires t in tasks
      modifies this`tasks
      ensures ok == Dismissible(old(tasks)[t])
      ensures ok <==> old(tasks)[t].state == Proposed || (old(tasks)[t].state == Accepted && old(tasks)[t].intake)
      ensures tasks == if ok then DismissStep(old(tasks), t) else old(tasks)
      ensures ok ==> tasks == old(tasks)[t := old(tasks)[t].(state := TaskState.Dismissed)]
    {
      var task := tasks[t];
      if task.state == Proposed {
        var _ := ChangeState(t, Proposed, TaskState.Dismissed);
        return true;
      }
      if task.state == Accepted && task.intake {
        tasks := tasks[t := task.(state := TaskState.Dismissed)];
        return true;
      }
      return false;
    }

    /** A wake to every still-pending task `t` blocks; each of them hears exactly one. */
    method WakeDependents(t: TaskId)
      requires forall x :: x in tasks ==> x in inboxes
      modifies this`inboxes
      ensures inboxes == PostAll(old(inboxes), Dependents(tasks, edges, t))
      ensures inboxes.Keys == old(inboxes).Keys
      ensures forall x :: x in inboxes ==>
        inboxes[x] == old(inboxes)[x] + (if x in tasks && Edge(t, x, Blocks) in edges && tasks[x].state in {Accepted, Waiting} then [Wake] else [])
    {
      var deps := Dependents(tasks, edges, t);
      assert forall x :: x in deps <==> Edge(t, x, Blocks) in edges && x in tasks && tasks[x].state in {Accepted, Waiting} by {
        forall x
          ensures x in deps <==> Edge(t, x, Blocks) in edges && x in tasks && tasks[x].state in {Accepted, Waiting}
        {
          assert Edge(t, x, Blocks) in edges ==> Edge(t, x, Blocks).to == x;
        }
      }
      ghost var before := inboxes;
      for i := 0 to |deps|
        invariant inboxes == PostAll(before, deps[..i]) && inboxes.Keys == before.Keys
      {
        PostAllSnoc(before, deps[..i], deps[i]);
        assert deps[..i] + [deps[i]] == deps[..i + 1];
        inboxes := inboxes[deps[i] := inboxes[deps[i]] + [Wake]];
      }
      assert deps[..|deps|] == deps;
      forall x | x in before {
        PostAllExact(before, deps, x);
      }
    }
  }
}
