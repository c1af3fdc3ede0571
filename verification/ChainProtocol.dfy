/** The chain workflows of all tasks and the resolvers around them, as one interleaved machine. Every
    database transaction, every durable send and every durable receive is one step. */
module ChainProtocol {
  import opened Lifecycle
  import opened Relations
  import opened Readiness

  datatype Task = Task(state: TaskState, startsAt: Option<int>, intake: bool)

  /** What arrives on a task's blocked topic. */
  datatype Message = Wake | CancelSentinel

  /** Where a chain workflow stands. `Parked` remembers the blockers its last evaluation found unmet. */
  datatype Pc =
    | Unattached
    | Starting
    | Triage
    | Expansion
    | AtGate
    | Parked(on: set<TaskId>, since: int, deadline: int)
    | Execution
    | Completing
    | Listing
    | Sending(targets: seq<TaskId>)
    | Exited

  /** `stopped` is set once the workflow has been cancelled in the workflow engine; it may then stop
      before any of its next steps. */
  datatype Chain = Chain(pc: Pc, inbox: seq<Message>, stopped: bool)

  /** A resolver that has more to do: the cancel, dismiss and remove-relation mutations. */
  datatype Activity =
    | Cancelling(task: TaskId, live: bool)
    | Stopping(task: TaskId)
    | SendingSentinel(task: TaskId)
    | ListingFor(task: TaskId)
    | SendingTo(targets: seq<TaskId>)
    | Waking(task: TaskId)

  datatype World = World(
    tasks: map<TaskId, Task>,
    edges: set<Edge>,
    chains: map<TaskId, Chain>,
    acts: map<nat, Activity>,
    now: int)
  {
    predicate Terminal(t: TaskId)
      requires t in tasks
    {
      IsTerminal(tasks[t].state)
    }
  }

  /** One mutation of the owner's, up to its first commit. */
  datatype Mutation =
    | Create(t: TaskId, state: TaskState, startsAt: Option<int>, intake: bool)
    | Attach(t: TaskId)
    | Accept(t: TaskId)
    | Dismiss(t: TaskId, id: nat)
    | BeginCancel(t: TaskId, id: nat)
    | AddEdge(e: Edge)
    | RemoveEdge(e: Edge, id: nat)
    | Reschedule(t: TaskId, startsAt: Option<int>)

  /** `Resume` takes a resolver through its next transaction or send, `Advance` a chain workflow
      through its next step, receive or send. */
  datatype Step =
    | Mutate(m: Mutation)
    | Resume(id: nat)
    | Advance(t: TaskId)
    | Abort(t: TaskId)
    | Tick(elapsed: nat)
    | Crash

  // ---------------------------------------------------------------- transactions

  /** A transition writes the new state after a look at the table of legal edges. */
  function Transition(tasks: map<TaskId, Task>, t: TaskId, to: TaskState): map<TaskId, Task>
    requires t in tasks
  {
    if IsLegal(tasks[t].state, to) then tasks[t := tasks[t].(state := to)] else tasks
  }

  function TransitionIntake(tasks: map<TaskId, Task>, t: TaskId, to: TaskState): map<TaskId, Task>
    requires t in tasks
  {
    if IsLegalIntake(tasks[t].state, to) then tasks[t := tasks[t].(state := to)] else tasks
  }

  datatype Outcome = Ready | Ended | NotReady(on: set<TaskId>, park: int)

  function StatesOf(tasks: map<TaskId, Task>): map<TaskId, TaskState> {
    map t | t in tasks :: tasks[t].state
  }

  /** One readiness evaluation and the transition it commits. */
  function ReadinessStep(tasks: map<TaskId, Task>, edges: set<Edge>, t: TaskId, now: int): (map<TaskId, Task>, Outcome)
    requires t in tasks
  {
    var task := tasks[t];
    if IsTerminal(task.state) then (tasks, Ended)
    else if IsReady(edges, StatesOf(tasks), t, task.startsAt, now) then
      (if task.state in {Accepted, Waiting} then Transition(tasks, t, Executing) else tasks, Ready)
    else
      (if task.state == Accepted then Transition(tasks, t, Waiting) else tasks,
       NotReady(Unmet(edges, StatesOf(tasks), t), Park(task.startsAt, now)))
  }

  function CompletionStep(tasks: map<TaskId, Task>, t: TaskId): map<TaskId, Task>
    requires t in tasks
  {
    if tasks[t].state == Executing then Transition(tasks, t, Done) else tasks
  }

  function CancelCleanup(tasks: map<TaskId, Task>, t: TaskId): map<TaskId, Task>
    requires t in tasks
  {
    if IsTerminal(tasks[t].state) then tasks else Transition(tasks, t, Halted)
  }

  predicate Dismissible(task: Task) {
    task.state == Proposed || (task.state == Accepted && task.intake)
  }

  function DismissStep(tasks: map<TaskId, Task>, t: TaskId): map<TaskId, Task>
    requires t in tasks && Dismissible(tasks[t])
  {
    if tasks[t].state == Proposed then Transition(tasks, t, Dismissed) else TransitionIntake(tasks, t, Dismissed)
  }

  /** The still-pending tasks `t` blocks, in id order. */
  function Dependents(tasks: map<TaskId, Task>, edges: set<Edge>, t: TaskId): seq<TaskId> {
    Ascending(set e | e in edges && e.kind == Blocks && e.from == t && e.to in tasks && tasks[e.to].state in {Accepted, Waiting} :: e.to)
  }

  predicate IsLeast(ids: set<TaskId>, m: TaskId) {
    m in ids && forall x :: x in ids ==> m <= x
  }

  function Ascending(ids: set<TaskId>): (r: seq<TaskId>)
    ensures forall x :: x in r <==> x in ids
    ensures forall i, j :: 0 <= i < j < |r| ==> r[i] < r[j]
  {
    if ids == {} then []
    else
      LeastExists(ids);
      var m :| IsLeast(ids, m);
      var rest := Ascending(ids - {m});
      assert forall i :: 0 <= i < |rest| ==> rest[i] in rest;
      [m] + rest
  }

  lemma {:induction false} LeastExists(ids: set<TaskId>)
    requires ids != {}
    ensures exists m :: IsLeast(ids, m)
    decreases ids
  {
    var x :| x in ids;
    var rest := ids - {x};
    assert forall y :: y in ids ==> y == x || y in rest;
    if rest == {} {
      assert IsLeast(ids, x);
    } else {
      LeastExists(rest);
      var m :| IsLeast(rest, m);
      LeastOfBoth(ids, x, m);
    }
  }

  lemma LeastOfBoth(ids: set<TaskId>, x: TaskId, m: TaskId)
    requires x in ids && IsLeast(ids - {x}, m)
    ensures IsLeast(ids, if m < x then m else x)
  {
    forall y | y in ids
      ensures y == x || m <= y
    {
      assert y != x ==> y in ids - {x};
    }
  }

  // ---------------------------------------------------------------- steps

  predicate CanMutate(w: World, m: Mutation) {
    match m
    case Create(t, state, _, _) => t !in w.tasks && t !in w.chains && state in {Accepted, Proposed}
    case Attach(t) => t in w.tasks && t in w.chains && w.chains[t].pc == Unattached && w.tasks[t].state != Proposed
    case Accept(t) => t in w.tasks && w.tasks[t].state == Proposed
    case Dismiss(t, id) => t in w.tasks && Dismissible(w.tasks[t]) && id !in w.acts
    case BeginCancel(t, id) => t in w.tasks && t in w.chains && !IsTerminal(w.tasks[t].state) && id !in w.acts
    case AddEdge(_) => true
    case RemoveEdge(_, id) => id !in w.acts
    case Reschedule(t, _) => t in w.tasks
  }

  function DoMutate(w: World, m: Mutation): World
    requires CanMutate(w, m)
  {
    match m
    case Create(t, state, startsAt, intake) =>
      w.(tasks := w.tasks[t := Task(state, startsAt, intake)], chains := w.chains[t := Chain(Unattached, [], false)])
    case Attach(t) => SetPc(w, t, Starting)
    case Accept(t) => w.(tasks := Transition(w.tasks, t, Accepted))
    case Dismiss(t, id) => SetAct(w.(tasks := DismissStep(w.tasks, t)), id, ListingFor(t))
    case BeginCancel(t, id) => SetAct(w, id, Cancelling(t, Live(w.chains[t].pc)))
    case AddEdge(e) => w.(edges := Add(w.tasks.Keys, w.edges, e).0)
    case RemoveEdge(e, id) =>
      var (edges, removed) := Remove(w.edges, e);
      if removed && e.kind == Blocks then SetAct(w.(edges := edges), id, Waking(e.to)) else w.(edges := edges)
    case Reschedule(t, startsAt) => w.(tasks := w.tasks[t := w.tasks[t].(startsAt := startsAt)])
  }

  predicate CanResume(w: World, id: nat) {
    && id in w.acts
    && match w.acts[id]
       case SendingTo(targets) => targets != [] ==> targets[0] in w.chains
       case a => a.task in w.tasks && a.task in w.chains
  }

  function DoResume(w: World, id: nat): World
    requires CanResume(w, id)
  {
    match w.acts[id]
    case Cancelling(t, live) =>
      SetAct(w.(tasks := CancelCleanup(w.tasks, t)), id, if live then Stopping(t) else ListingFor(t))
    case Stopping(t) => SetAct(w.(chains := w.chains[t := w.chains[t].(stopped := true)]), id, SendingSentinel(t))
    case SendingSentinel(t) => SetAct(Post(w, t, CancelSentinel), id, ListingFor(t))
    case ListingFor(t) => SetAct(w, id, SendingTo(Dependents(w.tasks, w.edges, t)))
    case SendingTo(targets) =>
      if targets == [] then EndAct(w, id) else SetAct(Post(w, targets[0], Wake), id, SendingTo(targets[1..]))
    case Waking(t) => EndAct(Post(w, t, Wake), id)
  }

  predicate CanAdvance(w: World, t: TaskId) {
    && t in w.tasks && t in w.chains
    && match w.chains[t].pc
       case Unattached => false
       case Exited => false
       case Parked(_, _, deadline) => w.chains[t].inbox != [] || deadline <= w.now
       case Sending(targets) => targets != [] ==> targets[0] in w.chains
       case _ => true
  }

  function DoAdvance(w: World, t: TaskId): World
    requires CanAdvance(w, t)
  {
    var c := w.chains[t];
    match c.pc
    case Starting => SetPc(w, t, if IsTerminal(w.tasks[t].state) then Exited else Triage)
    case Triage => SetPc(w, t, Expansion)
    case Expansion => SetPc(w, t, AtGate)
    case AtGate =>
      var (tasks, outcome) := ReadinessStep(w.tasks, w.edges, t, w.now);
      SetPc(w.(tasks := tasks), t,
        match outcome
        case Ready => Execution
        case Ended => Exited
        case NotReady(on, park) => Parked(on, w.now, w.now + park))
    case Parked(_, _, _) =>
      if c.inbox == [] then SetPc(w, t, AtGate)
      else
        var pc := if c.inbox[0] == CancelSentinel then Exited else AtGate;
        w.(chains := w.chains[t := c.(pc := pc, inbox := c.inbox[1..])])
    case Execution => SetPc(w, t, Completing)
    case Completing => SetPc(w.(tasks := CompletionStep(w.tasks, t)), t, Listing)
    case Listing => SetPc(w, t, Sending(Dependents(w.tasks, w.edges, t)))
    case Sending(targets) =>
      if targets == [] then SetPc(w, t, Exited) else SetPc(Post(w, targets[0], Wake), t, Sending(targets[1..]))
  }

  function SetPc(w: World, t: TaskId, pc: Pc): World
    requires t in w.chains
  {
    w.(chains := w.chains[t := w.chains[t].(pc := pc)])
  }

  function Post(w: World, t: TaskId, m: Message): World
    requires t in w.chains
  {
    w.(chains := w.chains[t := w.chains[t].(inbox := w.chains[t].inbox + [m])])
  }

  function SetAct(w: World, id: nat, a: Activity): World {
    w.(acts := w.acts[id := a])
  }

  function EndAct(w: World, id: nat): World {
    w.(acts := map i | i in w.acts && i != id :: w.acts[i])
  }

  /** Whether the task has a chain row that has not ended. */
  predicate Live(pc: Pc) {
    !pc.Unattached? && !pc.Listing? && !pc.Sending? && !pc.Exited?
  }

  /** The process dies and comes back: resolvers are gone, and each workflow replays its log to where
      it stood, unless it was stopped or finds its task terminal, which makes it return at once. */
  function Recover(w: World): World {
    w.(acts := map[],
       chains := map t | t in w.chains ::
         var c := w.chains[t];
         if !c.pc.Unattached? && (c.stopped || (t in w.tasks && IsTerminal(w.tasks[t].state)))
         then c.(pc := Exited) else c)
  }

  predicate Enabled(w: World, step: Step) {
    match step
    case Mutate(m) => CanMutate(w, m)
    case Resume(id) => CanResume(w, id)
    case Advance(t) => CanAdvance(w, t)
    case Abort(t) => t in w.chains && w.chains[t].stopped && w.chains[t].pc != Unattached
    case Tick(_) => true
    case Crash => true
  }

  function Apply(w: World, step: Step): World
    requires Enabled(w, step)
  {
    match step
    case Mutate(m) => DoMutate(w, m)
    case Resume(id) => DoResume(w, id)
    case Advance(t) => DoAdvance(w, t)
    case Abort(t) => SetPc(w, t, Exited)
    case Tick(elapsed) => w.(now := w.now + elapsed)
    case Crash => Recover(w)
  }

  predicate LegalRun(w: World, steps: seq<Step>)
    decreases |steps|
  {
    steps == [] || (Enabled(w, steps[0]) && LegalRun(Apply(w, steps[0]), steps[1..]))
  }

  function Run(w: World, steps: seq<Step>): World
    requires LegalRun(w, steps)
    decreases |steps|
  {
    if steps == [] then w else Run(Apply(w, steps[0]), steps[1..])
  }

  const Init := World(map[], {}, map[], map[], 0)
}
