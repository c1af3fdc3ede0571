/** The task relation graph: the recursive reach query, the cycle guard built on it, and the
    edge table it protects. */
module Relations {
  import opened Lifecycle

  type TaskId = nat

  datatype Kind = Blocks | SubtaskOf | Related | DuplicateOf

  datatype Edge = Edge(from: TaskId, to: TaskId, kind: Kind)

  /** The two kinds whose graphs must stay free of cycles. */
  predicate IsGuarded(k: Kind) {
    k == Blocks || k == SubtaskOf
  }

  // ---------------------------------------------------------------- reachability

  /** `p` follows edges of kind `k`, at least one of them. */
  ghost predicate Walk(edges: set<Edge>, k: Kind, p: seq<TaskId>) {
    && |p| >= 2
    && forall i :: 0 <= i < |p| - 1 ==> Edge(p[i], p[i + 1], k) in edges
  }

  /** `b` is reachable from `a` by one or more edges of kind `k`. */
  ghost predicate Reaches(edges: set<Edge>, k: Kind, a: TaskId, b: TaskId) {
    exists p :: Walk(edges, k, p) && p[0] == a && p[|p| - 1] == b
  }

  ghost predicate Acyclic(edges: set<Edge>, k: Kind) {
    forall a :: !Reaches(edges, k, a, a)
  }

  lemma ReachesByEdge(edges: set<Edge>, k: Kind, a: TaskId, b: TaskId)
    requires Edge(a, b, k) in edges
    ensures Reaches(edges, k, a, b)
  {
    var p := [a, b];
    assert Walk(edges, k, p) && p[0] == a && p[|p| - 1] == b;
  }

  lemma ReachesTransitive(edges: set<Edge>, k: Kind, a: TaskId, b: TaskId, c: TaskId)
    requires Reaches(edges, k, a, b) && Reaches(edges, k, b, c)
    ensures Reaches(edges, k, a, c)
  {
    var p :| Walk(edges, k, p) && p[0] == a && p[|p| - 1] == b;
    var q :| Walk(edges, k, q) && q[0] == b && q[|q| - 1] == c;
    var r := p + q[1..];
    forall i | 0 <= i < |r| - 1
      ensures Edge(r[i], r[i + 1], k) in edges
    {
      if i >= |p| - 1 {
        assert r[i] == q[i - |p| + 1] && r[i + 1] == q[i - |p| + 2];
      }
    }
    assert Walk(edges, k, r) && r[0] == a && r[|r| - 1] == c;
  }

  /** Dropping the last edge of a walk leaves its start, or a shorter walk from it. */
  lemma ReachesLastEdge(edges: set<Edge>, k: Kind, p: seq<TaskId>)
    requires Walk(edges, k, p)
    ensures Edge(p[|p| - 2], p[|p| - 1], k) in edges
    ensures |p| == 2 || (Walk(edges, k, p[..|p| - 1]) && Reaches(edges, k, p[0], p[|p| - 2]))
  {
    if |p| > 2 {
      var q := p[..|p| - 1];
      assert Walk(edges, k, q) && q[0] == p[0] && q[|q| - 1] == p[|p| - 2];
    }
  }

  // ---------------------------------------------------------------- the recursive query

  function Heads(edges: set<Edge>): set<TaskId> {
    set e | e in edges :: e.to
  }

  function Targets(edges: set<Edge>, k: Kind, nodes: set<TaskId>): set<TaskId> {
    set e | e in edges && e.kind == k && e.from in nodes :: e.to
  }

  /** One evaluation of the recursive part: join the working table with the edges, keep what the
      UNION has not seen, stop when nothing is left. It ends because every round that goes on
      adds at least one head of an edge. */
  function Close(edges: set<Edge>, k: Kind, seen: set<TaskId>, working: set<TaskId>): set<TaskId>
    requires seen <= Heads(edges)
    decreases Heads(edges) - seen
  {
    var next := Targets(edges, k, working) - seen;
    if next == {} then seen
    else
      assert next <= Heads(edges);
      assert Heads(edges) - (seen + next) < Heads(edges) - seen by {
        var x :| x in next;
        assert x in Heads(edges) - seen && x !in Heads(edges) - (seen + next);
      }
      Close(edges, k, seen + next, next)
  }

  function ReachSet(edges: set<Edge>, k: Kind, start: TaskId): set<TaskId> {
    var first := Targets(edges, k, {start});
    Close(edges, k, first, first)
  }

  predicate RelationWouldCycle(edges: set<Edge>, start: TaskId, target: TaskId, k: Kind) {
    target in ReachSet(edges, k, start)
  }

  lemma {:induction false} CloseSound(edges: set<Edge>, k: Kind, seen: set<TaskId>, working: set<TaskId>, start: TaskId)
    requires working <= seen <= Heads(edges)
    requires forall n :: n in seen ==> Reaches(edges, k, start, n)
    ensures forall n :: n in Close(edges, k, seen, working) ==> Reaches(edges, k, start, n)
    decreases Heads(edges) - seen
  {
    var next := Targets(edges, k, working) - seen;
    if next != {} {
      forall n | n in next
        ensures Reaches(edges, k, start, n)
      {
        var e :| e in edges && e.kind == k && e.from in working && e.to == n;
        assert Edge(e.from, e.to, k) in edges;
        ReachesByEdge(edges, k, e.from, n);
        ReachesTransitive(edges, k, start, e.from, n);
      }
      var x :| x in next;
      assert x in Heads(edges) - seen && x !in Heads(edges) - (seen + next);
      CloseSound(edges, k, seen + next, next, start);
    }
  }

  lemma {:induction false} CloseComplete(edges: set<Edge>, k: Kind, seen: set<TaskId>, working: set<TaskId>)
    requires working <= seen <= Heads(edges)
    requires Targets(edges, k, seen - working) <= seen
    ensures seen <= Close(edges, k, seen, working)
    ensures Targets(edges, k, Close(edges, k, seen, working)) <= Close(edges, k, seen, working)
    decreases Heads(edges) - seen
  {
    var next := Targets(edges, k, working) - seen;
    if next == {} {
      forall n | n in Targets(edges, k, seen)
        ensures n in seen
      {
        var e :| e in edges && e.kind == k && e.from in seen && e.to == n;
        assert e.from in working ==> n in Targets(edges, k, working);
        assert e.from !in working ==> n in Targets(edges, k, seen - working);
      }
    } else {
      forall n | n in Targets(edges, k, (seen + next) - next)
        ensures n in seen + next
      {
        var e :| e in edges && e.kind == k && e.from in seen && e.to == n;
        assert e.from in working ==> n in Targets(edges, k, working);
        assert e.from !in working ==> n in Targets(edges, k, seen - working);
      }
      var x :| x in next;
      assert x in Heads(edges) - seen && x !in Heads(edges) - (seen + next);
      CloseComplete(edges, k, seen + next, next);
    }
  }

  lemma {:induction false} WalkStaysIn(edges: set<Edge>, k: Kind, closed: set<TaskId>, p: seq<TaskId>)
    requires Walk(edges, k, p) && p[1] in closed
    requires Targets(edges, k, closed) <= closed
    ensures p[|p| - 1] in closed
    decreases |p|
  {
    if |p| > 2 {
      ReachesLastEdge(edges, k, p);
      WalkStaysIn(edges, k, closed, p[..|p| - 1]);
      assert Edge(p[|p| - 2], p[|p| - 1], k) in edges;
      assert p[|p| - 1] in Targets(edges, k, closed);
    }
  }

  /** The recursive query computes exactly the nodes one or more same-kind edges away, on any
      graph, cyclic ones included. */
  lemma ReachSetExact(edges: set<Edge>, k: Kind, start: TaskId, n: TaskId)
    ensures n in ReachSet(edges, k, start) <==> Reaches(edges, k, start, n)
  {
    var first := Targets(edges, k, {start});
    forall m | m in first
      ensures Reaches(edges, k, start, m)
    {
      var e :| e in edges && e.kind == k && e.from == start && e.to == m;
      assert Edge(start, m, k) in edges;
      ReachesByEdge(edges, k, start, m);
    }
    CloseSound(edges, k, first, first, start);
    CloseComplete(edges, k, first, first);
    if Reaches(edges, k, start, n) {
      var p :| Walk(edges, k, p) && p[0] == start && p[|p| - 1] == n;
      assert Edge(p[0], p[1], k) in edges;
      assert p[1] in first;
      WalkStaysIn(edges, k, ReachSet(edges, k, start), p);
    }
  }

  // ---------------------------------------------------------------- the cycle guard

  /** A walk through a graph with one more edge f -> t either avoids it or splits around it. */
  lemma {:induction false} WalkWithNewEdge(edges: set<Edge>, k: Kind, f: TaskId, t: TaskId, p: seq<TaskId>)
    requires Walk(edges + {Edge(f, t, k)}, k, p)
    ensures
      || Reaches(edges, k, p[0], p[|p| - 1])
      || ((p[0] == f || Reaches(edges, k, p[0], f))
          && (p[|p| - 1] == t || Reaches(edges, k, t, p[|p| - 1])))
    decreases |p|
  {
    var a, m, b := p[0], p[|p| - 2], p[|p| - 1];
    var e := Edge(m, b, k);
    ReachesLastEdge(edges + {Edge(f, t, k)}, k, p);
    if |p| > 2 {
      WalkWithNewEdge(edges, k, f, t, p[..|p| - 1]);
    }
    if e in edges {
      ReachesByEdge(edges, k, m, b);
      if |p| > 2 {
        if Reaches(edges, k, a, m) {
          ReachesTransitive(edges, k, a, m, b);
        } else if m != t {
          ReachesTransitive(edges, k, t, m, b);
        }
      }
    }
  }

  lemma ReachesMonotone(small: set<Edge>, big: set<Edge>, k: Kind, a: TaskId, b: TaskId)
    requires small <= big && Reaches(small, k, a, b)
    ensures Reaches(big, k, a, b)
  {
    var p :| Walk(small, k, p) && p[0] == a && p[|p| - 1] == b;
    assert Walk(big, k, p);
  }

  /** Adding f -> t keeps an acyclic graph acyclic exactly when the two tasks differ and the reach
      query started at t does not find f. */
  lemma GuardIsExact(edges: set<Edge>, k: Kind, f: TaskId, t: TaskId)
    requires Acyclic(edges, k)
    ensures Acyclic(edges + {Edge(f, t, k)}, k) <==> f != t && !RelationWouldCycle(edges, t, f, k)
  {
    var big := edges + {Edge(f, t, k)};
    ReachSetExact(edges, k, t, f);
    if !Acyclic(big, k) {
      var a :| Reaches(big, k, a, a);
      var p :| Walk(big, k, p) && p[0] == a && p[|p| - 1] == a;
      WalkWithNewEdge(edges, k, f, t, p);
      assert !Reaches(edges, k, a, a);
      if f != t {
        if a != f && a != t {
          ReachesTransitive(edges, k, t, a, f);
        }
        assert Reaches(edges, k, t, f);
      }
    } else {
      ReachesByEdge(big, k, f, t);
      if Reaches(edges, k, t, f) {
        ReachesMonotone(edges, big, k, t, f);
        ReachesTransitive(big, k, f, t, f);
      }
    }
  }

  lemma RemovalKeepsAcyclic(small: set<Edge>, big: set<Edge>, k: Kind)
    requires small <= big && Acyclic(big, k)
    ensures Acyclic(small, k)
  {
    forall a
      ensures !Reaches(small, k, a, a)
    {
      if Reaches(small, k, a, a) {
        ReachesMonotone(small, big, k, a, a);
      }
    }
  }

  // ---------------------------------------------------------------- the edge table

  datatype AddOutcome = Added | SelfRelation | ClosesCycle | UnknownTask | HasParent | AlreadyDuplicate | AlreadyRelated

  /** A row the unique constraint or one of the two partial unique indexes rejects. */
  predicate Conflicts(edges: set<Edge>, e: Edge) {
    || e in edges
    || (e.kind in {SubtaskOf, DuplicateOf} && exists o | o in edges :: o.kind == e.kind && o.from == e.from)
  }

  /** The task already has an edge of the kind. */
  ghost predicate HasEdge(edges: set<Edge>, from: TaskId, k: Kind) {
    exists to :: Edge(from, to, k) in edges
  }

  lemma ConflictsExact(edges: set<Edge>, e: Edge)
    ensures Conflicts(edges, e) <==> if e.kind in {SubtaskOf, DuplicateOf} then HasEdge(edges, e.from, e.kind) else e in edges
  {
    assert e == Edge(e.from, e.to, e.kind);
    assert forall o :: o in edges && o.kind == e.kind && o.from == e.from ==> o == Edge(e.from, o.to, e.kind);
    assert forall to :: Edge(e.from, to, e.kind) in edges ==> Edge(e.from, to, e.kind).kind == e.kind;
  }

  /** What the add-relation resolver does, check by check. */
  function Add(tasks: set<TaskId>, edges: set<Edge>, e: Edge): (set<Edge>, AddOutcome) {
    if e.from == e.to then (edges, SelfRelation)
    else if IsGuarded(e.kind) && RelationWouldCycle(edges, e.to, e.from, e.kind) then (edges, ClosesCycle)
    else if Conflicts(edges, e) then
      (edges,
       match e.kind
       case SubtaskOf => HasParent
       case DuplicateOf => AlreadyDuplicate
       case _ => AlreadyRelated)
    else if e.from !in tasks || e.to !in tasks then (edges, UnknownTask)
    else (edges + {e}, Added)
  }

  ghost predicate ValidTable(tasks: set<TaskId>, edges: set<Edge>) {
    && (forall e :: e in edges ==> e.from in tasks && e.to in tasks && e.from != e.to)
    && (forall e, o :: e in edges && o in edges && e.kind == o.kind && e.kind in {SubtaskOf, DuplicateOf} && e.from == o.from ==> e == o)
    && Acyclic(edges, Blocks)
    && Acyclic(edges, SubtaskOf)
  }

  lemma OtherKindUntouched(edges: set<Edge>, e: Edge, k: Kind)
    requires e.kind != k && Acyclic(edges, k)
    ensures Acyclic(edges + {e}, k)
  {
    forall a, b
      ensures Reaches(edges + {e}, k, a, b) ==> Reaches(edges, k, a, b)
    {
      if Reaches(edges + {e}, k, a, b) {
        var p :| Walk(edges + {e}, k, p) && p[0] == a && p[|p| - 1] == b;
        assert Walk(edges, k, p);
      }
    }
  }

  /** The resolver accepts an edge exactly when the enlarged table is valid and the edge is new, and
      a valid table stays valid whatever it answers. */
  lemma AddKeepsValid(tasks: set<TaskId>, edges: set<Edge>, e: Edge)
    requires ValidTable(tasks, edges)
    ensures ValidTable(tasks, Add(tasks, edges, e).0)
    ensures Add(tasks, edges, e).1 == Added <==> e !in edges && ValidTable(tasks, edges + {e})
    ensures Add(tasks, edges, e).0 == if Add(tasks, edges, e).1 == Added then edges + {e} else edges
  {
    var big := edges + {e};
    assert e in big && e == Edge(e.from, e.to, e.kind);
    if e.kind != Blocks { OtherKindUntouched(edges, e, Blocks); } else { GuardIsExact(edges, Blocks, e.from, e.to); }
    if e.kind != SubtaskOf { OtherKindUntouched(edges, e, SubtaskOf); } else { GuardIsExact(edges, SubtaskOf, e.from, e.to); }
    if Conflicts(edges, e) && e !in edges {
      var o :| o in edges && o.kind == e.kind && o.from == e.from;
      assert o in big && o != e;
    }
  }

  /** Removing an edge; the second part says whether a row went away. */
  function Remove(edges: set<Edge>, e: Edge): (set<Edge>, bool) {
    (edges - {e}, e in edges)
  }

  lemma RemoveKeepsValid(tasks: set<TaskId>, edges: set<Edge>, e: Edge)
    requires ValidTable(tasks, edges)
    ensures ValidTable(tasks, Remove(edges, e).0)
  {
    RemovalKeepsAcyclic(edges - {e}, edges, Blocks);
    RemovalKeepsAcyclic(edges - {e}, edges, SubtaskOf);
  }

  lemma NoEdgesNoCycle(k: Kind)
    ensures Acyclic({}, k)
  {
    forall a
      ensures Targets({}, k, {a}) == {} && !Reaches({}, k, a, a)
    {
      ReachSetExact({}, k, a, a);
    }
  }

  datatype TableOp = AddOp(e: Edge) | RemoveOp(e: Edge)

  function RunOps(tasks: set<TaskId>, edges: set<Edge>, ops: seq<TableOp>): set<Edge>
    decreases |ops|
  {
    if ops == [] then edges
    else
      var next := match ops[0]
        case AddOp(e) => Add(tasks, edges, e).0
        case RemoveOp(e) => Remove(edges, e).0;
      RunOps(tasks, next, ops[1..])
  }

  /** After any sequence of guarded adds and removes the blocks and subtask graphs are acyclic, every
      task has at most one parent and one canonical original, and no edge dangles. */
  lemma {:induction false} RunsKeepTableValid(tasks: set<TaskId>, edges: set<Edge>, ops: seq<TableOp>)
    requires ValidTable(tasks, edges)
    ensures ValidTable(tasks, RunOps(tasks, edges, ops))
    decreases |ops|
  {
    if ops != [] {
      AddKeepsValid(tasks, edges, ops[0].e);
      RemoveKeepsValid(tasks, edges, ops[0].e);
      var next := match ops[0]
        case AddOp(e) => Add(tasks, edges, e).0
        case RemoveOp(e) => Remove(edges, e).0;
      RunsKeepTableValid(tasks, next, ops[1..]);
    }
  }

  // ---------------------------------------------------------------- blockers

  /** The blockers of `t` that have not reached a terminal state. */
  function Unmet(edges: set<Edge>, state: map<TaskId, TaskState>, t: TaskId): set<TaskId> {
    set e | e in edges && e.kind == Blocks && e.to == t && e.from in state && !IsTerminal(state[e.from]) :: e.from
  }

  lemma UnmetExact(edges: set<Edge>, state: map<TaskId, TaskState>, t: TaskId)
    ensures forall b :: b in Unmet(edges, state, t) <==> Edge(b, t, Blocks) in edges && b in state && !IsTerminal(state[b])
  {
    assert forall b :: Edge(b, t, Blocks) in edges ==> Edge(b, t, Blocks).from == b;
  }

  /** In an acyclic blocks graph every nonempty set of tasks has a member no member blocks. */
  lemma {:induction false} SomeMemberUnblocked(edges: set<Edge>, members: set<TaskId>) returns (m: TaskId)
    requires members != {} && Acyclic(edges, Blocks)
    ensures m in members && forall b :: b in members ==> Edge(b, m, Blocks) !in edges
    decreases |members|
  {
    var x :| x in members;
    var above := set y | y in members && Reaches(edges, Blocks, y, x);
    assert forall b :: b in members && Reaches(edges, Blocks, b, x) ==> b in above;
    if above == {} {
      m := x;
      forall b
        ensures Edge(b, x, Blocks) in edges ==> Reaches(edges, Blocks, b, x)
      {
        ReachesThrough(edges, Blocks, b, x, x);
      }
    } else {
      assert x !in above;
      assert above <= members && above != members;
      ProperSubsetSmaller(above, members);
      m := SomeMemberUnblocked(edges, above);
      forall b
        ensures Edge(b, m, Blocks) in edges ==> Reaches(edges, Blocks, b, x)
      {
        ReachesThrough(edges, Blocks, b, m, x);
      }
    }
  }

  /** Prepending an edge to a node, or to a walk from it. */
  lemma ReachesThrough(edges: set<Edge>, k: Kind, b: TaskId, y: TaskId, x: TaskId)
    ensures Edge(b, y, k) in edges && (y == x || Reaches(edges, k, y, x)) ==> Reaches(edges, k, b, x)
  {
    if Edge(b, y, k) in edges && (y == x || Reaches(edges, k, y, x)) {
      ReachesByEdge(edges, k, b, y);
      if y != x {
        ReachesTransitive(edges, k, b, y, x);
      }
    }
  }

  lemma ProperSubsetSmaller<T>(small: set<T>, big: set<T>)
    requires small < big
    ensures |small| < |big|
  {
    assert big == small + (big - small);
    assert |big| == |small| + |big - small|;
    var x :| x in big && x !in small;
    assert x in big - small;
  }

  /** No mutual blocking: a nonempty set of live tasks that contains its own live blockers has a
      member with no unmet blocker at all. */
  lemma NoMutualBlocking(edges: set<Edge>, state: map<TaskId, TaskState>, waiting: set<TaskId>) returns (m: TaskId)
    requires Acyclic(edges, Blocks) && waiting != {}
    requires forall t :: t in waiting ==> Unmet(edges, state, t) <= waiting
    ensures m in waiting && Unmet(edges, state, m) == {}
  {
    m := SomeMemberUnblocked(edges, waiting);
    forall e | e in edges && e.kind == Blocks && e.to == m
      ensures e.from !in waiting
    {
      assert e == Edge(e.from, m, Blocks);
    }
    assert Unmet(edges, state, m) * waiting == {};
  }

  ghost predicate HasBlockerIn(edges: set<Edge>, members: set<TaskId>, m: TaskId) {
    exists b :: b in members && Edge(b, m, Blocks) in edges
  }

  ghost predicate BlockedFromWithin(edges: set<Edge>, members: set<TaskId>) {
    forall m {:trigger HasBlockerIn(edges, members, m)} :: m in members ==> HasBlockerIn(edges, members, m)
  }

  ghost predicate AllLive(members: set<TaskId>, state: map<TaskId, TaskState>) {
    forall m :: m in members ==> m in state && !IsTerminal(state[m])
  }

  /** Tasks as their work moves them: a member ends only after an evaluation that found it ready. */
  ghost predicate WorkMoves(edges: set<Edge>, members: set<TaskId>, from: map<TaskId, TaskState>, to: map<TaskId, TaskState>) {
    forall m :: m in members && m in from && !IsTerminal(from[m]) ==>
      m in to && (IsTerminal(to[m]) ==> Unmet(edges, from, m) == {})
  }

  lemma BlockedStays(edges: set<Edge>, members: set<TaskId>, state: map<TaskId, TaskState>, m: TaskId)
    requires BlockedFromWithin(edges, members) && AllLive(members, state) && m in members
    ensures Unmet(edges, state, m) != {}
  {
    assert HasBlockerIn(edges, members, m);
    var b :| b in members && Edge(b, m, Blocks) in edges;
    assert Edge(b, m, Blocks).from in Unmet(edges, state, m);
  }

  /** What the guard rules out. Live tasks each of which another of them blocks never become ready, however
      long the system goes on: none of them ever has no unmet blocker, unless the owner steps in. A cycle
      of blocks edges is such a set. */
  lemma {:induction false} CycleWouldDeadlock(edges: set<Edge>, members: set<TaskId>, states: seq<map<TaskId, TaskState>>, k: nat)
    requires BlockedFromWithin(edges, members) && k < |states| && AllLive(members, states[0])
    requires forall i :: 0 <= i < |states| - 1 ==> WorkMoves(edges, members, states[i], states[i + 1])
    ensures AllLive(members, states[k])
    ensures forall m :: m in members ==> Unmet(edges, states[k], m) != {}
    decreases k
  {
    hide BlockedFromWithin;
    if k > 0 {
      CycleWouldDeadlock(edges, members, states, k - 1);
      assert WorkMoves(edges, members, states[k - 1], states[k - 1 + 1]);
    }
    forall m | m in members
      ensures Unmet(edges, states[k], m) != {}
    {
      BlockedStays(edges, members, states[k], m);
    }
  }

  /** Two tasks that block each other are such a set. */
  lemma PairBlocksItself(edges: set<Edge>, a: TaskId, b: TaskId)
    requires Edge(a, b, Blocks) in edges && Edge(b, a, Blocks) in edges
    ensures BlockedFromWithin(edges, {a, b}) && Reaches(edges, Blocks, a, a)
  {
    ReachesByEdge(edges, Blocks, a, b);
    ReachesByEdge(edges, Blocks, b, a);
    ReachesTransitive(edges, Blocks, a, b, a);
  }

  // ---------------------------------------------------------------- the table as the resolvers update it

  /** The relation table together with the wakes its removals send. */
  class RelationTable {
    const tasks: set<TaskId>
    var edges: set<Edge>
    var wakes: seq<TaskId>

    ghost predicate Valid()
      reads this
    {
      ValidTable(tasks, edges)
    }

    constructor (tasks: set<TaskId>)
      ensures Valid() && this.tasks == tasks && edges == {} && wakes == []
    {
      this.tasks := tasks;
      edges := {};
      wakes := [];
      new;
      NoEdgesNoCycle(Blocks);
      NoEdgesNoCycle(SubtaskOf);
    }

    method AddTaskRelation(from: TaskId, to: TaskId, kind: Kind) returns (outcome: AddOutcome)
      requires Valid()
      modifies this`edges
      ensures Valid()
      ensures edges == if outcome == Added then old(edges) + {Edge(from, to, kind)} else old(edges)
      ensures (edges, outcome) == Add(tasks, old(edges), Edge(from, to, kind))
      ensures outcome == Added <==>
        Edge(from, to, kind) !in old(edges) && ValidTable(tasks, old(edges) + {Edge(from, to, kind)})
      ensures outcome == SelfRelation <==> from == to
      ensures outcome == ClosesCycle <==> from != to && IsGuarded(kind) && Reaches(old(edges), kind, to, from)
      ensures var guarded := from == to || (IsGuarded(kind) && Reaches(old(edges), kind, to, from));
        && (outcome == HasParent <==> !guarded && kind == SubtaskOf && HasEdge(old(edges), from, SubtaskOf))
        && (outcome == AlreadyDuplicate <==> !guarded && kind == DuplicateOf && HasEdge(old(edges), from, DuplicateOf))
        && (outcome == AlreadyRelated <==> !guarded && kind in {Blocks, Related} && Edge(from, to, kind) in old(edges))
        && (outcome == UnknownTask <==>
              && !guarded && !(from in tasks && to in tasks)
              && !(if kind in {SubtaskOf, DuplicateOf} then HasEdge(old(edges), from, kind) else Edge(from, to, kind) in old(edges)))
    {
      var e := Edge(from, to, kind);
      ReachSetExact(edges, kind, to, from);
      AddKeepsValid(tasks, edges, e);
      ConflictsExact(edges, e);
      if from == to {
        return SelfRelation;
      }
      if kind == Blocks || kind == SubtaskOf {
        var cycles := RelationWouldCycle(edges, to, from, kind);
        if cycles {
          return ClosesCycle;
        }
      }
      if Conflicts(edges, e) {
        match kind {
          case SubtaskOf => return HasParent;
          case DuplicateOf => return AlreadyDuplicate;
          case _ => return AlreadyRelated;
        }
      }
      if from !in tasks || to !in tasks {
        return UnknownTask;
      }
      edges := edges + {e};
      return Added;
    }

    method RemoveTaskRelation(from: TaskId, to: TaskId, kind: Kind) returns (removed: bool)
      requires Valid()
      modifies this`edges, this`wakes
      ensures Valid()
      ensures edges == old(edges) - {Edge(from, to, kind)}
      ensures removed <==> Edge(from, to, kind) in old(edges)
      ensures wakes == old(wakes) + if removed && kind == Blocks then [to] else []
    {
      RemoveKeepsValid(tasks, edges, Edge(from, to, kind));
      removed := Edge(from, to, kind) in edges;
      edges := edges - {Edge(from, to, kind)};
      if removed && kind == Blocks {
        wakes := wakes + [to];
      }
    }
  }
}
