/** The loops that run an agent stage: one segment, the durable segments, the synchronous form. */
module AgentRunner {
  import opened Lifecycle
  import opened Agent

  /** What the outside answers at each moment, a moment being the number of events before it. */
  datatype Env = Env(chat: nat -> Reply, gate: nat -> Verdict, tool: nat -> Outcome, owner: nat -> string,
                     catalog: (nat, nat) -> Option<string>)

  // ---------------------------------------------------------------- the allowlist

  /** Tool names to ids. Ids the catalog does not know are skipped, a later id wins its name. */
  function Resolve(ids: seq<nat>, lookup: nat -> Option<string>): Allowed
    decreases |ids|
  {
    if ids == [] then map[]
    else
      var init, last := Resolve(ids[..|ids| - 1], lookup), ids[|ids| - 1];
      match lookup(last) case None => init case Some(name) => init[name := last]
  }

  /** No id after position i has the name. */
  ghost predicate LastNamed(ids: seq<nat>, lookup: nat -> Option<string>, name: string, i: int)
    requires 0 <= i < |ids|
  {
    forall j :: i < j < |ids| ==> lookup(ids[j]) != Some(name)
  }

  /** A name resolves exactly when some listed id is a known tool of that name, and then to the last one. */
  lemma {:induction false} ResolveExact(ids: seq<nat>, lookup: nat -> Option<string>, name: string)
    ensures name in Resolve(ids, lookup) <==> exists i :: 0 <= i < |ids| && lookup(ids[i]) == Some(name)
    ensures name in Resolve(ids, lookup) ==> Resolve(ids, lookup)[name] in ids && lookup(Resolve(ids, lookup)[name]) == Some(name)
    ensures forall i :: 0 <= i < |ids| && lookup(ids[i]) == Some(name) && LastNamed(ids, lookup, name, i) ==>
      name in Resolve(ids, lookup) && Resolve(ids, lookup)[name] == ids[i]
    decreases |ids|
  {
    if ids != [] {
      var n := |ids| - 1;
      ResolveExact(ids[..n], lookup, name);
      NamedBefore(ids, lookup, name);
    }
  }

  lemma NamedBefore(ids: seq<nat>, lookup: nat -> Option<string>, name: string)
    requires ids != []
    ensures var n := |ids| - 1;
      && (forall i :: 0 <= i < n ==> ids[..n][i] == ids[i])
      && (forall i :: 0 <= i < n && LastNamed(ids, lookup, name, i) ==> LastNamed(ids[..n], lookup, name, i) && lookup(ids[n]) != Some(name))
      && ((exists i :: 0 <= i < |ids| && lookup(ids[i]) == Some(name)) <==>
            lookup(ids[n]) == Some(name) || exists i :: 0 <= i < n && lookup(ids[..n][i]) == Some(name))
  {
    var n := |ids| - 1;
    if i :| 0 <= i < n && lookup(ids[..n][i]) == Some(name) {
      assert lookup(ids[i]) == Some(name);
    }
  }

  method ResolveAllowlist(ids: seq<nat>, lookup: nat -> Option<string>) returns (allowed: Allowed)
    ensures allowed == Resolve(ids, lookup)
  {
    allowed := map[];
    for i := 0 to |ids|
      invariant allowed == Resolve(ids[..i], lookup)
    {
      assert ids[..i + 1][..i] == ids[..i];
      var found := lookup(ids[i]);
      if found.Some? {
        allowed := allowed[found.value := ids[i]];
      }
    }
    assert ids[..|ids|] == ids;
  }

  function CatalogAt(env: Env, k: nat): nat -> Option<string> {
    (id: nat) => env.catalog(k, id)
  }

  function AllowedAt(cfg: Config, env: Env, k: nat): Option<Allowed> {
    if cfg.allowlist.None? then None else Some(Resolve(cfg.allowlist.value, CatalogAt(env, k)))
  }

  // ---------------------------------------------------------------- logs that tell what happened

  predicate Told(cfg: Config, env: Env, k: nat, ev: Event) {
    match ev
    case Open(allowed) => allowed == AllowedAt(cfg, env, k)
    case Chat(reply) => reply == env.chat(k)
    case Gate(_, _, verdict) => verdict == env.gate(k)
    case Dispatch(_, _, outcome) => outcome == env.tool(k)
    case Resume(injected, allowed) => injected == env.owner(k) && allowed == AllowedAt(cfg, env, k)
    case _ => true
  }

  /** A run of the loop against these answers, up to state `st`. */
  ghost predicate Reaches(cfg: Config, env: Env, log: seq<Event>, st: State) {
    After(cfg, log) == Some(st) && forall k :: 0 <= k < |log| ==> Told(cfg, env, k, log[k])
  }

  /** What a segment starts with: nothing when the allowlist cannot be read, else exactly the names the catalog
      knows its ids by at that moment. */
  lemma SegmentTools(cfg: Config, env: Env, log: seq<Event>, st: State, k: nat, name: string)
    requires Reaches(cfg, env, log, st) && k < |log| && (log[k].Open? || log[k].Resume?)
    ensures log[k].allowed.None? <==> cfg.allowlist.None?
    ensures log[k].allowed.Some? ==>
      (name in log[k].allowed.value <==> exists i :: 0 <= i < |cfg.allowlist.value| && env.catalog(k, cfg.allowlist.value[i]) == Some(name))
    ensures log[k].Resume? ==> log[k].injected == env.owner(k)
  {
    assert Told(cfg, env, k, log[k]);
    if cfg.allowlist.Some? {
      ResolveExact(cfg.allowlist.value, CatalogAt(env, k), name);
    }
  }

  lemma NothingYet(cfg: Config, env: Env)
    ensures Reaches(cfg, env, [], IDLE)
  {
  }

  lemma Extend(cfg: Config, env: Env, log: seq<Event>, st: State, ev: Event)
    requires Reaches(cfg, env, log, st) && Next(cfg, st, ev).Some? && Told(cfg, env, |log|, ev)
    ensures Reaches(cfg, env, log + [ev], Next(cfg, st, ev).value)
    ensures Resumes(log + [ev]) == Resumes(log) + if ev.Resume? then 1 else 0
  {
    AfterSnoc(cfg, log, ev);
    assert (log + [ev])[..|log|] == log;
  }

  lemma OneWayOn(cfg: Config, env: Env, st: State, k: nat, a: Event, b: Event)
    requires Next(cfg, st, a).Some? && Next(cfg, st, b).Some? && Told(cfg, env, k, a) && Told(cfg, env, k, b)
    ensures a == b
  {
  }

  /** The answers determine the run: of two runs against the same answers one continues the other. */
  lemma {:induction false} RunsAreUnique(cfg: Config, env: Env, a: seq<Event>, sa: State, b: seq<Event>, sb: State)
    requires Reaches(cfg, env, a, sa) && Reaches(cfg, env, b, sb) && |a| <= |b|
    ensures a <= b
    ensures sa.phase.Ended? ==> a == b
    decreases |b|
  {
    if b != [] {
      var n := |b| - 1;
      var tb := Earlier(cfg, env, b, sb);
      if |a| < |b| {
        RunsAreUnique(cfg, env, a, sa, b[..n], tb);
      } else {
        var ta := Earlier(cfg, env, a, sa);
        RunsAreUnique(cfg, env, a[..n], ta, b[..n], tb);
        assert a[..n] == b[..n];
        OneWayOn(cfg, env, ta, n, a[n], b[n]);
        assert a == a[..n] + [a[n]] && b == b[..n] + [b[n]];
      }
    }
  }

  lemma Earlier(cfg: Config, env: Env, log: seq<Event>, st: State) returns (prior: State)
    requires Reaches(cfg, env, log, st) && log != []
    ensures Reaches(cfg, env, log[..|log| - 1], prior) && !prior.phase.Ended?
    ensures Next(cfg, prior, log[|log| - 1]) == Some(st) && Told(cfg, env, |log| - 1, log[|log| - 1])
  {
    prior := After(cfg, log[..|log| - 1]).value;
  }

  // ---------------------------------------------------------------- one segment

  datatype Segment = Stopped(result: Result) | Pending(call: Call, tool: nat, talk: Talk, iter: int)

  /** The segment's outcome is the state its log leads to. */
  ghost predicate Stops(cfg: Config, env: Env, log: seq<Event>, seg: Segment) {
    && After(cfg, log).Some?
    && Reaches(cfg, env, log, After(cfg, log).value)
    && match seg
       case Stopped(result) => After(cfg, log).value.phase == Ended(result)
       case Pending(call, tool, talk, iter) =>
         var st := After(cfg, log).value;
         st.phase == Parked(call, tool) && st.talk == talk && st.iter == iter
  }

  /** About to handle call i of a turn, or back at the loop head when there is none left. */
  function AtCall(calls: seq<Call>, i: nat, iter: int, allowed: Allowed, talk: Talk): State
    requires i <= |calls|
  {
    if i == |calls| then State(Ready, iter + 1, allowed, talk) else State(Calling(calls[i..]), iter, allowed, talk)
  }

  /** One proposed call: handoff, allowlist, budget, gate, dispatch, in this order. */
  method HandleCall(cfg: Config, env: Env, log: seq<Event>, calls: seq<Call>, i: nat, iter: int, allowed: Allowed, talk: Talk)
    returns (log': seq<Event>, talk': Talk, stop: Option<Segment>)
    requires i < |calls| && Reaches(cfg, env, log, State(Calling(calls[i..]), iter, allowed, talk))
    ensures Resumes(log') == Resumes(log)
    ensures stop.None? ==> Reaches(cfg, env, log', AtCall(calls, i + 1, iter, allowed, talk'))
    ensures stop.Some? ==> Stops(cfg, env, log', stop.value)
  {
    var call := calls[i];
    ghost var rest := calls[i + 1..];
    ghost var st := State(Calling(calls[i..]), iter, allowed, talk);
    assert st.phase.calls[1..] == rest;
    if call.name == HANDOFF {
      Extend(cfg, env, log, st, HandOff(call));
      return log + [HandOff(call)], talk, Some(Stopped(FailClose("agent_handoff")));
    }
    if call.name !in allowed {
      Extend(cfg, env, log, st, Refuse(call));
      return log + [Refuse(call)], Observe(talk, REFUSED), None;
    }
    talk' := talk.(gateCalls := talk.gateCalls + 1);
    if talk'.gateCalls > cfg.budget {
      Extend(cfg, env, log, st, Exhaust(call));
      return log + [Exhaust(call)], talk', Some(Stopped(FailClose("budget_exhausted")));
    }
    var tool := allowed[call.name];
    var verdict := env.gate(|log|);
    Extend(cfg, env, log, st, Gate(call, tool, verdict));
    log', stop := log + [Gate(call, tool, verdict)], None;
    match verdict
    case GateError => talk' := Observe(talk', GATE_FAILED);
    case Approve =>
      var outcome := env.tool(|log'|);
      Extend(cfg, env, log', State(Dispatching(call, tool, rest), iter, allowed, talk'), Dispatch(call, tool, outcome));
      log', talk' := log' + [Dispatch(call, tool, outcome)], Observe(talk', OutcomeText(outcome));
    case Request => stop := Some(Pending(call, tool, talk', iter));
    case Deny => talk' := Observe(talk', DENIED);
    case OtherVerdict =>
  }

  /** The calls of one turn, in order, until one stops the segment. */
  method HandleCalls(cfg: Config, env: Env, log: seq<Event>, calls: seq<Call>, iter: int, allowed: Allowed, talk: Talk)
    returns (log': seq<Event>, talk': Talk, stop: Option<Segment>)
    requires calls != [] && Reaches(cfg, env, log, State(Calling(calls), iter, allowed, talk))
    ensures Resumes(log') == Resumes(log)
    ensures stop.None? ==> Reaches(cfg, env, log', State(Ready, iter + 1, allowed, talk'))
    ensures stop.Some? ==> Stops(cfg, env, log', stop.value)
  {
    log', talk', stop := log, talk, None;
    var i := 0;
    assert calls[0..] == calls;
    while i < |calls|
      invariant 0 <= i <= |calls| && Resumes(log') == Resumes(log) && stop.None?
      invariant Reaches(cfg, env, log', AtCall(calls, i, iter, allowed, talk'))
    {
      log', talk', stop := HandleCall(cfg, env, log', calls, i, iter, allowed, talk');
      if stop.Some? {
        return;
      }
      i := i + 1;
    }
  }

  /** One model turn at the loop head. */
  method TakeTurn(cfg: Config, env: Env, log: seq<Event>, iter: int, allowed: Allowed, talk: Talk)
    returns (log': seq<Event>, talk': Talk, stop: Option<Segment>)
    requires iter < cfg.maxIter && Reaches(cfg, env, log, State(Ready, iter, allowed, talk))
    ensures Resumes(log') == Resumes(log)
    ensures stop.None? ==> Reaches(cfg, env, log', State(Ready, iter + 1, allowed, talk'))
    ensures stop.Some? ==> Stops(cfg, env, log', stop.value)
  {
    var reply := env.chat(|log|);
    Extend(cfg, env, log, State(Ready, iter, allowed, talk), Chat(reply));
    log' := log + [Chat(reply)];
    if reply.ChatError? {
      return log', talk, Some(Stopped(FailClose("gateway_error")));
    }
    talk' := RecordTurn(talk, reply.content, reply.calls);
    if reply.calls == [] {
      ghost var st := State(Silent(reply.content, reply.suspected), iter, allowed, talk');
      if reply.suspected && talk'.nudges < MAX_NUDGES {
        Extend(cfg, env, log', st, Nudge);
        return log' + [Nudge], Observe(Say(talk', reply.content), NUDGE).(nudges := talk'.nudges + 1), None;
      }
      Extend(cfg, env, log', st, Finish);
      return log' + [Finish], talk', Some(Stopped(Answer(reply.content)));
    }
    talk' := Say(talk', reply.content);
    log', talk', stop := HandleCalls(cfg, env, log', reply.calls, iter, allowed, talk');
  }

  /** Runs until the stage is finished or a call needs the owner; resumes at the saved iteration. */
  method RunSegment(cfg: Config, env: Env, before: seq<Event>, saved: Option<Segment>)
    returns (out: Segment, log: seq<Event>)
    requires saved.None? ==> before == []
    requires saved.Some? ==> saved.value.Pending? && Stops(cfg, env, before, saved.value)
    ensures Stops(cfg, env, log, out)
    ensures Resumes(log) == Resumes(before) + if saved.Some? then 1 else 0
  {
    hide After, Count, Resolve;
    var allowed: Option<Allowed> := None;
    if cfg.allowlist.Some? {
      var map' := ResolveAllowlist(cfg.allowlist.value, CatalogAt(env, |before|));
      allowed := Some(map');
    }
    assert allowed == AllowedAt(cfg, env, |before|);
    var talk, iter := Opening(cfg), 0;
    if saved.None? {
      NothingYet(cfg, env);
      Extend(cfg, env, [], IDLE, Open(allowed));
      log := [] + [Open(allowed)];
    } else {
      talk, iter := saved.value.talk, saved.value.iter;
      var injected := env.owner(|before|);
      Extend(cfg, env, before, After(cfg, before).value, Resume(injected, allowed));
      log := before + [Resume(injected, allowed)];
      if injected != "" {
        talk := Observe(talk, injected);
      }
    }
    if allowed.None? {
      return Stopped(Broken), log;
    }
    while iter < cfg.maxIter
      invariant Resumes(log) == Resumes(before) + if saved.Some? then 1 else 0
      invariant Reaches(cfg, env, log, State(Ready, iter, allowed.value, talk))
      decreases cfg.maxIter - iter
    {
      var stop;
      log, talk, stop := TakeTurn(cfg, env, log, iter, allowed.value, talk);
      if stop.Some? {
        return stop.value, log;
      }
      iter := iter + 1;
    }
    Extend(cfg, env, log, State(Ready, iter, allowed.value, talk), GiveUp);
    log := log + [GiveUp];
    out := Stopped(FailClose("max_iterations"));
  }

  /** The synchronous form cannot wait for the owner. */
  method Run(cfg: Config, env: Env) returns (result: Result, log: seq<Event>)
    ensures After(cfg, log).Some? && Reaches(cfg, env, log, After(cfg, log).value)
    ensures var phase := After(cfg, log).value.phase;
      || (phase.Parked? && result == FailClose("request_decision"))
      || (phase == Ended(Broken) && result == FailClose("gateway_error"))
      || (phase == Ended(result) && result != Broken)
    ensures Resumes(log) == 0
  {
    var seg: Segment;
    seg, log := RunSegment(cfg, env, [], None);
    if seg.Pending? {
      result := FailClose("request_decision");
    } else if seg.result == Broken {
      result := FailClose("gateway_error");
    } else {
      result := seg.result;
    }
  }

  /** The durable loop: segment, wait for the owner, resume. It ends, although a resume restarts the same
      iteration, because every wait has used up a gate evaluation. */
  method AgentStageWorkflow(cfg: Config, env: Env) returns (result: Result, log: seq<Event>)
    ensures After(cfg, log).Some? && Reaches(cfg, env, log, After(cfg, log).value)
    ensures After(cfg, log).value.phase == Ended(result)
    ensures Evaluations(log) <= Max0(cfg.budget) && Resumes(log) <= Max0(cfg.budget)
    ensures Chats(log) <= Max0(cfg.maxIter) + Max0(cfg.budget)
  {
    var seg: Segment;
    seg, log := RunSegment(cfg, env, [], None);
    while seg.Pending?
      invariant Stops(cfg, env, log, seg)
      decreases Max0(cfg.budget) - Resumes(log)
    {
      LedgerHolds(cfg, log);
      seg, log := RunSegment(cfg, env, log, Some(seg));
      LedgerHolds(cfg, log);
    }
    RunIsBounded(cfg, log);
    result := seg.result;
  }
}
