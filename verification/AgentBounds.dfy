/** How far the iteration limit bounds a stage, over the runs its configuration really has. */
module AgentBounds {
  import opened Lifecycle
  import opened Agent
  import opened AgentRunner

  // ---------------------------------------------------------------- an outside that tells a given log

  const PROBE: Call := Call("probe", "")
  const STRAY: Call := Call("stray", "")

  function Probes(tool: nat): Allowed {
    map["probe" := tool]
  }

  /** Every segment of the log resolved that one tool. */
  ghost predicate UsesOnly(log: seq<Event>, tool: nat) {
    forall k :: 0 <= k < |log| && (log[k].Open? || log[k].Resume?) ==> log[k].allowed == Some(Probes(tool))
  }

  /** Answers read off the log, and a catalog that knows one tool. */
  function Teller(log: seq<Event>, tool: nat): Env {
    Env((k: nat) => if k < |log| && log[k].Chat? then log[k].reply else ChatError,
        (k: nat) => if k < |log| && log[k].Gate? then log[k].verdict else Deny,
        (k: nat) => if k < |log| && log[k].Dispatch? then log[k].outcome else Ok(""),
        (k: nat) => if k < |log| && log[k].Resume? then log[k].injected else "",
        (k: nat, id: nat) => if id == tool then Some("probe") else None)
  }

  lemma {:induction false} ResolveOnly(ids: seq<nat>, lookup: nat -> Option<string>, tool: nat)
    requires forall id :: lookup(id) == if id == tool then Some("probe") else None
    ensures Resolve(ids, lookup) == if tool in ids then Probes(tool) else map[]
    decreases |ids|
  {
    if ids != [] {
      ResolveOnly(ids[..|ids| - 1], lookup, tool);
      assert ids == ids[..|ids| - 1] + [ids[|ids| - 1]];
    }
  }

  lemma TellerTells(cfg: Config, log: seq<Event>, tool: nat)
    requires After(cfg, log).Some? && UsesOnly(log, tool) && cfg.allowlist.Some? && tool in cfg.allowlist.value
    ensures Reaches(cfg, Teller(log, tool), log, After(cfg, log).value)
  {
    hide After, Resolve;
    var env := Teller(log, tool);
    forall k | 0 <= k < |log|
      ensures Told(cfg, env, k, log[k])
    {
      ResolveOnly(cfg.allowlist.value, CatalogAt(env, k), tool);
    }
  }

  // ---------------------------------------------------------------- the bound is reached

  lemma CountOne(log: seq<Event>, a: Event)
    ensures Chats(log + [a]) == Chats(log) + if a.Chat? then 1 else 0
    ensures Resumes(log + [a]) == Resumes(log) + if a.Resume? then 1 else 0
  {
    assert (log + [a])[..|log|] == log;
  }

  lemma OneMore(cfg: Config, log: seq<Event>, ev: Event, tool: nat)
    requires After(cfg, log).Some? && UsesOnly(log, tool) && (ev.Open? || ev.Resume? ==> ev.allowed == Some(Probes(tool)))
    ensures After(cfg, log + [ev]) == Next(cfg, After(cfg, log).value, ev) && UsesOnly(log + [ev], tool)
    ensures Chats(log + [ev]) == Chats(log) + if ev.Chat? then 1 else 0
    ensures Resumes(log + [ev]) == Resumes(log) + if ev.Resume? then 1 else 0
  {
    AfterSnoc(cfg, log, ev);
    CountOne(log, ev);
  }

  /** Iterations spent on refused calls. */
  lemma {:induction false} Spin(cfg: Config, tool: nat, n: nat) returns (log: seq<Event>)
    requires n < cfg.maxIter
    ensures After(cfg, log).Some? && var st := After(cfg, log).value;
      st.phase.Ready? && st.iter == n && st.allowed == Probes(tool) && st.talk.gateCalls == 0
    ensures Chats(log) == n && Resumes(log) == 0 && UsesOnly(log, tool)
    decreases n
  {
    if n == 0 {
      OneMore(cfg, [], Open(Some(Probes(tool))), tool);
      log := [] + [Open(Some(Probes(tool)))];
    } else {
      var init := Spin(cfg, tool, n - 1);
      var said := Chat(Reply("", [STRAY], false));
      hide After, Count, UsesOnly;
      OneMore(cfg, init, said, tool);
      OneMore(cfg, init + [said], Refuse(STRAY), tool);
      log := init + [said] + [Refuse(STRAY)];
    }
  }

  /** Requests answered in the last iteration: each costs a model call and no iteration. */
  lemma {:induction false} Ask(cfg: Config, tool: nat, n: nat) returns (log: seq<Event>)
    requires cfg.maxIter >= 1 && n <= cfg.budget
    ensures After(cfg, log).Some? && var st := After(cfg, log).value;
      st.phase.Ready? && st.iter == cfg.maxIter - 1 && st.allowed == Probes(tool) && st.talk.gateCalls == n
    ensures Chats(log) == cfg.maxIter - 1 + n && Resumes(log) == n && UsesOnly(log, tool)
    decreases n
  {
    hide After, Count, UsesOnly;
    if n == 0 {
      log := Spin(cfg, tool, cfg.maxIter - 1);
    } else {
      var init := Ask(cfg, tool, n - 1);
      var said, gate, back := Chat(Reply("", [PROBE], false)), Gate(PROBE, tool, Request), Resume("", Some(Probes(tool)));
      OneMore(cfg, init, said, tool);
      OneMore(cfg, init + [said], gate, tool);
      OneMore(cfg, init + [said] + [gate], back, tool);
      log := init + [said] + [gate] + [back];
    }
  }

  /** The iteration limit alone does not bound the model calls: every configuration that lists a tool and
      has a positive limit has a run with exactly maxIter + budget of them, in budget + 1 segments. */
  lemma BoundIsReached(cfg: Config)
    requires cfg.maxIter >= 1 && cfg.budget >= 0 && cfg.allowlist.Some? && cfg.allowlist.value != []
    ensures exists env, log, st ::
      && Reaches(cfg, env, log, st) && st.phase == Ended(FailClose("budget_exhausted"))
      && Chats(log) == cfg.maxIter + cfg.budget && Resumes(log) == cfg.budget
  {
    hide After, Count, UsesOnly, Reaches;
    var tool := cfg.allowlist.value[0];
    var init := Ask(cfg, tool, cfg.budget);
    var said := Chat(Reply("", [PROBE], false));
    OneMore(cfg, init, said, tool);
    OneMore(cfg, init + [said], Exhaust(PROBE), tool);
    var log := init + [said] + [Exhaust(PROBE)];
    TellerTells(cfg, log, tool);
    assert Reaches(cfg, Teller(log, tool), log, After(cfg, log).value);
  }

  // ---------------------------------------------------------------- configurations that gate nothing

  predicate ListsTools(cfg: Config) {
    cfg.allowlist.Some? && cfg.allowlist.value != []
  }

  /** Without a listed tool no call is ever gated, so nothing waits for the owner and nothing resumes. */
  ghost predicate Ungated(st: State) {
    st.allowed == map[] && !st.phase.Dispatching? && !st.phase.Parked?
  }

  lemma UngatedStep(cfg: Config, env: Env, k: nat, st: State, ev: Event)
    requires !ListsTools(cfg) && Ungated(st) && Next(cfg, st, ev).Some? && Told(cfg, env, k, ev)
    ensures Ungated(Next(cfg, st, ev).value) && !ev.Resume?
  {
  }

  lemma {:induction false} NothingResumes(cfg: Config, env: Env, log: seq<Event>, st: State)
    requires !ListsTools(cfg) && Reaches(cfg, env, log, st)
    ensures Ungated(st) && Resumes(log) == 0
    decreases |log|
  {
    if log != [] {
      var n := |log| - 1;
      var prior := Earlier(cfg, env, log, st);
      NothingResumes(cfg, env, log[..n], prior);
      UngatedStep(cfg, env, n, prior, log[n]);
      CountOne(log[..n], log[n]);
      assert log[..n] + [log[n]] == log;
    }
  }

  lemma {:induction false} NoIterationNoCall(cfg: Config, log: seq<Event>)
    requires cfg.maxIter < 1 && After(cfg, log).Some?
    ensures Chats(log) == 0
    ensures var st := After(cfg, log).value; st.phase.Idle? || st.phase.Ended? || (st.phase.Ready? && st.iter == 0)
    decreases |log|
  {
    if log != [] {
      var init := log[..|log| - 1];
      NoIterationNoCall(cfg, init);
      CountOne(init, log[|log| - 1]);
      assert init + [log[|log| - 1]] == log;
    }
  }

  /** The iteration limit bounds the model calls of every run the configuration has exactly when there is
      no gate budget, no iteration, or no listed tool; an allowlist that cannot be read lists none. */
  lemma IterationLimitExact(cfg: Config)
    ensures (forall env, log, st :: Reaches(cfg, env, log, st) ==> Chats(log) <= Max0(cfg.maxIter))
      <==> cfg.budget <= 0 || cfg.maxIter < 1 || cfg.allowlist == None || cfg.allowlist == Some([])
  {
    if cfg.budget > 0 && cfg.maxIter >= 1 && ListsTools(cfg) {
      BoundIsReached(cfg);
    } else {
      forall env, log, st | Reaches(cfg, env, log, st)
        ensures Chats(log) <= Max0(cfg.maxIter)
      {
        RunIsBounded(cfg, log);
        if cfg.maxIter < 1 {
          NoIterationNoCall(cfg, log);
        } else if !ListsTools(cfg) {
          NothingResumes(cfg, env, log, st);
        }
      }
    }
  }
}
